/**
 The two-phase bandwidth and clock vote of one DECON.

 A commit computes a new demand, raises votes before the hardware is
 programmed and lowers them after the shadow registers have been updated.
 Switching the CRTC off releases everything.
 */
module BandwidthVote {

  /** What the layers of a commit ask for. */
  datatype Demand = Demand(peak: nat, rt: nat, read: nat, write: nat, clock: nat)

  /** The bandwidth request held by the bus driver. */
  datatype BwVote = BwVote(peak: nat, rt: nat, read: nat, write: nat)

  datatype VoterState = VoterState(
    enabled: bool,
    demand: Demand,
    prevPeak: nat, prevRt: nat, prevTotal: nat, prevClock: nat,
    bw: BwVote, clock: nat)

  datatype Event = Commit(demand: Demand) | SwitchOff

  function Max(a: nat, b: nat): nat { if a < b then b else a }

  function Total(d: Demand): nat { d.read + d.write }

  function Request(d: Demand): BwVote { BwVote(d.peak, d.rt, d.read, d.write) }

  /** With only a writeback running, the clock is capped (a cap of zero means no cap). */
  function Capped(d: Demand, cap: nat): Demand {
    if cap > 0 && d.read == 0 && d.write > 0 && cap < d.clock then d.(clock := cap) else d
  }

  predicate AnyUp(s: VoterState) {
    Total(s.demand) > s.prevTotal || s.demand.peak > s.prevPeak || s.demand.rt > s.prevRt
  }

  predicate AnyDown(s: VoterState) {
    Total(s.demand) < s.prevTotal || s.demand.peak < s.prevPeak || s.demand.rt < s.prevRt
  }

  // ---------------------------------------------------------------------
  // The transitions as functions
  // ---------------------------------------------------------------------

  function Calculated(s: VoterState, d: Demand): VoterState {
    if s.enabled then s.(demand := d) else s
  }

  function WithCap(s: VoterState, cap: nat): VoterState {
    s.(demand := Capped(s.demand, cap))
  }

  function RaisedVotes(s: VoterState): VoterState {
    s.(bw := if AnyUp(s) then Request(s.demand) else s.bw,
    clock := if s.demand.clock > s.prevClock then s.demand.clock else s.clock)
  }

  function LoweredVotes(s: VoterState): VoterState {
    VoterState(s.enabled, s.demand, s.demand.peak, s.demand.rt, Total(s.demand), s.demand.clock,
               if AnyDown(s) then Request(s.demand) else s.bw,
               if s.demand.clock < s.prevClock then s.demand.clock else s.clock)
  }

  function Raised(s: VoterState, cap: nat): VoterState {
    if s.enabled then RaisedVotes(WithCap(s, cap)) else s
  }

  function Lowered(s: VoterState, cap: nat): VoterState {
    if s.enabled then LoweredVotes(WithCap(s, cap)) else s
  }

  function Released(s: VoterState): VoterState {
    if !s.enabled then s
    else VoterState(true, s.demand.(rt := 0), 0, 0, 0, 0, BwVote(0, 0, 0, 0), 0)
  }

  function AfterEvent(s: VoterState, e: Event, cap: nat): VoterState {
    match e
    case Commit(d) => Lowered(Raised(Calculated(s, d), cap), cap)
    case SwitchOff => Released(s)
  }

  function AfterRun(s: VoterState, events: seq<Event>, cap: nat): VoterState
    decreases |events|
  {
    if events == [] then s
    else AfterEvent(AfterRun(s, events[..|events| - 1], cap), events[|events| - 1], cap)
  }

  const Boot: VoterState :=
    VoterState(true, Demand(0, 0, 0, 0, 0), 0, 0, 0, 0, BwVote(0, 0, 0, 0), 0)

  // ---------------------------------------------------------------------
  // What holds between commits
  // ---------------------------------------------------------------------

  /** The remembered previous demand is exactly what is voted. */
  predicate Tracks(s: VoterState) {
    && s.bw.peak == s.prevPeak
    && s.bw.rt == s.prevRt
    && s.bw.read + s.bw.write == s.prevTotal
    && s.clock == s.prevClock
  }

  /** The clock a demand is given: what it asks for, unless nothing is read while a writeback runs under a cap,
      when it is the smaller of the two. */
  predicate GivenClock(d: Demand, cap: nat, clock: nat) {
    if cap == 0 || d.read > 0 || d.write == 0 then clock == d.clock
    else clock <= d.clock && clock <= cap && (clock == d.clock || clock == cap)
  }

  lemma CappedGivesClock(d: Demand, cap: nat)
    ensures GivenClock(d, cap, Capped(d, cap).clock)
    ensures Capped(d, cap) == d.(clock := Capped(d, cap).clock)
  {
  }

  /** The vote is exactly demand `d`, up to the split of the total into read and write, with the clock `d` is given. */
  predicate VotesFor(s: VoterState, d: Demand, cap: nat) {
    && s.bw.peak == d.peak
    && s.bw.rt == d.rt
    && s.bw.read + s.bw.write == d.read + d.write
    && GivenClock(d, cap, s.clock)
  }

  lemma CommitSettles(s: VoterState, d: Demand, cap: nat)
    requires s.enabled && Tracks(s)
    ensures var s' := AfterEvent(s, Commit(d), cap);
            s'.enabled && Tracks(s') && VotesFor(s', d, cap)
  {
  }

  lemma SwitchOffSettles(s: VoterState, cap: nat)
    requires s.enabled && Tracks(s)
    ensures var s' := AfterEvent(s, SwitchOff, cap);
            s'.enabled && Tracks(s') && VotesFor(s', Demand(0, 0, 0, 0, 0), cap) && s'.demand.rt == 0
  {
  }

  /** A DECON whose voting is disabled never changes a vote. */
  lemma {:induction false} DisabledNeverVotes(s: VoterState, events: seq<Event>, cap: nat)
    requires !s.enabled
    ensures AfterRun(s, events, cap) == s
    decreases |events|
  {
    if events != [] {
      DisabledNeverVotes(s, events[..|events| - 1], cap);
    }
  }

  /** The demand an event leaves to be voted for. */
  function DemandAfter(e: Event): Demand {
    match e
    case Commit(d) => d
    case SwitchOff => Demand(0, 0, 0, 0, 0)
  }

  lemma EventSettles(s: VoterState, e: Event, cap: nat)
    requires s.enabled && Tracks(s)
    ensures var s' := AfterEvent(s, e, cap);
            s'.enabled && Tracks(s') && VotesFor(s', DemandAfter(e), cap)
  {
    match e
    case Commit(d) => CommitSettles(s, d, cap);
    case SwitchOff => SwitchOffSettles(s, cap);
  }

  function LastDemand(events: seq<Event>): Demand {
    if events == [] then Demand(0, 0, 0, 0, 0) else DemandAfter(events[|events| - 1])
  }

  /** Over every run from boot the vote settles on the demand of the last commit, or on nothing
      once the CRTC has been switched off. */
  lemma {:induction false} EveryRunSettles(events: seq<Event>, cap: nat)
    ensures AfterRun(Boot, events, cap).enabled
    ensures Tracks(AfterRun(Boot, events, cap))
    ensures VotesFor(AfterRun(Boot, events, cap), LastDemand(events), cap)
    decreases |events|
  {
    if events != [] {
      var before := AfterRun(Boot, events[..|events| - 1], cap);
      EveryRunSettles(events[..|events| - 1], cap);
      EventSettles(before, events[|events| - 1], cap);
      assert AfterRun(Boot, events, cap) == AfterEvent(before, events[|events| - 1], cap);
    }
  }

  // ---------------------------------------------------------------------
  // What holds between the two phases
  // ---------------------------------------------------------------------

  /** Old and new bandwidth can be compared: no component rises while another falls. */
  predicate Comparable(s: VoterState) { !(AnyUp(s) && AnyDown(s)) }

  /** The bandwidth vote is at least the remembered demand and at least the new one. */
  predicate CoversBoth(old_: VoterState, mid: VoterState) {
    && old_.prevPeak <= mid.bw.peak && mid.demand.peak <= mid.bw.peak
    && old_.prevRt <= mid.bw.rt && mid.demand.rt <= mid.bw.rt
    && old_.prevTotal <= mid.bw.read + mid.bw.write && Total(mid.demand) <= mid.bw.read + mid.bw.write
  }

  /** Between the phases the clock is the larger of old and new.  The bandwidth vote serves both
      configurations exactly when old and new are comparable, and is then their maximum;
      a mixed change has already moved the whole vote to the new demand. */
  lemma BetweenPhases(s: VoterState, d: Demand, cap: nat)
    requires s.enabled && Tracks(s)
    ensures var mid := Raised(Calculated(s, d), cap);
            && GivenClock(d, cap, mid.demand.clock) && mid.demand == d.(clock := mid.demand.clock)
            && mid.clock == Max(s.prevClock, mid.demand.clock)
            && (CoversBoth(s, mid) <==> Comparable(mid))
            && (Comparable(mid) ==>
                  && mid.bw.peak == Max(s.prevPeak, d.peak)
                  && mid.bw.rt == Max(s.prevRt, d.rt)
                  && mid.bw.read + mid.bw.write == Max(s.prevTotal, Total(d)))
            && (!Comparable(mid) ==> mid.bw == Request(d))
  {
  }

  /** A mixed change after one commit: less peak, more real-time bandwidth, the same total.  The first phase
      already votes for the new peak only. */
  lemma MixedChangeDropsOldPeak(cap: nat)
    ensures var s := AfterRun(Boot, [Commit(Demand(10, 1, 100, 0, 5))], cap);
            var mid := Raised(Calculated(s, Demand(1, 2, 100, 0, 5)), cap);
            s.bw == BwVote(10, 1, 100, 0) && s.prevPeak == 10 && mid.bw == BwVote(1, 2, 100, 0)
  {
    var run := [Commit(Demand(10, 1, 100, 0, 5))];
    assert run[..0] == [] && AfterRun(Boot, run[..0], cap) == Boot;
    assert AfterRun(Boot, run, cap) == AfterEvent(Boot, run[0], cap);
  }

  /** The split into read and write is refreshed exactly when the triple of total, peak and
      real-time bandwidth changes, or when the split itself has not changed. */
  lemma SplitIsCurrentExactlyWhen(s: VoterState, d: Demand, cap: nat)
    requires s.enabled && Tracks(s)
    ensures AfterEvent(s, Commit(d), cap).bw == Request(d) <==>
            || Total(d) != s.prevTotal || d.peak != s.prevPeak || d.rt != s.prevRt
            || (d.read == s.bw.read && d.write == s.bw.write)
  {
  }

  // ---------------------------------------------------------------------
  // The object
  // ---------------------------------------------------------------------

  class BtsVoter {
    var enabled: bool
    const maxDfsLvForWb: nat
    var peak: nat
    var rtAvgBw: nat
    var readBw: nat
    var writeBw: nat
    var totalBw: nat
    var maxDispFreq: nat
    var prevPeak: nat
    var prevRtAvgBw: nat
    var prevTotalBw: nat
    var prevMaxDispFreq: nat
    // held by the bus driver and by the clock framework
    var votedBw: BwVote
    var votedClock: nat

    constructor (cap: nat)
      ensures Valid() && State() == Boot && maxDfsLvForWb == cap
    {
      enabled, maxDfsLvForWb := true, cap;
      peak, rtAvgBw, readBw, writeBw, totalBw, maxDispFreq := 0, 0, 0, 0, 0, 0;
      prevPeak, prevRtAvgBw, prevTotalBw, prevMaxDispFreq := 0, 0, 0, 0;
      votedBw, votedClock := BwVote(0, 0, 0, 0), 0;
    }

    ghost predicate Valid()
      reads this
    {
      totalBw == readBw + writeBw
    }

    ghost function State(): VoterState
      reads this
    {
      VoterState(enabled, Demand(peak, rtAvgBw, readBw, writeBw, maxDispFreq),
                 prevPeak, prevRtAvgBw, prevTotalBw, prevMaxDispFreq, votedBw, votedClock)
    }

    method CalcBw(d: Demand)
      modifies this
      requires Valid()
      ensures Valid() && State() == Calculated(old(State()), d)
    {
      if !enabled {
        return;
      }
      readBw, writeBw, totalBw := d.read, d.write, d.read + d.write;
      peak, rtAvgBw, maxDispFreq := d.peak, d.rt, d.clock;
    }

    method CapClock()
      requires Valid()
      modifies this
      ensures Valid() && State() == WithCap(old(State()), maxDfsLvForWb)
    {
      if maxDfsLvForWb > 0 && readBw == 0 && writeBw > 0 {
        maxDispFreq := if maxDispFreq < maxDfsLvForWb then maxDispFreq else maxDfsLvForWb;
      }
    }

    method RaiseVotes()
      requires Valid()
      modifies this
      ensures Valid() && State() == RaisedVotes(old(State()))
    {
      if totalBw > prevTotalBw || peak > prevPeak || rtAvgBw > prevRtAvgBw {
        votedBw := BwVote(peak, rtAvgBw, readBw, writeBw);
      }
      if maxDispFreq > prevMaxDispFreq {
        votedClock := maxDispFreq;
      }
    }

    method LowerVotes()
      requires Valid()
      modifies this
      ensures Valid() && State() == LoweredVotes(old(State()))
    {
      if totalBw < prevTotalBw || peak < prevPeak || rtAvgBw < prevRtAvgBw {
        votedBw := BwVote(peak, rtAvgBw, readBw, writeBw);
      }
      if maxDispFreq < prevMaxDispFreq {
        votedClock := maxDispFreq;
      }
      prevTotalBw, prevPeak, prevRtAvgBw := totalBw, peak, rtAvgBw;
      prevMaxDispFreq := maxDispFreq;
    }

    method UpdateResources(shadowUpdated: bool)
      requires Valid()
      modifies this
      ensures Valid()
      ensures shadowUpdated ==> State() == Lowered(old(State()), maxDfsLvForWb)
      ensures !shadowUpdated ==> State() == Raised(old(State()), maxDfsLvForWb)
    {
      if !enabled {
        return;
      }
      CapClock();
      if shadowUpdated {
        LowerVotes();
      } else {
        RaiseVotes();
      }
    }

    method ReleaseResources()
      requires Valid()
      modifies this
      ensures Valid() && State() == Released(old(State()))
    {
      if !enabled {
        return;
      }
      votedBw := BwVote(0, 0, 0, 0);
      prevPeak, prevRtAvgBw, prevTotalBw := 0, 0, 0;
      votedClock := 0;
      prevMaxDispFreq := 0;
      rtAvgBw := 0;
    }

    /** The bandwidth part of the commit tail for this DECON: `hwUpdate` stands between the phases. */
    method CommitTail(active: bool, activeChanged: bool, d: Demand)
      requires Valid() && enabled && Tracks(State())
      modifies this
      ensures Valid() && enabled == old(enabled) && Tracks(State())
      ensures active ==> State() == AfterEvent(old(State()), Commit(d), maxDfsLvForWb)
      ensures active ==> VotesFor(State(), d, maxDfsLvForWb)
      ensures !active && activeChanged ==> VotesFor(State(), Demand(0, 0, 0, 0, 0), maxDfsLvForWb)
      ensures !active && !activeChanged ==> State() == old(State())
    {
      if active {
        CalcBw(d);
        UpdateResources(false);
        BetweenPhases(old(State()), d, maxDfsLvForWb);
        assert votedClock >= old(prevMaxDispFreq) && votedClock >= maxDispFreq;
        UpdateResources(true);
        CommitSettles(old(State()), d, maxDfsLvForWb);
      } else if activeChanged {
        ReleaseResources();
      }
    }
  }
}
