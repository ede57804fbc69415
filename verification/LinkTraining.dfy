/**
 DisplayPort link training: the clock recovery and equalization phases against an
 arbitrary sink, and the fallback over lane counts and link rates.

 A sink is the sequence of link status reports it gives, one per round; whatever
 it bases them on, a phase sees one such sequence.  Since every lane count and rate
 is attempted at most once, its behaviour over a whole training is a function of
 the pair attempted.
 */
module LinkTraining {

  const MAX_LANE_CNT := 4
  const MAX_VOLTAGE_LEVEL := 3
  const MAX_PREEMPH_LEVEL := 3

  type Level = n: nat | n <= 3

  datatype Request = Request(vol: Level, pre: Level)

  /** One link status read: clock recovery and equalization verdicts, and the level asked for per lane. */
  datatype Status = Status(crOk: bool, eqOk: bool, ask: nat -> Request)

  type Sink = nat -> Status

  /** Drive levels of one lane and its two "maximum reached" bits. */
  datatype Lane = Lane(vol: Level, pre: Level, maxSwing: bool, maxPre: bool)

  const QUIET := Lane(0, 0, false, false)

  // ---------------------------------------------------------------------
  // The lane register
  // ---------------------------------------------------------------------

  /** Swing in bits 0-1, its maximum in bit 2, pre-emphasis in bits 3-4, its maximum in bit 5. */
  function Encode(l: Lane): nat {
    l.vol + (if l.maxSwing then 4 else 0) + l.pre * 8 + (if l.maxPre then 32 else 0)
  }

  function SwingField(data: nat): nat { data % 4 }

  function PreField(data: nat): nat { data / 8 % 4 }

  /** The levels written to the sink can be read back from the register, whatever the bits beside them, and so can
      these. */
  lemma EncodeKeepsLevels(l: Lane)
    ensures SwingField(Encode(l)) == l.vol && PreField(Encode(l)) == l.pre
  {
  }

  lemma EncodeKeepsBits(l: Lane)
    ensures Encode(l) / 4 % 2 == 1 <==> l.maxSwing
    ensures Encode(l) / 32 == if l.maxPre then 1 else 0
  {
  }

  // ---------------------------------------------------------------------
  // One round
  // ---------------------------------------------------------------------

  function Min(a: nat, b: nat): nat {
    if a < b then a else b
  }

  function Adjusted(r: Request): Lane {
    var vol, pre := Min(r.vol, MAX_VOLTAGE_LEVEL), Min(r.pre, MAX_PREEMPH_LEVEL);
    Lane(vol, pre, vol == MAX_VOLTAGE_LEVEL, pre == MAX_PREEMPH_LEVEL)
  }

  predicate SameLane(l: Lane, r: Request) {
    l.vol == Adjusted(r).vol && l.pre == Adjusted(r).pre
  }

  /** Some active lane is asked for exactly the levels it has. */
  predicate SameAsked(levels: seq<Lane>, st: Status, n: nat)
    requires n <= |levels|
  {
    exists i :: 0 <= i < n && SameLane(levels[i], st.ask(i))
  }

  predicate AtMaximum(r: Request) {
    Adjusted(r).maxSwing || Adjusted(r).maxPre
  }

  /** Without lock, some active lane reaches a maximum level. */
  predicate MaxAsked(st: Status, n: nat) {
    !st.crOk && exists i :: 0 <= i < n && AtMaximum(st.ask(i))
  }

  function Adjust(levels: seq<Lane>, st: Status, n: nat): (r: seq<Lane>)
    requires n <= |levels|
    ensures |r| == |levels|
    ensures forall i :: 0 <= i < n ==> r[i] == Adjusted(st.ask(i))
    ensures forall i :: n <= i < |levels| ==> r[i] == levels[i]
  {
    seq(|levels|, i requires 0 <= i < |levels| => if i < n then Adjusted(st.ask(i)) else levels[i])
  }

  /** Every active lane's bits say exactly whether its level is the maximum. */
  predicate BitsRight(levels: seq<Lane>, n: nat)
    requires n <= |levels|
  {
    forall i :: 0 <= i < n ==>
                  && (levels[i].maxSwing <==> levels[i].vol == MAX_VOLTAGE_LEVEL)
                  && (levels[i].maxPre <==> levels[i].pre == MAX_PREEMPH_LEVEL)
  }

  // ---------------------------------------------------------------------
  // The phases, stated over the rounds
  // ---------------------------------------------------------------------

  /** Levels driven in round `r`, when all the rounds before it went through. */
  function LevelsAt(sink: Sink, start: seq<Lane>, n: nat, r: nat): (levels: seq<Lane>)
    requires n <= |start|
    ensures |levels| == |start|
  {
    if r == 0 then start else Adjust(LevelsAt(sink, start, n, r - 1), sink(r - 1), n)
  }

  function AllQuiet(): seq<Lane> {
    [QUIET, QUIET, QUIET, QUIET]
  }

  predicate RepeatsAt(sink: Sink, n: nat, r: nat)
    requires n <= MAX_LANE_CNT
  {
    SameAsked(LevelsAt(sink, AllQuiet(), n, r), sink(r), n)
  }

  /** How many of the first `r` rounds reached a maximum. */
  function Maxima(sink: Sink, n: nat, r: nat): nat {
    if r == 0 then 0 else Maxima(sink, n, r - 1) + if MaxAsked(sink(r - 1), n) then 1 else 0
  }

  /** Repeated requests since the last that asked for something new, rounds at a maximum apart. */
  function Repeats(sink: Sink, n: nat, r: nat): nat
    requires n <= MAX_LANE_CNT
  {
    if r == 0 then 0
    else if MaxAsked(sink(r - 1), n) then Repeats(sink, n, r - 1)
    else if RepeatsAt(sink, n, r - 1) then Repeats(sink, n, r - 1) + 1
    else 0
  }

  /** A round without lock after which clock recovery gives up. */
  predicate GivesUp(sink: Sink, n: nat, r: nat)
    requires n <= MAX_LANE_CNT
  {
    || (MaxAsked(sink(r), n) && Maxima(sink, n, r) >= 1)
    || Repeats(sink, n, r + 1) >= 5
    || r + 1 >= 10
  }

  /** The first `r` rounds neither lock nor give up. */
  predicate StillTrying(sink: Sink, n: nat, r: nat)
    requires n <= MAX_LANE_CNT
  {
    r == 0 || (StillTrying(sink, n, r - 1) && !sink(r - 1).crOk && !GivesUp(sink, n, r - 1))
  }

  predicate LocksAt(sink: Sink, n: nat, r: nat)
    requires n <= MAX_LANE_CNT
  {
    sink(r).crOk && StillTrying(sink, n, r)
  }

  ghost predicate CrPasses(sink: Sink, n: nat)
    requires n <= MAX_LANE_CNT
  {
    exists r: nat :: LocksAt(sink, n, r)
  }

  predicate EqualizesAt(sink: Sink, r: nat) {
    && r < 6
    && sink(r).crOk && sink(r).eqOk
    && forall j :: 0 <= j < r ==> sink(j).crOk && !sink(j).eqOk
  }

  ghost predicate EqPasses(sink: Sink) {
    exists r: nat :: EqualizesAt(sink, r)
  }

  /** Equalization told round by round: before the sixth round is over, the lock has to last until the lanes are
      equalized. */
  predicate EqualizesFrom(sink: Sink, r: nat)
    decreases 6 - r
  {
    r < 6 && sink(r).crOk && (sink(r).eqOk || EqualizesFrom(sink, r + 1))
  }

  lemma {:induction false} FirstEqualized(sink: Sink, r: nat)
    requires r <= 6 && forall j :: 0 <= j < r ==> sink(j).crOk && !sink(j).eqOk
    ensures EqPasses(sink) <==> EqualizesFrom(sink, r)
    decreases 6 - r
  {
    if r < 6 {
      if sink(r).crOk && sink(r).eqOk {
        assert EqualizesAt(sink, r);
      } else if sink(r).crOk {
        FirstEqualized(sink, r + 1);
      }
    }
  }

  /** Both tellings agree. */
  lemma EqPassesExactlyWhen(sink: Sink)
    ensures EqPasses(sink) <==> EqualizesFrom(sink, 0)
  {
    FirstEqualized(sink, 0);
  }

  lemma {:induction false} MaximaGrow(sink: Sink, n: nat, j: nat, r: nat)
    requires j < r && MaxAsked(sink(j), n)
    ensures Maxima(sink, n, r) >= 1
  {
    if j < r - 1 {
      MaximaGrow(sink, n, j, r - 1);
    }
  }

  lemma {:induction false} TryingThrough(sink: Sink, n: nat, j: nat, r: nat)
    requires n <= MAX_LANE_CNT && j < r && StillTrying(sink, n, r)
    ensures !sink(j).crOk && !GivesUp(sink, n, j)
  {
    if j < r - 1 {
      TryingThrough(sink, n, j, r - 1);
    }
  }

  lemma LockComesFirst(sink: Sink, n: nat, fatal: nat, r: nat)
    requires n <= MAX_LANE_CNT && GivesUp(sink, n, fatal) && !sink(fatal).crOk && LocksAt(sink, n, r)
    ensures r < fatal
  {
    if r > fatal {
      TryingThrough(sink, n, fatal, r);
    }
  }

  /** The second round that reaches a maximum level without lock is fatal, wherever the first was. */
  lemma SecondMaximumIsFatal(sink: Sink, n: nat, first: nat, second: nat)
    requires n <= MAX_LANE_CNT && first < second
    requires MaxAsked(sink(first), n) && MaxAsked(sink(second), n)
    ensures forall r: nat :: LocksAt(sink, n, r) ==> r < second
  {
    MaximaGrow(sink, n, first, second);
    forall r: nat | LocksAt(sink, n, r) ensures r < second {
      LockComesFirst(sink, n, second, r);
    }
  }

  /** Levels stay within range and carry the right bits in every round of both phases. */
  lemma {:induction false} LevelsKeepBits(sink: Sink, start: seq<Lane>, n: nat, r: nat)
    requires n <= |start| && BitsRight(start, n)
    ensures BitsRight(LevelsAt(sink, start, n, r), n)
  {
    if r > 0 {
      LevelsKeepBits(sink, start, n, r - 1);
    }
  }

  /** What a round asks of an active lane is what the next round drives, bits included. */
  lemma AskedIsDriven(sink: Sink, start: seq<Lane>, n: nat, r: nat, i: nat)
    requires n <= |start| && i < |start|
    ensures LevelsAt(sink, start, n, 0) == start
    ensures var l := LevelsAt(sink, start, n, r + 1)[i];
            if i < n then l.vol == sink(r).ask(i).vol && l.pre == sink(r).ask(i).pre
                          && (l.maxSwing <==> l.vol == 3) && (l.maxPre <==> l.pre == 3)
            else l == LevelsAt(sink, start, n, r)[i]
  {
  }

  /** A round repeats exactly if some active lane is asked for what it was asked for the round before, or for the
      lowest levels in the first round. */
  lemma RepeatsExactlyWhen(sink: Sink, n: nat, r: nat)
    requires n <= MAX_LANE_CNT
    ensures RepeatsAt(sink, n, r) <==>
            exists i :: 0 <= i < n && sink(r).ask(i) == if r == 0 then Request(0, 0) else sink(r - 1).ask(i)
  {
    var levels := LevelsAt(sink, AllQuiet(), n, r);
    forall i | 0 <= i < n
      ensures SameLane(levels[i], sink(r).ask(i)) <==>
              sink(r).ask(i) == if r == 0 then Request(0, 0) else sink(r - 1).ask(i)
    {
      if r > 0 {
        AskedIsDriven(sink, AllQuiet(), n, r - 1, i);
      }
    }
  }

  /** A maximum is reached exactly if some active lane is asked for level 3 of either kind. */
  lemma MaximumExactlyWhen(st: Status, n: nat)
    ensures MaxAsked(st, n) <==> !st.crOk && exists i :: 0 <= i < n && (st.ask(i).vol == 3 || st.ask(i).pre == 3)
  {
    if i :| 0 <= i < n && (st.ask(i).vol == 3 || st.ask(i).pre == 3) {
      assert AtMaximum(st.ask(i));
    }
    if i :| 0 <= i < n && AtMaximum(st.ask(i)) {
      assert st.ask(i).vol == 3 || st.ask(i).pre == 3;
    }
  }

  /** The count of maxima, as far as it matters. */
  lemma {:induction false} MaximaMean(sink: Sink, n: nat, r: nat)
    ensures Maxima(sink, n, r) >= 1 <==> exists j :: 0 <= j < r && MaxAsked(sink(j), n)
    ensures Maxima(sink, n, r) >= 2 <==> exists i, j :: 0 <= i < j < r && MaxAsked(sink(i), n) && MaxAsked(sink(j), n)
  {
    if r > 0 {
      MaximaMean(sink, n, r - 1);
    }
  }

  /** Neither a repeat nor a maximum. */
  predicate AsksAnew(sink: Sink, n: nat, r: nat)
    requires n <= MAX_LANE_CNT
  {
    !MaxAsked(sink(r), n) && !RepeatsAt(sink, n, r)
  }

  /** The rounds from `k` to before `r` that are not at a maximum. */
  function OffMaximum(sink: Sink, n: nat, k: nat, r: nat): set<nat> {
    set j: nat | k <= j < r && !MaxAsked(sink(j), n)
  }

  lemma OffMaximumStep(sink: Sink, n: nat, k: nat, r: nat)
    requires k <= r
    ensures OffMaximum(sink, n, k, k) == {}
    ensures |OffMaximum(sink, n, k, r + 1)| == |OffMaximum(sink, n, k, r)| + if MaxAsked(sink(r), n) then 0 else 1
  {
    var before, after := OffMaximum(sink, n, k, r), OffMaximum(sink, n, k, r + 1);
    assert after == if MaxAsked(sink(r), n) then before else before + {r};
  }

  /** No round from `k` to before `r` asks for something new. */
  predicate NothingNew(sink: Sink, n: nat, k: nat, r: nat)
    requires n <= MAX_LANE_CNT && k <= r
    decreases r
  {
    r == k || (NothingNew(sink, n, k, r - 1) && !AsksAnew(sink, n, r - 1))
  }

  lemma RepeatsAfter(sink: Sink, n: nat, r: nat)
    requires n <= MAX_LANE_CNT
    ensures r == 0 ==> Repeats(sink, n, r) == 0
    ensures r > 0 && AsksAnew(sink, n, r - 1) ==> Repeats(sink, n, r) == 0
    ensures r > 0 && !AsksAnew(sink, n, r - 1) ==>
              Repeats(sink, n, r) == Repeats(sink, n, r - 1) + if MaxAsked(sink(r - 1), n) then 0 else 1
  {
  }

  lemma RepeatsCountStart(sink: Sink, n: nat, k: nat)
    requires n <= MAX_LANE_CNT && (k == 0 || AsksAnew(sink, n, k - 1))
    ensures Repeats(sink, n, k) == |OffMaximum(sink, n, k, k)|
  {
    OffMaximumStep(sink, n, k, k);
    RepeatsAfter(sink, n, k);
  }

  lemma RepeatsCountStep(sink: Sink, n: nat, k: nat, r: nat)
    requires n <= MAX_LANE_CNT && k <= r && !AsksAnew(sink, n, r)
    requires Repeats(sink, n, r) == |OffMaximum(sink, n, k, r)|
    ensures Repeats(sink, n, r + 1) == |OffMaximum(sink, n, k, r + 1)|
  {
    OffMaximumStep(sink, n, k, r);
    RepeatsAfter(sink, n, r + 1);
  }

  /** The count of repeats: the rounds off the maximum since the last that asked for something new. */
  lemma {:induction false} RepeatsCount(sink: Sink, n: nat, k: nat, r: nat)
    requires n <= MAX_LANE_CNT && k <= r
    requires k == 0 || AsksAnew(sink, n, k - 1)
    requires NothingNew(sink, n, k, r)
    ensures Repeats(sink, n, r) == |OffMaximum(sink, n, k, r)|
    decreases r
  {
    if r == k {
      RepeatsCountStart(sink, n, k);
    } else {
      RepeatsCount(sink, n, k, r - 1);
      RepeatsCountStep(sink, n, k, r - 1);
    }
  }

  /** No lock in round `j`, and fewer than five repeats after it. */
  predicate StillOpen(sink: Sink, n: nat, j: nat)
    requires n <= MAX_LANE_CNT
  {
    !sink(j).crOk && Repeats(sink, n, j + 1) < 5
  }

  lemma {:induction false} TryingExactlyWhen(sink: Sink, n: nat, r: nat)
    requires n <= MAX_LANE_CNT
    ensures StillTrying(sink, n, r) <==>
            r < 10 && Maxima(sink, n, r) <= 1 && forall j :: 0 <= j < r ==> StillOpen(sink, n, j)
  {
    if r > 0 {
      TryingExactlyWhen(sink, n, r - 1);
      if Maxima(sink, n, r - 1) <= 1 {
        TryingStep(sink, n, r - 1);
      }
    }
  }

  lemma TryingStep(sink: Sink, n: nat, r: nat)
    requires n <= MAX_LANE_CNT && Maxima(sink, n, r) <= 1
    ensures !sink(r).crOk && !GivesUp(sink, n, r) <==>
            StillOpen(sink, n, r) && r + 1 < 10 && Maxima(sink, n, r + 1) <= 1
  {
  }

  /** Clock recovery locks in round `r` exactly if this is the first lock, among the first ten rounds, with at most
      one maximum before it and never five repeats. */
  lemma LocksExactlyWhen(sink: Sink, n: nat, r: nat)
    requires n <= MAX_LANE_CNT
    ensures LocksAt(sink, n, r) <==>
            && sink(r).crOk && r < 10
            && (forall i, j :: 0 <= i < j < r ==> !(MaxAsked(sink(i), n) && MaxAsked(sink(j), n)))
            && (forall j :: 0 <= j < r ==> StillOpen(sink, n, j))
  {
    TryingExactlyWhen(sink, n, r);
    MaximaMean(sink, n, r);
  }

  // ---------------------------------------------------------------------
  // Fallback order
  // ---------------------------------------------------------------------

  const RBR: nat := 162000
  const HBR: nat := 270000
  const HBR2: nat := 540000
  const HBR3: nat := 810000

  datatype Pair = Pair(lanes: nat, rate: nat)

  function BwCode(rate: nat): nat { rate / 27000 }

  function LinkRate(code: nat): nat { code * 27000 }

  predicate StandardRate(rate: nat) {
    rate == RBR || rate == HBR || rate == HBR2 || rate == HBR3
  }

  predicate StandardLanes(lanes: nat) {
    lanes == 1 || lanes == 2 || lanes == 4
  }

  predicate Standard(p: Pair) {
    StandardRate(p.rate) && StandardLanes(p.lanes)
  }

  function LowerRate(rate: nat): nat {
    match BwCode(rate)
    case 10 => LinkRate(6)
    case 20 => LinkRate(10)
    case 30 => LinkRate(20)
    case _ => rate
  }

  /** Where training goes after a failed attempt; the same pair means nowhere. */
  function Fallback(p: Pair, maxRate: nat): Pair {
    if BwCode(p.rate) != 6 then p.(rate := LowerRate(p.rate))
    else if p.lanes > 1 then Pair(p.lanes / 2, maxRate)
    else p
  }

  predicate Above(p: Pair, q: Pair) {
    p.lanes > q.lanes || (p.lanes == q.lanes && p.rate > q.rate)
  }

  /** A standard pair within the negotiated limits. */
  predicate Within(p: Pair, max: Pair) {
    Standard(p) && p.lanes <= max.lanes && p.rate <= max.rate
  }

  /** Position in the fallback order, for the bound on the number of attempts. */
  function Rank(p: Pair): nat
    requires Standard(p)
  {
    (if p.lanes == 4 then 8 else if p.lanes == 2 then 4 else 0)
    + (if p.rate == HBR3 then 3 else if p.rate == HBR2 then 2 else if p.rate == HBR then 1 else 0)
  }

  /** A fallback goes to the next lower pair within the limits, and stays put only at the lowest. */
  lemma FallbackIsNext(p: Pair, max: Pair)
    requires Standard(max) && Within(p, max)
    ensures var q := Fallback(p, max.rate);
            && Within(q, max)
            && (q != p ==> Above(p, q) && Rank(q) < Rank(p))
            && (forall x: Pair :: Within(x, max) && Above(p, x) ==> x == q || Above(q, x))
            && (q == p ==> forall x: Pair :: Within(x, max) ==> x == p || Above(x, p))
  {
  }

  /** The pairs attempted from `p` on while every attempt fails. */
  function Attempts(p: Pair, max: Pair): seq<Pair>
    requires Standard(max) && Within(p, max)
    decreases Rank(p)
  {
    FallbackIsNext(p, max);
    var q := Fallback(p, max.rate);
    if q == p then [p] else [p] + Attempts(q, max)
  }

  /** The attempts strictly decrease and leave out no pair at or below the first. */
  lemma {:induction false} AttemptsAreAllInOrder(p: Pair, max: Pair)
    requires Standard(max) && Within(p, max)
    ensures var a := Attempts(p, max);
            && a != [] && a[0] == p && |a| <= Rank(p) + 1
            && (forall i, j :: 0 <= i < j < |a| ==> Above(a[i], a[j]))
            && (forall x :: Within(x, max) && (x == p || Above(p, x)) <==> x in a)
    decreases Rank(p)
  {
    FallbackIsNext(p, max);
    var q := Fallback(p, max.rate);
    if q != p {
      AttemptsAreAllInOrder(q, max);
      var a, rest := Attempts(p, max), Attempts(q, max);
      assert a[1..] == rest;
      forall i, j | 0 <= i < j < |a| ensures Above(a[i], a[j]) {
        assert a[j] == rest[j - 1] && rest[j - 1] in rest;
        if i > 0 {
          assert a[i] == rest[i - 1];
        }
      }
      forall x ensures Within(x, max) && (x == p || Above(p, x)) <==> x in a {
        assert x in a <==> x == p || x in rest;
      }
    }
  }

  /** Why the rate is checked first: at a rate outside the table training would fall back to itself. */
  lemma FallbackStuckExactlyWhen(p: Pair, maxRate: nat)
    requires BwCode(p.rate) != 6
    ensures Fallback(p, maxRate) == p <==> BwCode(p.rate) != 10 && BwCode(p.rate) != 20 && BwCode(p.rate) != 30
  {
    assert BwCode(LinkRate(6)) == 6 && BwCode(LinkRate(10)) == 10 && BwCode(LinkRate(20)) == 20;
  }

  // ---------------------------------------------------------------------
  // Negotiation
  // ---------------------------------------------------------------------

  /** `dp_get_max_link_rate`: a host limited to the lowest rate is lifted for sinks with few lanes. */
  function MaxRate(hostRate: nat, sinkRate: nat, sinkLanes: nat): nat {
    if hostRate == RBR && sinkLanes < 4 then Min(HBR, sinkRate) else Min(hostRate, sinkRate)
  }

  function MaxLanes(hostLanes: nat, sinkLanes: nat): nat {
    Min(hostLanes, sinkLanes)
  }

  function Negotiated(host: Pair, sink: Pair): Pair {
    Pair(MaxLanes(host.lanes, sink.lanes), MaxRate(host.rate, sink.rate, sink.lanes))
  }

  /** The host's and the sink's capabilities bound the negotiated pair, except that a host rate of RBR
      counts as HBR for sinks with fewer than four lanes. */
  lemma NegotiatedIsStandard(host: Pair, sink: Pair)
    requires Standard(host) && Standard(sink)
    ensures var n := Negotiated(host, sink);
            && Standard(n) && n.rate <= sink.rate && n.lanes <= sink.lanes && n.lanes <= host.lanes
            && (n.rate > host.rate <==> host.rate == RBR && sink.lanes < 4 && sink.rate >= HBR)
  {
  }

  /** What both ends can do: no more lanes and no higher rate than either has, where a host limited to RBR counts
      as HBR if the sink has fewer than four lanes. */
  predicate Supported(host: Pair, sink: Pair, x: Pair) {
    && Standard(x) && x.lanes <= host.lanes && x.lanes <= sink.lanes && x.rate <= sink.rate
    && (x.rate <= host.rate || (host.rate == RBR && sink.lanes < 4 && x.rate <= HBR))
  }

  /** The negotiated pair is itself supported and as large as both ends allow. */
  lemma NegotiatedIsGreatest(host: Pair, sink: Pair)
    requires Standard(host) && Standard(sink)
    ensures Supported(host, sink, Negotiated(host, sink))
    ensures forall x: Pair :: Within(x, Negotiated(host, sink)) <==> Supported(host, sink, x)
  {
  }

  /** The rate codes of the standard rates are read back as these rates, and no other code gives one. */
  lemma RateCodes(code: nat)
    ensures BwCode(LinkRate(code)) == code
    ensures StandardRate(LinkRate(code)) <==> code == 6 || code == 10 || code == 20 || code == 30
    ensures LinkRate(6) == RBR && LinkRate(10) == HBR && LinkRate(20) == HBR2 && LinkRate(30) == HBR3
  {
  }

  // ---------------------------------------------------------------------
  // Whole trainings
  // ---------------------------------------------------------------------

  /** What happens when a pair is attempted. */
  datatype Trial = Trial(hwOk: bool, cr: Sink, eq: Sink)

  type Link = Pair -> Trial

  ghost predicate Passes(link: Link, p: Pair) {
    p.lanes <= MAX_LANE_CNT && link(p).hwOk && CrPasses(link(p).cr, p.lanes) && EqPasses(link(p).eq)
  }

  ghost predicate AllAboveFail(link: Link, max: Pair, p: Pair) {
    forall x: Pair :: Within(x, max) && Above(x, p) ==> !Passes(link, x)
  }

  ghost predicate AllFail(link: Link, max: Pair) {
    forall x: Pair :: Within(x, max) ==> !Passes(link, x)
  }

  /** `dp_get_training_interval_us`: how long to wait in each round, from the sink's register field. */
  function TrainingIntervalUs(interval: nat): (us: nat)
    ensures us >= 400
  {
    if interval == 0 then 400
    else if interval < 5 then 4000 * Doubled(interval - 1)
    else 4000
  }

  /** The wait is never shorter than the standard's, 400 us for field 0 and so many times 4 ms for 1 to 4, and longer
      exactly for 3 and 4; any other field counts as 1. */
  lemma WaitsLongEnough(interval: nat)
    ensures interval == 0 ==> TrainingIntervalUs(interval) == 400
    ensures 0 < interval < 5 ==> TrainingIntervalUs(interval) >= 4000 * interval
    ensures 0 < interval < 5 ==> (TrainingIntervalUs(interval) == 4000 * interval <==> interval <= 2)
    ensures interval >= 5 ==> TrainingIntervalUs(interval) == TrainingIntervalUs(1)
  {
    assert Doubled(0) == 1 && Doubled(1) == 2 && Doubled(2) == 4 && Doubled(3) == 8;
  }

  function Doubled(n: nat): (r: nat)
    ensures r >= 1
  {
    if n == 0 then 1 else 2 * Doubled(n - 1)
  }

  /** A failed pair leaves only lower ones, or none. */
  lemma FailureGoesDown(link: Link, max: Pair, p: Pair)
    requires Standard(max) && Within(p, max) && AllAboveFail(link, max, p) && !Passes(link, p)
    ensures var q := Fallback(p, max.rate);
            && Within(q, max) && (q == p <==> BwCode(p.rate) == 6 && p.lanes == 1)
            && (q != p ==> Rank(q) < Rank(p) && AllAboveFail(link, max, q))
            && (q == p ==> AllFail(link, max))
  {
    FallbackIsNext(p, max);
    var q := Fallback(p, max.rate);
    forall x: Pair | q != p && Within(x, max) && Above(x, q) ensures !Passes(link, x) {
      assert Above(x, p) || x == p || Above(p, x);
    }
    forall x: Pair | q == p && Within(x, max) ensures !Passes(link, x) {
      assert x == p || Above(x, p);
    }
  }

  /** Why training ended. */
  datatype Outcome = Trained | Unplugged | Exhausted

  datatype Reply = Up | Deferred | IoError | Invalid | NoLink

  /** What the sink's capability registers say. */
  datatype Caps = Caps(readable: bool, revision: nat, rateCode: nat, lanes: nat, interval: nat, sinkCount: int,
                       branch: bool, ports: nat, portsReadable: bool)

  const REVISION_14 := 0x14

  /** The advertised rate, capped for sinks newer than the driver. */
  function SinkRate(c: Caps): nat {
    LinkRate(if c.revision > REVISION_14 && c.rateCode > 30 then 30 else c.rateCode)
  }

  /** A sink of a known revision has the rate it advertises, a newer one at most the highest known. */
  lemma AdvertisedRate(c: Caps)
    ensures c.revision <= 0x14 ==> SinkRate(c) == 27000 * c.rateCode
    ensures c.revision > 0x14 && 27000 * c.rateCode <= HBR3 ==> SinkRate(c) == 27000 * c.rateCode
    ensures c.revision > 0x14 && 27000 * c.rateCode > HBR3 ==> SinkRate(c) == HBR3
  {
  }

  function SinkPair(c: Caps): Pair {
    Pair(c.lanes, SinkRate(c))
  }

  /** Clock recovery is about to try round `r`: `tryMax` tells of an earlier maximum, `short` counts repeats. */
  predicate InRound(sink: Sink, n: nat, r: nat, tryMax: bool, short: nat)
    requires n <= MAX_LANE_CNT
  {
    r < 10 && StillTrying(sink, n, r) && (tryMax <==> Maxima(sink, n, r) >= 1) && short == Repeats(sink, n, r)
  }

  class Trainer {
    const levels: array<Lane>
    var pair: Pair

    constructor ()
      ensures fresh(levels) && levels.Length == MAX_LANE_CNT
    {
      levels := new Lane[MAX_LANE_CNT](_ => QUIET);
      pair := Pair(0, 0);
    }

    ghost predicate Valid()
      reads this
    {
      levels.Length == MAX_LANE_CNT
    }

    method ValidateLinkTraining(st: Status, n: nat) returns (crDone: bool, same: bool, maxReached: bool)
      requires Valid() && n <= MAX_LANE_CNT
      modifies levels
      ensures levels[..] == Adjust(old(levels[..]), st, n)
      ensures crDone == st.crOk
      ensures same == SameAsked(old(levels[..]), st, n)
      ensures maxReached == MaxAsked(st, n)
    {
      same, maxReached, crDone := false, false, st.crOk;
      for i := 0 to n
        invariant same == SameAsked(old(levels[..]), st, i)
        invariant maxReached == MaxAsked(st, i)
        invariant forall k :: 0 <= k < i ==> levels[k] == Adjusted(st.ask(k))
        invariant forall k :: i <= k < levels.Length ==> levels[k] == old(levels[k])
      {
        var before := Encode(levels[i]);
        EncodeKeepsLevels(levels[i]);
        levels[i] := Adjusted(st.ask(i));
        if PreField(before) == levels[i].pre && SwingField(before) == levels[i].vol {
          same := true;
        }
        if !crDone && (levels[i].maxSwing || levels[i].maxPre) {
          maxReached := true;
        }
      }
    }

    method ResetLevels()
      requires Valid()
      modifies levels
      ensures levels[..] == AllQuiet()
    {
      for i := 0 to MAX_LANE_CNT
        invariant forall k :: 0 <= k < i ==> levels[k] == QUIET
      {
        levels[i] := QUIET;
      }
    }

    /** Round `r` of clock recovery. It ends in a lock, in failure of the whole phase, or with another round to come. */
    method CrRound(sink: Sink, n: nat, r: nat, tryMax: bool, short: nat)
      returns (crDone: bool, giveUp: bool, tryMax': bool, short': nat)
      requires Valid() && n <= MAX_LANE_CNT && levels[..] == LevelsAt(sink, AllQuiet(), n, r)
      requires InRound(sink, n, r, tryMax, short)
      modifies levels
      ensures levels[..] == LevelsAt(sink, AllQuiet(), n, r + 1)
      ensures crDone ==> !giveUp && LocksAt(sink, n, r)
      ensures giveUp ==> !CrPasses(sink, n)
      ensures !crDone && !giveUp ==> InRound(sink, n, r + 1, tryMax', short')
    {
      RoundVerdict(sink, n, r);
      var same, maxReached;
      crDone, same, maxReached := ValidateLinkTraining(sink(r), n);
      tryMax', short', giveUp := tryMax, short, false;
      if crDone {
        return;
      }
      if maxReached {
        if tryMax {
          giveUp := true;
          return;
        }
        tryMax' := true;
      } else if same {
        short' := short + 1;
      } else {
        short' := 0;
      }
      giveUp := !(short' < 5 && r + 1 < 10);
    }

    /** The rounds of clock recovery. */
    method CrRounds(sink: Sink, n: nat) returns (ok: bool, rounds: nat)
      requires Valid() && n <= MAX_LANE_CNT && levels[..] == AllQuiet()
      modifies levels
      ensures ok ==> rounds > 0 && LocksAt(sink, n, rounds - 1)
      ensures !ok ==> !CrPasses(sink, n)
      ensures rounds <= 10 && levels[..] == LevelsAt(sink, AllQuiet(), n, rounds)
    {
      var tryMax, short := false, 0;
      rounds := 0;
      while true
        invariant levels[..] == LevelsAt(sink, AllQuiet(), n, rounds)
        invariant InRound(sink, n, rounds, tryMax, short)
        decreases 10 - rounds
      {
        var giveUp;
        ok, giveUp, tryMax, short := CrRound(sink, n, rounds, tryMax, short);
        rounds := rounds + 1;
        if ok || giveUp {
          return;
        }
      }
    }

    /** Clock recovery: at most ten rounds, and it passes exactly when a lock comes before it gives up. */
    method DoCr(hwOk: bool, sink: Sink, n: nat) returns (ok: bool, rounds: nat)
      requires Valid() && n <= MAX_LANE_CNT
      modifies levels
      ensures ok <==> hwOk && CrPasses(sink, n)
      ensures ok ==> rounds > 0 && LocksAt(sink, n, rounds - 1)
      ensures rounds <= 10 && levels[..] == LevelsAt(sink, AllQuiet(), n, rounds)
      ensures BitsRight(levels[..], n)
    {
      ResetLevels();
      if !hwOk {
        return false, 0;
      }
      ok, rounds := CrRounds(sink, n);
      LevelsKeepBits(sink, AllQuiet(), n, rounds);
    }

    /** Equalization: at most six rounds, and a lost lock ends it at once. */
    method DoEq(sink: Sink, n: nat) returns (ok: bool, rounds: nat)
      requires Valid() && n <= MAX_LANE_CNT && BitsRight(levels[..], n)
      modifies levels
      ensures ok <==> EqPasses(sink)
      ensures rounds <= 6 && levels[..] == LevelsAt(sink, old(levels[..]), n, rounds)
      ensures BitsRight(levels[..], n)
    {
      rounds := 0;
      ghost var start := levels[..];
      while rounds < 6
        invariant rounds <= 6 && levels[..] == LevelsAt(sink, start, n, rounds)
        invariant BitsRight(levels[..], n)
        invariant forall j :: 0 <= j < rounds ==> sink(j).crOk && !sink(j).eqOk
      {
        var crDone, _, _ := ValidateLinkTraining(sink(rounds), n);
        rounds := rounds + 1;
        LevelsKeepBits(sink, start, n, rounds);
        if crDone {
          if sink(rounds - 1).eqOk {
            assert EqualizesAt(sink, rounds - 1);
            return true, rounds;
          }
        } else {
          return false, rounds;
        }
      }
      return false, rounds;
    }

    /** One attempt at the current pair. */
    method Attempt(link: Link) returns (ok: bool)
      requires Valid() && pair.lanes <= MAX_LANE_CNT
      modifies levels
      ensures ok <==> Passes(link, pair)
      ensures BitsRight(levels[..], pair.lanes)
    {
      var trial := link(pair);
      var locked, _ := DoCr(trial.hwOk, trial.cr, pair.lanes);
      if !locked {
        return false;
      }
      var equalized, _ := DoEq(trial.eq, pair.lanes);
      return equalized;
    }

    /** After a failed attempt: the lower rate, or half the lanes at the highest rate, or nothing. */
    method FallBack(maxRate: nat) returns (more: bool)
      requires Valid() && Standard(pair)
      modifies this`pair
      ensures pair == Fallback(old(pair), maxRate)
      ensures more <==> BwCode(old(pair).rate) != 6 || old(pair).lanes > 1
    {
      more := true;
      if BwCode(pair.rate) != 6 {
        pair := pair.(rate := LowerRate(pair.rate));
      } else if pair.lanes > 1 {
        pair := Pair(pair.lanes / 2, maxRate);
      } else {
        more := false;
      }
    }

    /** Full training: stops at the greatest pair within the limits that passes; gives up only when the
        sink is unplugged or no pair passes; attempts at most twelve. */
    method FullTraining(link: Link, unplugged: nat -> bool) returns (outcome: Outcome, attempts: nat)
      requires Valid() && Standard(pair)
      modifies this, levels
      ensures Valid() && Within(pair, old(pair)) && attempts <= 12
      ensures outcome == Trained ==> Passes(link, pair) && BitsRight(levels[..], pair.lanes)
      ensures outcome == Unplugged ==> unplugged(attempts)
      ensures outcome == Trained || outcome == Unplugged ==> AllAboveFail(link, old(pair), pair)
      ensures outcome == Exhausted ==> AllFail(link, old(pair))
    {
      ghost var max := pair;
      var maxRate := pair.rate;
      attempts := 0;
      while true
        invariant Valid() && Within(pair, max) && AllAboveFail(link, max, pair)
        invariant attempts + Rank(pair) <= 11
        decreases Rank(pair)
      {
        if unplugged(attempts) {
          return Unplugged, attempts;
        }
        var ok := Attempt(link);
        attempts := attempts + 1;
        if ok {
          return Trained, attempts;
        }
        FailureGoesDown(link, max, pair);
        var more := FallBack(maxRate);
        if !more {
          return Exhausted, attempts;
        }
      }
    }

    /** `dp_link_up` without the emulation mode: training only ever starts from a standard pair. */
    method LinkUp(host: Pair, c: Caps, link: Link, unplugged: nat -> bool) returns (reply: Reply)
      requires Valid() && Standard(host)
      modifies this, levels
      ensures Valid()
      ensures reply == IoError <==>
              || !c.readable
              || (StandardRate(SinkRate(c)) && StandardLanes(c.lanes)
                  && (c.sinkCount < 0 || (c.branch && !c.portsReadable)))
      ensures reply == Invalid <==>
              && c.readable
              && (|| !StandardRate(SinkRate(c)) || !StandardLanes(c.lanes)
                  || (c.sinkCount >= 0
                      && if c.branch then c.portsReadable && c.sinkCount > c.ports else c.sinkCount != 1))
      ensures reply == Deferred <==>
              && c.readable && StandardRate(SinkRate(c)) && StandardLanes(c.lanes)
              && c.branch && c.portsReadable && c.sinkCount == 0
      ensures reply == IoError || reply == Invalid || reply == Deferred ==> pair == old(pair)
      ensures reply == Up ==>
                && Passes(link, pair) && Supported(host, SinkPair(c), pair)
                && forall x: Pair :: Supported(host, SinkPair(c), x) && Above(x, pair) ==> !Passes(link, x)
      ensures reply == NoLink && (forall i :: !unplugged(i)) ==>
                forall x: Pair :: Supported(host, SinkPair(c), x) ==> !Passes(link, x)
    {
      if !c.readable {
        return IoError;
      }
      if !StandardRate(SinkRate(c)) {
        return Invalid;
      }
      if !StandardLanes(c.lanes) {
        return Invalid;
      }
      if c.sinkCount < 0 {
        return IoError;
      }
      if c.branch {
        if !c.portsReadable {
          return IoError;
        }
        if c.sinkCount > c.ports {
          return Invalid;
        }
      } else if c.sinkCount != 1 {
        return Invalid;
      }
      if c.sinkCount == 0 {
        return Deferred;
      }
      NegotiatedIsStandard(host, SinkPair(c));
      NegotiatedIsGreatest(host, SinkPair(c));
      pair := Negotiated(host, SinkPair(c));
      // the interval is never zero, so this never gives up
      if TrainingIntervalUs(c.interval) == 0 {
        return NoLink;
      }
      var outcome, _ := FullTraining(link, unplugged);
      reply := if outcome == Trained then Up else NoLink;
    }
  }

  /** No later round can lock once one has given up without lock. */
  lemma NoLockAfter(sink: Sink, n: nat, r: nat)
    requires n <= MAX_LANE_CNT && StillTrying(sink, n, r) && !sink(r).crOk && GivesUp(sink, n, r)
    ensures !CrPasses(sink, n)
  {
    forall k: nat ensures !LocksAt(sink, n, k) {
      if LocksAt(sink, n, k) {
        LockComesFirst(sink, n, r, k);
        TryingThrough(sink, n, k, r);
      }
    }
  }

  lemma RoundVerdict(sink: Sink, n: nat, r: nat)
    requires n <= MAX_LANE_CNT && StillTrying(sink, n, r) && r < 10
    ensures sink(r).crOk ==> LocksAt(sink, n, r)
    ensures !sink(r).crOk && GivesUp(sink, n, r) ==> !CrPasses(sink, n)
    ensures !sink(r).crOk && !GivesUp(sink, n, r) ==> StillTrying(sink, n, r + 1) && r + 1 < 10
  {
    if !sink(r).crOk && GivesUp(sink, n, r) {
      NoLockAfter(sink, n, r);
    }
  }
}
