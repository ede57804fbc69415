/**
 The histogram machine of the display quality engine: requests wait in a list
 until a frame is done, or are answered at once from an idle display or from bins
 cached before hibernation.

 Bins are opaque values; what the hardware would read out is a parameter.
 */
module Histogram {
  import opened PendingEvents

  datatype RunState = Disabled | Hibernation | PendingFramedone | Idle

  /** One channel: whether its state is other than off, the run state, cached bins, the applied user
      handle (0 for none), whether an internal callback watches it, and the applied configuration. */
  datatype Chan = Chan(on: bool, run: RunState, bins: Bins, userHandle: nat, callback: bool, config: nat)

  datatype State = State(
    chans: seq<Chan>,
    ledger: Ledger,
    queryFillsCache: bool)        // one SoC reads an idle channel through the cache

  // ---------------------------------------------------------------------
  // Requests and channels
  // ---------------------------------------------------------------------

  function Settle(s: State, i: nat, fate: Fate): State
    requires i < |s.ledger.pending|
  {
    s.(ledger := Settled(s.ledger, i, fate))
  }

  function Accept(s: State, e: Event): State {
    s.(ledger := Accepted(s.ledger, e))
  }

  function WithChan(s: State, h: nat, c: Chan): State
    requires h < |s.chans|
  {
    s.(chans := s.chans[h := c])
  }

  // ---------------------------------------------------------------------
  // Operations
  // ---------------------------------------------------------------------

  /** Answers the newest request on channel `h` at once if it can be. */
  function Query(s: State, h: nat, hw: Bins): State
    requires h < |s.chans| && |s.ledger.pending| > 0
  {
    var last := |s.ledger.pending| - 1;
    match s.chans[h].run
    case Hibernation => Settle(s, last, Answered(s.chans[h].bins))
    case Idle =>
      var t := if s.queryFillsCache then WithChan(s, h, s.chans[h].(bins := hw)) else s;
      Settle(t, last, Answered(hw))
    case _ => s
  }

  predicate Taken(s: State, hist: nat, handle: nat) {
    Find(s.ledger.pending, hist, |s.chans|, handle) < |s.ledger.pending|
  }

  function ChannelRequested(s: State, h: nat, hw: Bins): State {
    if h >= |s.chans| || Taken(s, h, 0) then s
    else Query(Accept(s, ChannelEvent(|s.ledger.fates|, h)), h, hw)
  }

  /** The first channel with this user handle applied, or the number of channels. */
  function ChanOf(chans: seq<Chan>, handle: nat): (r: nat)
    ensures r <= |chans|
    ensures r < |chans| ==> chans[r].userHandle == handle
    ensures forall i :: 0 <= i < r ==> chans[i].userHandle != handle
  {
    if |chans| == 0 || chans[0].userHandle == handle then 0
    else
      var r := ChanOf(chans[1..], handle);
      assert forall i :: 0 < i < r + 1 ==> chans[i] == chans[1..][i - 1];
      1 + r
  }

  function ContextRequested(s: State, handle: nat, hw: Bins): State {
    if handle == 0 || Taken(s, |s.chans|, handle) then s
    else
      var t := Accept(s, ContextEvent(|s.ledger.fates|, handle));
      var h := ChanOf(s.chans, handle);
      if h < |s.chans| then Query(t, h, hw) else t
  }

  function OneCancelled(s: State, hist: nat, handle: nat): State {
    var i := Find(s.ledger.pending, hist, |s.chans|, handle);
    if i < |s.ledger.pending| then Settle(s, i, Cancelled) else s
  }

  function AllCancelled(s: State): State
    decreases |s.ledger.pending|
  {
    if |s.ledger.pending| == 0 then s else AllCancelled(Settle(s, 0, Cancelled))
  }

  function ChannelCancelled(s: State, h: nat): State {
    if h >= |s.chans| then s else OneCancelled(s, h, 0)
  }

  function ContextCancelled(s: State, handle: nat): State {
    if handle == 0 then AllCancelled(s) else OneCancelled(s, |s.chans|, handle)
  }

  function EventHandled(s: State, h: nat, hw: Bins, force: bool): State
    requires h < |s.chans|
  {
    var i := Find(s.ledger.pending, h, |s.chans|, s.chans[h].userHandle);
    if i == |s.ledger.pending| && !s.chans[h].callback && !force then s
    else
      var t := WithChan(s, h, s.chans[h].(bins := hw));
      if i < |s.ledger.pending| then Settle(t, i, Answered(hw)) else t
  }

  function WithRun(s: State, h: nat, run: RunState): State
    requires h < |s.chans|
  {
    WithChan(s, h, s.chans[h].(run := run))
  }

  function FrameDoneAt(s: State, h: nat, hw: Bins, quiet: bool): State
    requires h < |s.chans|
  {
    if s.chans[h].run == Disabled then s
    else WithRun(EventHandled(s, h, hw, false), h, if quiet then Idle else PendingFramedone)
  }

  /** `quiet`: no frame pending, and not in video mode. */
  function FrameDone(s: State, hw: nat -> Bins, quiet: bool, k: nat): (t: State)
    requires k <= |s.chans|
    ensures |t.chans| == |s.chans|
  {
    if k == 0 then s else FrameDoneAt(FrameDone(s, hw, quiet, k - 1), k - 1, hw(k - 1), quiet)
  }

  function FlipDoneAt(s: State, h: nat, blob: nat): State
    requires h < |s.chans|
  {
    var c := s.chans[h];
    var run := if c.on then PendingFramedone else if c.run != Hibernation then Disabled else c.run;
    WithChan(s, h, c.(run := run, userHandle := blob))
  }

  function Flipped(s: State, blobs: nat -> nat, k: nat): (t: State)
    requires k <= |s.chans|
    ensures |t.chans| == |s.chans|
  {
    if k == 0 then s else FlipDoneAt(Flipped(s, blobs, k - 1), k - 1, blobs(k - 1))
  }

  /** A commit applies `config` to channel `h`; `measures` says whether it turns the channel on. */
  function ChannelUpdated(s: State, h: nat, config: nat, measures: bool): State {
    if h >= |s.chans| then s
    else
      var c := s.chans[h];
      var d := if c.config == config then c
               else c.(config := config, callback := false, on := config != 0 && measures);
      WithChan(s, h, if c.config != config || d.on then d.(run := PendingFramedone) else d)
  }

  function HibernatedAt(s: State, h: nat, hw: Bins, idle: bool): State
    requires h < |s.chans|
  {
    match s.chans[h].run
    case Idle => WithChan(s, h, s.chans[h].(bins := hw, run := Hibernation))
    case PendingFramedone =>
      if idle then WithRun(EventHandled(s, h, hw, true), h, Hibernation) else WithRun(s, h, Disabled)
    case _ => s
  }

  function HibernatedUpTo(s: State, hw: nat -> Bins, idle: bool, k: nat): (t: State)
    requires k <= |s.chans|
    ensures |t.chans| == |s.chans|
  {
    if k == 0 then s else HibernatedAt(HibernatedUpTo(s, hw, idle, k - 1), k - 1, hw(k - 1), idle)
  }

  function Hibernated(s: State, enabled: bool, hw: nat -> Bins, idle: bool): State {
    if enabled then HibernatedUpTo(s, hw, idle, |s.chans|) else s
  }

  function ResetAt(s: State, h: nat): State
    requires h < |s.chans|
  {
    var c := s.chans[h].(config := 0, on := false);
    WithChan(s, h, if c.run == Hibernation then c else c.(run := Disabled, userHandle := 0))
  }

  function ResetUpTo(s: State, k: nat): (t: State)
    requires k <= |s.chans|
    ensures |t.chans| == |s.chans|
  {
    if k == 0 then s else ResetAt(ResetUpTo(s, k - 1), k - 1)
  }

  // ---------------------------------------------------------------------
  // One fate per request
  // ---------------------------------------------------------------------

  /** The requests are accounted for. */
  predicate Inv(s: State) {
    Accounted(s.ledger, |s.chans|)
  }

  /** `t` is accounted for and changes no fate decided in `s`. */
  predicate Onward(s: State, t: State) {
    |t.chans| == |s.chans| && Accounted(t.ledger, |t.chans|) && Extends(s.ledger, t.ledger)
  }

  lemma OnwardTrans(s: State, t: State, u: State)
    requires Onward(s, t) && Onward(t, u)
    ensures Onward(s, u)
  {
    ExtendsTrans(s.ledger, t.ledger, u.ledger);
  }

  lemma SettleOnward(s: State, i: nat, fate: Fate)
    requires Inv(s) && i < |s.ledger.pending| && fate != Waiting
    ensures Onward(s, Settle(s, i, fate))
  {
    SettleKeeps(s.ledger, |s.chans|, i, fate);
  }

  lemma WithChanKeeps(s: State, h: nat, c: Chan)
    requires Inv(s) && h < |s.chans|
    ensures Onward(s, WithChan(s, h, c))
  {
    assert |WithChan(s, h, c).chans| == |s.chans|;
  }

  /** A change of a channel followed by the answer to a request. */
  lemma AnswerKeeps(s: State, h: nat, c: Chan, i: nat, bins: Bins)
    requires Inv(s) && h < |s.chans| && i < |s.ledger.pending|
    ensures var t := Settle(WithChan(s, h, c), i, Answered(bins)); Onward(s, t)
  {
    var u := WithChan(s, h, c);
    WithChanKeeps(s, h, c);
    SettleOnward(u, i, Answered(bins));
    OnwardTrans(s, u, Settle(u, i, Answered(bins)));
  }

  lemma QueryKeeps(s: State, h: nat, hw: Bins)
    requires Inv(s) && h < |s.chans| && |s.ledger.pending| > 0
    ensures Onward(s, Query(s, h, hw))
  {
    var last := |s.ledger.pending| - 1;
    if s.chans[h].run == Hibernation {
      SettleOnward(s, last, Answered(s.chans[h].bins));
    } else if s.chans[h].run == Idle {
      if s.queryFillsCache {
        AnswerKeeps(s, h, s.chans[h].(bins := hw), last, hw);
      } else {
        SettleOnward(s, last, Answered(hw));
      }
    }
  }

  lemma EventHandledKeeps(s: State, h: nat, hw: Bins, force: bool)
    requires Inv(s) && h < |s.chans|
    ensures Onward(s, EventHandled(s, h, hw, force))
  {
    var i := Find(s.ledger.pending, h, |s.chans|, s.chans[h].userHandle);
    var c := s.chans[h].(bins := hw);
    WithChanKeeps(s, h, c);
    if i < |s.ledger.pending| {
      AnswerKeeps(s, h, c, i, hw);
    }
  }

  /** Handling the event of a channel and then setting its run state. */
  lemma HandledAndSetKeeps(s: State, h: nat, hw: Bins, force: bool, run: RunState)
    requires Inv(s) && h < |s.chans|
    ensures var t := WithRun(EventHandled(s, h, hw, force), h, run); Onward(s, t)
  {
    var u := EventHandled(s, h, hw, force);
    EventHandledKeeps(s, h, hw, force);
    WithChanKeeps(u, h, u.chans[h].(run := run));
    OnwardTrans(s, u, WithRun(u, h, run));
  }

  lemma HibernatedAtKeeps(s: State, h: nat, hw: Bins, idle: bool)
    requires Inv(s) && h < |s.chans|
    ensures Onward(s, HibernatedAt(s, h, hw, idle))
  {
    if s.chans[h].run == Idle {
      WithChanKeeps(s, h, s.chans[h].(bins := hw, run := Hibernation));
    } else if s.chans[h].run == PendingFramedone {
      HandledAndSetKeeps(s, h, hw, true, Hibernation);
      WithChanKeeps(s, h, s.chans[h].(run := Disabled));
    }
  }

  lemma {:induction false} AllCancelledKeeps(s: State)
    requires Inv(s)
    ensures Onward(s, AllCancelled(s)) && AllCancelled(s).ledger.pending == []
    decreases |s.ledger.pending|
  {
    if |s.ledger.pending| > 0 {
      SettleOnward(s, 0, Cancelled);
      AllCancelledKeeps(Settle(s, 0, Cancelled));
    }
  }

  lemma FrameDoneAtKeeps(s: State, h: nat, hw: Bins, quiet: bool)
    requires Inv(s) && h < |s.chans|
    ensures Onward(s, FrameDoneAt(s, h, hw, quiet))
  {
    if s.chans[h].run != Disabled {
      HandledAndSetKeeps(s, h, hw, false, if quiet then Idle else PendingFramedone);
    }
  }

  lemma FrameDoneStepKeeps(s: State, t: State, u: State, h: nat, hw: Bins, quiet: bool)
    requires Onward(s, t) && h < |t.chans| && u == FrameDoneAt(t, h, hw, quiet)
    ensures Onward(s, u)
  {
    FrameDoneAtKeeps(t, h, hw, quiet);
    OnwardTrans(s, t, u);
  }

  lemma {:induction false} FrameDoneKeeps(s: State, hw: nat -> Bins, quiet: bool, k: nat)
    requires Inv(s) && k <= |s.chans|
    ensures Onward(s, FrameDone(s, hw, quiet, k))
  {
    if k > 0 {
      var t := FrameDone(s, hw, quiet, k - 1);
      FrameDoneKeeps(s, hw, quiet, k - 1);
      FrameDoneStepKeeps(s, t, FrameDone(s, hw, quiet, k), k - 1, hw(k - 1), quiet);
    }
  }

  lemma {:induction false} HibernatedKeeps(s: State, hw: nat -> Bins, idle: bool, k: nat)
    requires Inv(s) && k <= |s.chans|
    ensures Onward(s, HibernatedUpTo(s, hw, idle, k))
  {
    if k > 0 {
      var t := HibernatedUpTo(s, hw, idle, k - 1);
      HibernatedKeeps(s, hw, idle, k - 1);
      HibernatedAtKeeps(t, k - 1, hw(k - 1), idle);
      OnwardTrans(s, t, HibernatedAt(t, k - 1, hw(k - 1), idle));
    }
  }

  lemma {:induction false} FlipDoneKeeps(s: State, blobs: nat -> nat, k: nat)
    requires k <= |s.chans|
    ensures Flipped(s, blobs, k).ledger == s.ledger
  {
    if k > 0 {
      FlipDoneKeeps(s, blobs, k - 1);
    }
  }

  lemma {:induction false} ResetKeeps(s: State, k: nat)
    requires k <= |s.chans|
    ensures ResetUpTo(s, k).ledger == s.ledger
  {
    if k > 0 {
      ResetKeeps(s, k - 1);
    }
  }

  // ---------------------------------------------------------------------
  // Runs
  // ---------------------------------------------------------------------

  datatype Action =
    | ChannelRequest(hist: nat, hw: Bins)
    | ChannelCancel(hist: nat)
    | ContextRequest(handle: nat, hw: Bins)
    | ContextCancel(handle: nat)
    | FrameDoneIrq(frame: nat -> Bins, quiet: bool)
    | Flip(blobs: nat -> nat)
    | Update(hist: nat, config: nat, measures: bool)
    | EnterHibernation(enabled: bool, frame: nat -> Bins, idle: bool)
    | Reset

  function Step(s: State, a: Action): State {
    match a
    case ChannelRequest(h, hw) => ChannelRequested(s, h, hw)
    case ChannelCancel(h) => ChannelCancelled(s, h)
    case ContextRequest(u, hw) => ContextRequested(s, u, hw)
    case ContextCancel(u) => ContextCancelled(s, u)
    case FrameDoneIrq(frame, quiet) => FrameDone(s, frame, quiet, |s.chans|)
    case Flip(blobs) => Flipped(s, blobs, |s.chans|)
    case Update(h, config, measures) => ChannelUpdated(s, h, config, measures)
    case EnterHibernation(enabled, frame, idle) => Hibernated(s, enabled, frame, idle)
    case Reset => ResetUpTo(s, |s.chans|)
  }

  lemma RequestKeeps(s: State, a: Action)
    requires Inv(s) && (a.ChannelRequest? || a.ContextRequest?)
    ensures Onward(s, Step(s, a))
  {
    match a
    case ChannelRequest(h, hw) =>
      if h < |s.chans| && !Taken(s, h, 0) {
        var e := ChannelEvent(|s.ledger.fates|, h);
        AcceptKeeps(s.ledger, |s.chans|, e, h, 0);
        QueryKeeps(Accept(s, e), h, hw);
      }
    case ContextRequest(u, hw) =>
      if u != 0 && !Taken(s, |s.chans|, u) {
        var e := ContextEvent(|s.ledger.fates|, u);
        AcceptKeeps(s.ledger, |s.chans|, e, |s.chans|, u);
        if ChanOf(s.chans, u) < |s.chans| {
          QueryKeeps(Accept(s, e), ChanOf(s.chans, u), hw);
        }
      }
  }

  lemma CancelKeeps(s: State, hist: nat, handle: nat)
    requires Inv(s)
    ensures Onward(s, OneCancelled(s, hist, handle))
  {
    var i := Find(s.ledger.pending, hist, |s.chans|, handle);
    if i < |s.ledger.pending| {
      SettleOnward(s, i, Cancelled);
    }
  }

  lemma StepKeeps(s: State, a: Action)
    requires Inv(s)
    ensures Onward(s, Step(s, a))
  {
    match a
    case ChannelRequest(_, _) => RequestKeeps(s, a);
    case ContextRequest(_, _) => RequestKeeps(s, a);
    case ChannelCancel(h) => CancelKeeps(s, h, 0);
    case ContextCancel(u) => AllCancelledKeeps(s); CancelKeeps(s, |s.chans|, u);
    case FrameDoneIrq(frame, quiet) => FrameDoneKeeps(s, frame, quiet, |s.chans|);
    case Flip(blobs) => FlipDoneKeeps(s, blobs, |s.chans|);
    case Update(_, _, _) =>
    case EnterHibernation(_, frame, idle) => HibernatedKeeps(s, frame, idle, |s.chans|);
    case Reset => ResetKeeps(s, |s.chans|);
  }

  function After(s: State, run: seq<Action>): State {
    if |run| == 0 then s else Step(After(s, run[..|run| - 1]), run[|run| - 1])
  }

  lemma OneMore(s: State, run: seq<Action>, a: Action)
    ensures After(s, []) == s && After(s, run + [a]) == Step(After(s, run), a)
  {
    assert (run + [a])[..|run|] == run;
  }

  /** Over every run each accepted request is pending, answered or cancelled, only one of these, and
      never changes once it is no longer pending. */
  lemma {:induction false} EveryRunAccounts(s: State, run: seq<Action>)
    requires Inv(s)
    ensures Onward(s, After(s, run))
  {
    if |run| > 0 {
      var t := After(s, run[..|run| - 1]);
      EveryRunAccounts(s, run[..|run| - 1]);
      StepKeeps(t, run[|run| - 1]);
      OnwardTrans(s, t, After(s, run));
    }
  }

  function Boot(n: nat, queryFillsCache: bool): State {
    State(seq(n, _ => Chan(false, Disabled, 0, 0, false, 0)), Ledger([], []), queryFillsCache)
  }

  lemma BootIsAccounted(n: nat, queryFillsCache: bool)
    ensures Inv(Boot(n, queryFillsCache))
  {
  }

  // ---------------------------------------------------------------------
  // What requests get
  // ---------------------------------------------------------------------

  /** A frame done on an active channel answers the first request waiting for it, and only that one, with
      what the hardware counted, which the channel then caches too. */
  lemma FrameDoneAnswersFirst(s: State, h: nat, hw: Bins, quiet: bool)
    requires Inv(s) && h < |s.chans| && s.chans[h].run != Disabled
    ensures var t := FrameDoneAt(s, h, hw, quiet);
            var i := Find(s.ledger.pending, h, |s.chans|, s.chans[h].userHandle);
            && t.chans[h].run == (if quiet then Idle else PendingFramedone)
            && (i < |s.ledger.pending| ==>
                  && t.ledger.pending == Without(s.ledger.pending, i)
                  && t.ledger.fates == s.ledger.fates[s.ledger.pending[i].id := Answered(hw)]
                  && t.chans[h].bins == hw)
            && (i == |s.ledger.pending| ==> t.ledger == s.ledger)
            && (forall k :: 0 <= k < |s.chans| && k != h ==> t.chans[k] == s.chans[k])
  {
  }

  // ---------------------------------------------------------------------
  // Who is answered when the channels are visited in turn
  // ---------------------------------------------------------------------

  /** Run states in which a frame done, and an entry into hibernation, looks for a request. */
  const FRAME_LIVE: set<RunState> := {Hibernation, PendingFramedone, Idle}
  const ENTRY_LIVE: set<RunState> := {PendingFramedone}

  /** Whether a request for channel `h` was listed before number `id`. */
  predicate AsksEarlier(s: State, h: nat, id: nat) {
    exists c :: c in s.ledger.pending && c.ChannelEvent? && c.hist == h && c.id < id
  }

  /** Whether channel `h` turns to the context request `x`: it is live, has the handle applied, and
      nobody asked for this very channel before. */
  predicate Turns(s: State, live: set<RunState>, x: Event, h: nat)
    requires x.ContextEvent? && h < |s.chans|
  {
    s.chans[h].run in live && s.chans[h].userHandle == x.handle && !AsksEarlier(s, h, x.id)
  }

  /** The first channel from `h` on that turns to `x`, or the number of channels. */
  function Taker(s: State, live: set<RunState>, x: Event, h: nat): (r: nat)
    requires x.ContextEvent? && h <= |s.chans|
    ensures h <= r <= |s.chans| && (r < |s.chans| ==> Turns(s, live, x, r))
    ensures forall g :: h <= g < r ==> !Turns(s, live, x, g)
    decreases |s.chans| - h
  {
    if h == |s.chans| || Turns(s, live, x, h) then h else Taker(s, live, x, h + 1)
  }

  /** Whether channel `h` is taken by a context request listed before number `id`. */
  predicate Busy(s: State, live: set<RunState>, h: nat, id: nat) {
    exists x :: x in s.ledger.pending && x.ContextEvent? && x.id < id && Taker(s, live, x, 0) == h
  }

  /** The channel whose bins answer the request, or the number of channels: a context request gets the first
      channel that turns to it, a channel request its own channel unless an older context request took it. */
  function Server(s: State, live: set<RunState>, e: Event): nat {
    match e
    case ContextEvent(_, _) => Taker(s, live, e, 0)
    case ChannelEvent(id, h) =>
      if h < |s.chans| && s.chans[h].run in live && !Busy(s, live, h, id) then h else |s.chans|
  }

  predicate Serves(s: State, live: set<RunState>, h: nat) {
    exists e :: e in s.ledger.pending && Server(s, live, e) == h
  }

  /** The first `k` channels of `s` have been visited: the requests they serve are answered with their bins, all
      others still wait. */
  ghost predicate Answers(s: State, t: State, hw: nat -> Bins, live: set<RunState>, k: nat) {
    && |t.chans| == |s.chans| && |t.ledger.fates| == |s.ledger.fates| && Inv(t)
    && (forall h :: k <= h < |s.chans| ==> t.chans[h] == s.chans[h])
    && (forall e :: e in t.ledger.pending <==> e in s.ledger.pending && Server(s, live, e) >= k)
    && (forall e :: e in s.ledger.pending && e.id < |s.ledger.fates| ==>
                      t.ledger.fates[e.id]
                      == if Server(s, live, e) < k then Answered(hw(Server(s, live, e))) else Waiting)
    && (forall id :: 0 <= id < |s.ledger.fates| && s.ledger.fates[id] != Waiting ==>
                       t.ledger.fates[id] == s.ledger.fates[id])
  }

  /** An event served by `h` asks for it. */
  lemma ServedMatches(s: State, live: set<RunState>, e: Event)
    requires Inv(s) && e in s.ledger.pending && Server(s, live, e) < |s.chans|
    ensures var h := Server(s, live, e);
            Matches(e, h, |s.chans|, s.chans[h].userHandle) && s.chans[h].run in live
  {
  }

  /** No two requests are served by one channel. */
  lemma OneServed(s: State, live: set<RunState>, d: Event, e: Event)
    requires Inv(s) && d in s.ledger.pending && e in s.ledger.pending
    requires Server(s, live, d) == Server(s, live, e) < |s.chans|
    ensures d == e
  {
    var i :| 0 <= i < |s.ledger.pending| && s.ledger.pending[i] == d;
    var j :| 0 <= j < |s.ledger.pending| && s.ledger.pending[j] == e;
    ServedMatches(s, live, d);
    ServedMatches(s, live, e);
    assert i == j;
  }

  /** A waiting match is not older than the first match. */
  lemma NotEarlier(t: State, c: Event, k: nat, u: nat)
    requires Inv(t) && c in t.ledger.pending && Matches(c, k, |t.chans|, u)
    ensures var i := Find(t.ledger.pending, k, |t.chans|, u);
            i < |t.ledger.pending| && t.ledger.pending[i].id <= c.id
  {
    var j :| 0 <= j < |t.ledger.pending| && t.ledger.pending[j] == c;
  }

  /** The first match in what the lower channels left is served by channel `k`. */
  lemma FirstMatchIsServed(s: State, t: State, hw: nat -> Bins, live: set<RunState>, k: nat)
    requires Inv(s) && k < |s.chans| && Answers(s, t, hw, live, k) && s.chans[k].run in live
    requires Find(t.ledger.pending, k, |s.chans|, s.chans[k].userHandle) < |t.ledger.pending|
    ensures var i := Find(t.ledger.pending, k, |s.chans|, s.chans[k].userHandle);
            Server(s, live, t.ledger.pending[i]) == k
  {
    var u := s.chans[k].userHandle;
    var i := Find(t.ledger.pending, k, |s.chans|, u);
    var e := t.ledger.pending[i];
    if e.ContextEvent? {
      forall c | c in s.ledger.pending && c.ChannelEvent? && c.hist == k ensures c.id >= e.id {
        NotEarlier(t, c, k, u);
      }
      assert Turns(s, live, e, k);
    } else {
      forall x | x in s.ledger.pending && x.ContextEvent? && Taker(s, live, x, 0) == k ensures x.id >= e.id {
        ServedMatches(s, live, x);
        NotEarlier(t, x, k, u);
      }
    }
  }

  /** When its turn comes, a channel that serves a request finds one. */
  lemma ServedIsFound(s: State, t: State, hw: nat -> Bins, live: set<RunState>, d: Event, k: nat)
    requires Inv(s) && k < |s.chans| && Answers(s, t, hw, live, k) && d in s.ledger.pending
    ensures Server(s, live, d) == k ==>
              && s.chans[k].run in live
              && Find(t.ledger.pending, k, |s.chans|, s.chans[k].userHandle) < |t.ledger.pending|
  {
    if Server(s, live, d) == k {
      ServedMatches(s, live, d);
      NotEarlier(t, d, k, s.chans[k].userHandle);
    }
  }

  /** A visited channel finds a request exactly if it serves one. */
  lemma FindsWhatItServes(s: State, t: State, hw: nat -> Bins, live: set<RunState>, k: nat)
    requires Inv(s) && k < |s.chans| && Answers(s, t, hw, live, k)
    ensures Serves(s, live, k) <==>
            && s.chans[k].run in live
            && Find(t.ledger.pending, k, |s.chans|, s.chans[k].userHandle) < |t.ledger.pending|
  {
    var i := Find(t.ledger.pending, k, |s.chans|, s.chans[k].userHandle);
    if s.chans[k].run in live && i < |t.ledger.pending| {
      FirstMatchIsServed(s, t, hw, live, k);
      assert t.ledger.pending[i] in s.ledger.pending;
    }
    forall d | d in s.ledger.pending
      ensures Server(s, live, d) == k ==> s.chans[k].run in live && i < |t.ledger.pending|
    {
      ServedIsFound(s, t, hw, live, d, k);
    }
  }

  lemma WithoutMembers(pending: seq<Event>, i: nat)
    requires i < |pending| && DistinctInOrder(pending)
    ensures forall e :: e in Without(pending, i) <==> e in pending && e != pending[i]
  {
    WithoutAt(pending, i);
    WithoutIsDistinct(pending, i);
    forall e | e in pending && e != pending[i] ensures e in Without(pending, i) {
      var j :| 0 <= j < |pending| && pending[j] == e;
      assert Without(pending, i)[if j < i then j else j - 1] == e;
    }
  }

  /** Channel `k` answers the request it serves. */
  lemma AnswersServing(s: State, t: State, v: State, hw: nat -> Bins, live: set<RunState>, k: nat)
    requires Inv(s) && k < |s.chans| && Answers(s, t, hw, live, k) && s.chans[k].run in live
    requires |v.chans| == |t.chans| && forall h :: 0 <= h < |t.chans| && h != k ==> v.chans[h] == t.chans[h]
    requires Find(t.ledger.pending, k, |s.chans|, s.chans[k].userHandle) < |t.ledger.pending|
    requires v.ledger == Settled(t.ledger, Find(t.ledger.pending, k, |s.chans|, s.chans[k].userHandle), Answered(hw(k)))
    ensures Answers(s, v, hw, live, k + 1)
  {
    var i := Find(t.ledger.pending, k, |s.chans|, s.chans[k].userHandle);
    FirstMatchIsServed(s, t, hw, live, k);
    var e := t.ledger.pending[i];
    SettleKeeps(t.ledger, |t.chans|, i, Answered(hw(k)));
    WithoutMembers(t.ledger.pending, i);
    forall d | d in s.ledger.pending && Server(s, live, d) == k ensures d == e {
      OneServed(s, live, d, e);
    }
  }

  /** Channel `k` serves nothing. */
  lemma AnswersNone(s: State, t: State, v: State, hw: nat -> Bins, live: set<RunState>, k: nat)
    requires Inv(s) && k < |s.chans| && Answers(s, t, hw, live, k)
    requires |v.chans| == |t.chans| && forall h :: 0 <= h < |t.chans| && h != k ==> v.chans[h] == t.chans[h]
    requires s.chans[k].run in live ==>
               Find(t.ledger.pending, k, |s.chans|, s.chans[k].userHandle) == |t.ledger.pending|
    requires v.ledger == t.ledger
    ensures Answers(s, v, hw, live, k + 1)
  {
    forall d | d in s.ledger.pending ensures Server(s, live, d) != k {
      ServedIsFound(s, t, hw, live, d, k);
    }
  }

  /** What handling an event does to the ledger. */
  lemma LedgerOfHandled(t: State, k: nat, hw: Bins, force: bool)
    requires k < |t.chans|
    ensures var i := Find(t.ledger.pending, k, |t.chans|, t.chans[k].userHandle);
            EventHandled(t, k, hw, force).ledger
            == if i < |t.ledger.pending| then Settled(t.ledger, i, Answered(hw)) else t.ledger
  {
  }

  /** Channel `k` handles its event, if it is live. */
  lemma AnswersStep(s: State, t: State, v: State, hw: nat -> Bins, live: set<RunState>, force: bool, k: nat)
    requires Inv(s) && 0 < k <= |s.chans| && Answers(s, t, hw, live, k - 1)
    requires |v.chans| == |t.chans| && forall h :: 0 <= h < |t.chans| && h != k - 1 ==> v.chans[h] == t.chans[h]
    requires v.ledger
          == if s.chans[k - 1].run in live then EventHandled(t, k - 1, hw(k - 1), force).ledger else t.ledger
    ensures Answers(s, v, hw, live, k)
  {
    var i := Find(t.ledger.pending, k - 1, |s.chans|, s.chans[k - 1].userHandle);
    LedgerOfHandled(t, k - 1, hw(k - 1), force);
    if s.chans[k - 1].run in live && i < |t.ledger.pending| {
      AnswersServing(s, t, v, hw, live, k - 1);
    } else {
      AnswersNone(s, t, v, hw, live, k - 1);
    }
  }

  lemma NothingAnswered(s: State, hw: nat -> Bins, live: set<RunState>)
    requires Inv(s)
    ensures Answers(s, s, hw, live, 0)
  {
  }

  /** `s.chans[h]` after a frame done. */
  function ChanDone(s: State, h: nat, hw: Bins, quiet: bool): Chan
    requires h < |s.chans|
  {
    var c := s.chans[h];
    if c.run == Disabled then c
    else c.(run := if quiet then Idle else PendingFramedone,
            bins := if c.callback || Serves(s, FRAME_LIVE, h) then hw else c.bins)
  }

  /** The first `k` channels have been handled in a frame done. */
  ghost predicate FrameHandled(s: State, t: State, hw: nat -> Bins, quiet: bool, k: nat) {
    && Answers(s, t, hw, FRAME_LIVE, k)
    && forall h :: 0 <= h < k && h < |s.chans| ==> t.chans[h] == ChanDone(s, h, hw(h), quiet)
  }

  /** What one visit of a frame done leaves in the channels and the ledger. */
  lemma FrameDoneVisits(s: State, t: State, hw: nat -> Bins, quiet: bool, k: nat)
    requires k < |s.chans| == |t.chans| && t.chans[k] == s.chans[k]
    requires Serves(s, FRAME_LIVE, k) <==>
             && s.chans[k].run in FRAME_LIVE
             && Find(t.ledger.pending, k, |s.chans|, s.chans[k].userHandle) < |t.ledger.pending|
    ensures var v := FrameDoneAt(t, k, hw(k), quiet);
            && v.chans == t.chans[k := ChanDone(s, k, hw(k), quiet)]
            && v.ledger == if s.chans[k].run in FRAME_LIVE then EventHandled(t, k, hw(k), false).ledger else t.ledger
  {
  }

  lemma FrameChannelStep(s: State, t: State, v: State, hw: nat -> Bins, quiet: bool, k: nat)
    requires Inv(s) && 0 < k <= |s.chans| && Answers(s, t, hw, FRAME_LIVE, k - 1)
    requires v == FrameDoneAt(t, k - 1, hw(k - 1), quiet)
    ensures v.chans == t.chans[k - 1 := ChanDone(s, k - 1, hw(k - 1), quiet)]
    ensures v.ledger == if s.chans[k - 1].run in FRAME_LIVE then EventHandled(t, k - 1, hw(k - 1), false).ledger
                        else t.ledger
  {
    FindsWhatItServes(s, t, hw, FRAME_LIVE, k - 1);
    FrameDoneVisits(s, t, hw, quiet, k - 1);
  }

  lemma FrameHandledStep(s: State, t: State, v: State, hw: nat -> Bins, quiet: bool, k: nat)
    requires Inv(s) && 0 < k <= |s.chans| && FrameHandled(s, t, hw, quiet, k - 1)
    requires v == FrameDoneAt(t, k - 1, hw(k - 1), quiet)
    ensures FrameHandled(s, v, hw, quiet, k)
  {
    FrameChannelStep(s, t, v, hw, quiet, k);
    AnswersStep(s, t, v, hw, FRAME_LIVE, false, k);
  }

  /** A frame done as a whole: a request by handle is answered by the first active channel with the handle
      that nobody asked for before, a request for a channel by its channel unless an older request by handle
      took it; the answer is what the hardware counted on that channel.  All others keep waiting. */
  lemma {:induction false} FrameDoneAnswers(s: State, hw: nat -> Bins, quiet: bool, k: nat)
    requires Inv(s) && k <= |s.chans|
    ensures FrameHandled(s, FrameDone(s, hw, quiet, k), hw, quiet, k)
  {
    if k == 0 {
      NothingAnswered(s, hw, FRAME_LIVE);
    } else {
      FrameDoneAnswers(s, hw, quiet, k - 1);
      FrameHandledStep(s, FrameDone(s, hw, quiet, k - 1), FrameDone(s, hw, quiet, k), hw, quiet, k);
    }
  }

  /** One visit of the entry into hibernation of an idle DECON, in the ledger. */
  lemma EntryVisits(s: State, hw: Bins, k: nat)
    requires k < |s.chans|
    ensures var v := HibernatedAt(s, k, hw, true);
            && |v.chans| == |s.chans| && (forall h :: 0 <= h < |s.chans| && h != k ==> v.chans[h] == s.chans[h])
            && v.ledger == if s.chans[k].run in ENTRY_LIVE then EventHandled(s, k, hw, true).ledger else s.ledger
  {
  }

  lemma {:induction false} EntryAnswersUpTo(s: State, hw: nat -> Bins, k: nat)
    requires Inv(s) && k <= |s.chans|
    ensures Answers(s, HibernatedUpTo(s, hw, true, k), hw, ENTRY_LIVE, k)
  {
    if k == 0 {
      NothingAnswered(s, hw, ENTRY_LIVE);
    } else {
      var t := HibernatedUpTo(s, hw, true, k - 1);
      EntryAnswersUpTo(s, hw, k - 1);
      EntryVisits(t, hw(k - 1), k - 1);
      AnswersStep(s, t, HibernatedUpTo(s, hw, true, k), hw, ENTRY_LIVE, true, k);
    }
  }

  lemma {:induction false} BusyEntryKeepsLedger(s: State, hw: nat -> Bins, k: nat)
    requires k <= |s.chans|
    ensures HibernatedUpTo(s, hw, false, k).ledger == s.ledger
  {
    if k > 0 {
      BusyEntryKeepsLedger(s, hw, k - 1);
    }
  }

  /** An entry into hibernation as a whole: on an enabled engine with the DECON idle, exactly the requests served by
      channels that wait for a frame are answered, with the bins read there; otherwise no request is. */
  lemma EntryAnswers(s: State, enabled: bool, hw: nat -> Bins, idle: bool)
    requires Inv(s)
    ensures enabled && idle ==> Answers(s, Hibernated(s, enabled, hw, idle), hw, ENTRY_LIVE, |s.chans|)
    ensures !(enabled && idle) ==> Hibernated(s, enabled, hw, idle).ledger == s.ledger
  {
    EntryAnswersUpTo(s, hw, |s.chans|);
    BusyEntryKeepsLedger(s, hw, |s.chans|);
  }

  /** A request on an idle channel is answered at once from the hardware. */
  lemma RequestWhenIdle(s: State, h: nat, hw: Bins)
    requires h < |s.chans| && !Taken(s, h, 0) && s.chans[h].run == Idle
    ensures var t := ChannelRequested(s, h, hw);
            && t.ledger == Ledger(s.ledger.pending, s.ledger.fates + [Answered(hw)])
            && t.chans[h].bins == (if s.queryFillsCache then hw else s.chans[h].bins)
            && t.chans[h].run == Idle && forall g :: 0 <= g < |s.chans| && g != h ==> t.chans[g] == s.chans[g]
  {
    var n := |s.ledger.pending|;
    assert (s.ledger.pending + [ChannelEvent(|s.ledger.fates|, h)])[..n] == s.ledger.pending;
  }

  /** A request left pending keeps its slot: the same request is refused until it is answered or cancelled. */
  lemma PendingRequestTakesSlot(s: State, h: nat, hw: Bins)
    requires Inv(s) && h < |s.chans| && !Taken(s, h, 0)
    requires s.chans[h].run == Disabled || s.chans[h].run == PendingFramedone
    ensures var t := ChannelRequested(s, h, hw);
            && Taken(t, h, 0) && ChannelRequested(t, h, hw) == t
            && t.ledger.fates == s.ledger.fates + [Waiting]
  {
    var t := ChannelRequested(s, h, hw);
    var last := |s.ledger.pending|;
    assert Matches(t.ledger.pending[last], h, |t.chans|, 0);
  }

  /** After a cancel nothing waits in the slot any more, and nothing but the cancelled request changed. */
  lemma CancelFreesSlot(s: State, hist: nat, handle: nat)
    requires Inv(s) && (handle == 0 || hist >= |s.chans|)
    ensures var t := OneCancelled(s, hist, handle);
            var i := Find(s.ledger.pending, hist, |s.chans|, handle);
            && !Taken(t, hist, handle) && t.chans == s.chans
            && (i < |s.ledger.pending| ==>
                  t.ledger.fates == s.ledger.fates[s.ledger.pending[i].id := Cancelled])
  {
    var pending := s.ledger.pending;
    var i := Find(pending, hist, |s.chans|, handle);
    if i < |pending| {
      var t := OneCancelled(s, hist, handle);
      WithoutAt(pending, i);
      forall k | 0 <= k < |t.ledger.pending| ensures !Matches(t.ledger.pending[k], hist, |s.chans|, handle) {
        var from := if k < i then k else k + 1;
        assert t.ledger.pending[k] == pending[from];
        assert !SameSlot(pending[if i < from then i else from], pending[if i < from then from else i]);
      }
    }
  }

  /** The two cancel calls: a channel's request, one handle's, or with handle 0 every request; a channel that does not
      exist has none. */
  lemma CancelsFreeTheirSlots(s: State, h: nat, handle: nat)
    requires Inv(s)
    ensures h < |s.chans| ==> !Taken(ChannelCancelled(s, h), h, 0)
    ensures h >= |s.chans| ==> ChannelCancelled(s, h) == s
    ensures h < |s.chans| && !Taken(s, h, 0) ==> ChannelCancelled(s, h) == s
    ensures handle != 0 ==> !Taken(ContextCancelled(s, handle), |s.chans|, handle)
    ensures handle != 0 && !Taken(s, |s.chans|, handle) ==> ContextCancelled(s, handle) == s
    ensures handle == 0 ==>
              var l := ContextCancelled(s, handle).ledger;
              && l.pending == [] && |l.fates| == |s.ledger.fates|
              && forall id :: 0 <= id < |l.fates| ==>
                                l.fates[id] == if s.ledger.fates[id] == Waiting then Cancelled else s.ledger.fates[id]
  {
    if h < |s.chans| {
      CancelFreesSlot(s, h, 0);
    }
    if handle != 0 {
      CancelFreesSlot(s, |s.chans|, handle);
    } else {
      AllCancelledFates(s);
    }
  }

  lemma {:induction false} AllCancelledFates(s: State)
    requires Inv(s)
    ensures var l := AllCancelled(s).ledger;
            && l.pending == [] && |l.fates| == |s.ledger.fates|
            && forall id :: 0 <= id < |l.fates| ==>
                              l.fates[id] == if s.ledger.fates[id] == Waiting then Cancelled else s.ledger.fates[id]
    decreases |s.ledger.pending|
  {
    if |s.ledger.pending| > 0 {
      SettleOnward(s, 0, Cancelled);
      AllCancelledFates(Settle(s, 0, Cancelled));
    } else {
      forall id | 0 <= id < |s.ledger.fates| ensures s.ledger.fates[id] != Waiting {
        assert !Listed(s.ledger.pending, id);
      }
    }
  }

  // ---------------------------------------------------------------------
  // Across hibernation
  // ---------------------------------------------------------------------

  /** No channel is waiting for a frame or readable from hardware. */
  predicate Asleep(s: State) {
    forall h :: 0 <= h < |s.chans| ==> s.chans[h].run == Disabled || s.chans[h].run == Hibernation
  }

  lemma {:induction false} HibernatedChannels(s: State, hw: nat -> Bins, idle: bool, k: nat)
    requires k <= |s.chans|
    ensures var t := HibernatedUpTo(s, hw, idle, k);
            && (forall h :: k <= h < |s.chans| ==> t.chans[h] == s.chans[h])
            && (forall h :: 0 <= h < k ==>
                              match s.chans[h].run
                              case Idle => t.chans[h] == s.chans[h].(run := Hibernation, bins := hw(h))
                              case PendingFramedone =>
                                t.chans[h] == if idle then s.chans[h].(run := Hibernation, bins := hw(h))
                                              else s.chans[h].(run := Disabled)
                              case _ => t.chans[h] == s.chans[h])
  {
    if k > 0 {
      HibernatedChannels(s, hw, idle, k - 1);
    }
  }

  /** Hibernation entry puts every channel to sleep exactly if the engine is enabled, or there was nothing
      to do; a channel that can still be read keeps its bins in the cache. */
  lemma AsleepExactlyWhen(s: State, enabled: bool, hw: nat -> Bins, idle: bool)
    ensures Asleep(Hibernated(s, enabled, hw, idle)) <==> enabled || Asleep(s)
    ensures forall h :: 0 <= h < |s.chans| && enabled && s.chans[h].run == Idle ==>
                          Hibernated(s, enabled, hw, idle).chans[h].run == Hibernation
                          && Hibernated(s, enabled, hw, idle).chans[h].bins == hw(h)
  {
    HibernatedChannels(s, hw, idle, |s.chans|);
  }

  /** What can happen until the next active commit: requests, cancels, resets, and the flip of a commit
      that skips the update after the channels have been reset. */
  predicate Quiet(s: State, a: Action) {
    match a
    case FrameDoneIrq(_, _) => false
    case Update(_, _, _) => false
    case EnterHibernation(_, _, _) => false
    case Flip(_) => forall h :: 0 <= h < |s.chans| ==> !s.chans[h].on
    case _ => true
  }

  predicate QuietRun(s: State, run: seq<Action>) {
    |run| == 0 || (QuietRun(s, run[..|run| - 1]) && Quiet(After(s, run[..|run| - 1]), run[|run| - 1]))
  }

  /** Every cached channel of `s` is cached in `t` with the same bins. */
  predicate CachesKept(s: State, t: State) {
    && |t.chans| == |s.chans|
    && forall h :: 0 <= h < |s.chans| && s.chans[h].run == Hibernation ==>
                     t.chans[h].run == Hibernation && t.chans[h].bins == s.chans[h].bins
  }

  /** A flip applies the user handles; channels that are on wait for a frame, others are disabled unless they
      hibernate. */
  lemma {:induction false} FlippedChannels(s: State, blobs: nat -> nat, k: nat)
    requires k <= |s.chans|
    ensures var t := Flipped(s, blobs, k);
            && (forall h :: k <= h < |s.chans| ==> t.chans[h] == s.chans[h])
            && (forall h :: 0 <= h < k ==>
                              && t.chans[h].userHandle == blobs(h)
                              && t.chans[h].on == s.chans[h].on && t.chans[h].config == s.chans[h].config
                              && t.chans[h].bins == s.chans[h].bins && t.chans[h].callback == s.chans[h].callback
                              && (s.chans[h].on <==> t.chans[h].run == PendingFramedone)
                              && (!s.chans[h].on && s.chans[h].run == Hibernation ==> t.chans[h].run == Hibernation)
                              && (!s.chans[h].on && s.chans[h].run != Hibernation ==> t.chans[h].run == Disabled))
  {
    if k > 0 {
      FlippedChannels(s, blobs, k - 1);
    }
  }

  lemma {:induction false} ResetChannels(s: State, k: nat)
    requires k <= |s.chans|
    ensures var t := ResetUpTo(s, k);
            && (forall h :: k <= h < |s.chans| ==> t.chans[h] == s.chans[h])
            && (forall h :: 0 <= h < k ==>
                              t.chans[h].run == (if s.chans[h].run == Hibernation then Hibernation else Disabled)
                              && t.chans[h].bins == s.chans[h].bins && !t.chans[h].on && t.chans[h].config == 0
                              && t.chans[h].userHandle
                                 == (if s.chans[h].run == Hibernation then s.chans[h].userHandle else 0))
  {
    if k > 0 {
      ResetChannels(s, k - 1);
    }
  }

  /** A changed configuration turns its channel on exactly if it asks for measuring, and forgets the callback; a channel
      left on or changed waits for the next frame; nothing else changes. */
  lemma UpdatedChannel(s: State, h: nat, config: nat, measures: bool)
    requires h < |s.chans|
    ensures var t := ChannelUpdated(s, h, config, measures);
            var changed := s.chans[h].config != config;
            && t.chans[h].config == config && t.ledger == s.ledger && |t.chans| == |s.chans|
            && (t.chans[h].on <==> if changed then config != 0 && measures else s.chans[h].on)
            && (t.chans[h].callback <==> !changed && s.chans[h].callback)
            && t.chans[h].run == (if changed || s.chans[h].on then PendingFramedone else s.chans[h].run)
            && t.chans[h].bins == s.chans[h].bins && t.chans[h].userHandle == s.chans[h].userHandle
            && forall g :: 0 <= g < |s.chans| && g != h ==> t.chans[g] == s.chans[g]
  {
  }

  lemma EmptyOrMember(pending: seq<Event>)
    ensures pending == [] || exists e :: e in pending
  {
    if pending != [] {
      assert pending[0] in pending;
    }
  }

  /** When the only request that waits is one for a live channel, visiting all channels answers it. */
  lemma LoneRequestIsAnswered(s: State, t: State, h: nat, id: nat, hw: nat -> Bins, live: set<RunState>)
    requires Inv(s) && h < |s.chans| && s.chans[h].run in live && s.ledger.pending == [ChannelEvent(id, h)]
    requires Answers(s, t, hw, live, |s.chans|)
    ensures id < |t.ledger.fates| && t.ledger.fates[id] == Answered(hw(h)) && t.ledger.pending == []
  {
    var e := ChannelEvent(id, h);
    assert s.ledger.pending[0] == e;
    assert e in s.ledger.pending && Server(s, live, e) == h;
    EmptyOrMember(t.ledger.pending);
  }

  lemma MeasuredRequestWaits(s: State, h: nat, config: nat, blobs: nat -> nat, hw: Bins)
    requires Inv(s) && s.ledger.pending == [] && h < |s.chans| && config != 0 && s.chans[h].config != config
    ensures var t := ChannelRequested(Flipped(ChannelUpdated(s, h, config, true), blobs, |s.chans|), h, hw);
            && Inv(t) && |t.chans| == |s.chans| && t.chans[h].run == PendingFramedone
            && t.ledger.pending == [ChannelEvent(|s.ledger.fates|, h)] && t.ledger.fates == s.ledger.fates + [Waiting]
  {
    var t1 := ChannelUpdated(s, h, config, true);
    FlippedChannels(t1, blobs, |s.chans|);
    FlipDoneKeeps(t1, blobs, |s.chans|);
    RequestKeeps(Flipped(t1, blobs, |s.chans|), ChannelRequest(h, hw));
  }

  /** From configuration to answer: a channel is configured to measure, the commit flips, somebody asks for the channel,
      and the next frame done answers with what the hardware counted. */
  lemma MeasuredRequestIsAnswered(s: State, h: nat, config: nat, blobs: nat -> nat, frame: nat -> Bins, hw: Bins,
                                  quiet: bool)
    requires Inv(s) && s.ledger.pending == [] && h < |s.chans| && config != 0 && s.chans[h].config != config
    ensures var t := ChannelRequested(Flipped(ChannelUpdated(s, h, config, true), blobs, |s.chans|), h, hw);
            var l := FrameDone(t, frame, quiet, |t.chans|).ledger;
            |l.fates| > |s.ledger.fates| && l.fates[|s.ledger.fates|] == Answered(frame(h)) && l.pending == []
  {
    var t := ChannelRequested(Flipped(ChannelUpdated(s, h, config, true), blobs, |s.chans|), h, hw);
    MeasuredRequestWaits(s, h, config, blobs, hw);
    FrameDoneAnswers(t, frame, quiet, |t.chans|);
    LoneRequestIsAnswered(t, FrameDone(t, frame, quiet, |t.chans|), h, |s.ledger.fates|, frame, FRAME_LIVE);
  }

  lemma {:induction false} AllCancelledChannels(s: State)
    ensures AllCancelled(s).chans == s.chans
    decreases |s.ledger.pending|
  {
    if |s.ledger.pending| > 0 {
      AllCancelledChannels(Settle(s, 0, Cancelled));
    }
  }

  lemma QuietStep(s: State, a: Action)
    requires Asleep(s) && Quiet(s, a)
    ensures Asleep(Step(s, a)) && CachesKept(s, Step(s, a))
  {
    match a
    case ChannelRequest(_, _) =>
    case ContextRequest(_, _) =>
    case ChannelCancel(_) =>
    case ContextCancel(_) => AllCancelledChannels(s);
    case Flip(blobs) => FlippedChannels(s, blobs, |s.chans|);
    case Reset => ResetChannels(s, |s.chans|);
  }

  /** Until the next active commit all channels stay asleep and every cache stays as it was. */
  lemma {:induction false} CacheSurvives(s: State, run: seq<Action>)
    requires Asleep(s) && QuietRun(s, run)
    ensures Asleep(After(s, run)) && CachesKept(s, After(s, run))
  {
    if |run| > 0 {
      CacheSurvives(s, run[..|run| - 1]);
      QuietStep(After(s, run[..|run| - 1]), run[|run| - 1]);
    }
  }

  /** What becomes of the newest request on a sleeping channel. */
  lemma QueryAsleep(s: State, h: nat, hw: Bins)
    requires h < |s.chans| && (s.chans[h].run == Disabled || s.chans[h].run == Hibernation)
    requires |s.ledger.pending| > 0 && |s.ledger.fates| > 0
    requires s.ledger.pending[|s.ledger.pending| - 1].id == |s.ledger.fates| - 1
    ensures var t := Query(s, h, hw);
            t.chans == s.chans && |t.ledger.fates| == |s.ledger.fates|
            && t.ledger.fates[|s.ledger.fates| - 1]
               == if s.chans[h].run == Hibernation then Answered(s.chans[h].bins)
                  else s.ledger.fates[|s.ledger.fates| - 1]
  {
  }

  /** While asleep a new channel request is answered from the cache if there is one, and waits otherwise;
      the hardware is not asked. */
  lemma RequestWhileAsleep(s: State, h: nat, hw: Bins)
    requires Asleep(s) && h < |s.chans| && !Taken(s, h, 0)
    ensures var t := ChannelRequested(s, h, hw);
            && |t.ledger.fates| == |s.ledger.fates| + 1 && t.chans == s.chans
            && t.ledger.fates[|s.ledger.fates|]
               == if s.chans[h].run == Hibernation then Answered(s.chans[h].bins) else Waiting
  {
    QueryAsleep(Accept(s, ChannelEvent(|s.ledger.fates|, h)), h, hw);
  }

  /** The same for a request by user handle, through the first channel with that handle. */
  lemma ContextRequestWhileAsleep(s: State, handle: nat, hw: Bins)
    requires Asleep(s) && handle != 0 && !Taken(s, |s.chans|, handle)
    ensures var t := ContextRequested(s, handle, hw);
            var h := ChanOf(s.chans, handle);
            && |t.ledger.fates| == |s.ledger.fates| + 1 && t.chans == s.chans
            && t.ledger.fates[|s.ledger.fates|]
               == if h < |s.chans| && s.chans[h].run == Hibernation then Answered(s.chans[h].bins) else Waiting
  {
    var h := ChanOf(s.chans, handle);
    if h < |s.chans| {
      QueryAsleep(Accept(s, ContextEvent(|s.ledger.fates|, handle)), h, hw);
    }
  }

  // ---------------------------------------------------------------------
  // The driver's own form
  // ---------------------------------------------------------------------

  const EINVAL := 22
  const EBUSY := 16

  class Dqe {
    const queryFillsCache: bool
    var chans: seq<Chan>
    var pending: seq<Event>
    var fates: seq<Fate>

    constructor (n: nat, queryFillsCache: bool)
      ensures Model() == Boot(n, queryFillsCache)
    {
      this.queryFillsCache := queryFillsCache;
      chans, pending, fates := seq(n, _ => Chan(false, Disabled, 0, 0, false, 0)), [], [];
    }

    ghost function Model(): State
      reads this
    {
      State(chans, Ledger(pending, fates), queryFillsCache)
    }

    /** `histogram_find_event_node_locked`. */
    method FindEventNode(hist: nat, handle: nat) returns (i: nat)
      ensures i == Find(pending, hist, |chans|, handle)
    {
      i := 0;
      while i < |pending|
        invariant i <= |pending|
        invariant Find(pending, hist, |chans|, handle) == i + Find(pending[i..], hist, |chans|, handle)
      {
        if Matches(pending[i], hist, |chans|, handle) {
          return;
        }
        assert pending[i..][1..] == pending[i + 1..];
        i := i + 1;
      }
    }

    method Release(i: nat, fate: Fate)
      requires i < |pending|
      modifies this
      ensures Model() == Settle(old(Model()), i, fate)
    {
      var id := pending[i].id;
      pending := pending[..i] + pending[i + 1..];
      if id < |fates| {
        fates := fates[id := fate];
      }
    }

    method AnswerNewest(h: nat, hw: Bins)
      requires h < |chans| && |pending| > 0
      modifies this
      ensures Model() == Query(old(Model()), h, hw)
    {
      if chans[h].run == Hibernation {
        Release(|pending| - 1, Answered(chans[h].bins));
      } else if chans[h].run == Idle {
        if queryFillsCache {
          chans := chans[h := chans[h].(bins := hw)];
        }
        Release(|pending| - 1, Answered(hw));
      }
    }

    method RequestChannel(h: nat, hw: Bins) returns (ret: int)
      requires Inv(Model())
      modifies this
      ensures Model() == ChannelRequested(old(Model()), h, hw) && Inv(Model())
      ensures ret == if h >= |old(chans)| then -EINVAL else if Taken(old(Model()), h, 0) then -EBUSY else 0
    {
      RequestKeeps(Model(), Action.ChannelRequest(h, hw));
      if h >= |chans| {
        return -EINVAL;
      }
      var i := FindEventNode(h, 0);
      if i < |pending| {
        return -EBUSY;
      }
      pending, fates := pending + [ChannelEvent(|fates|, h)], fates + [Waiting];
      AnswerNewest(h, hw);
      ret := 0;
    }

    method FindChannel(handle: nat) returns (h: nat)
      ensures h == ChanOf(chans, handle)
    {
      h := 0;
      while h < |chans|
        invariant h <= |chans|
        invariant ChanOf(chans, handle) == h + ChanOf(chans[h..], handle)
      {
        if chans[h].userHandle == handle {
          return;
        }
        assert chans[h..][1..] == chans[h + 1..];
        h := h + 1;
      }
    }

    method RequestContext(handle: nat, hw: Bins) returns (ret: int)
      requires Inv(Model())
      modifies this
      ensures Model() == ContextRequested(old(Model()), handle, hw) && Inv(Model())
      ensures ret == if handle == 0 then -EINVAL else if Taken(old(Model()), |old(chans)|, handle) then -EBUSY else 0
    {
      RequestKeeps(Model(), Action.ContextRequest(handle, hw));
      if handle == 0 {
        return -EINVAL;
      }
      var i := FindEventNode(|chans|, handle);
      if i < |pending| {
        return -EBUSY;
      }
      pending, fates := pending + [ContextEvent(|fates|, handle)], fates + [Waiting];
      var h := FindChannel(handle);
      if h < |chans| {
        AnswerNewest(h, hw);
      }
      ret := 0;
    }

    method CancelChannel(h: nat) returns (ret: int)
      requires Inv(Model())
      modifies this
      ensures Model() == ChannelCancelled(old(Model()), h) && Inv(Model())
      ensures ret == if h >= |old(chans)| then -EINVAL else 0
    {
      CancelKeeps(Model(), h, 0);
      if h >= |chans| {
        return -EINVAL;
      }
      var i := FindEventNode(h, 0);
      if i < |pending| {
        Release(i, Cancelled);
      }
      ret := 0;
    }

    method CancelContext(handle: nat)
      requires Inv(Model())
      modifies this
      ensures Model() == ContextCancelled(old(Model()), handle) && Inv(Model())
    {
      AllCancelledKeeps(Model());
      CancelKeeps(Model(), |chans|, handle);
      if handle == 0 {
        while |pending| > 0
          invariant AllCancelled(Model()) == AllCancelled(old(Model()))
          decreases |pending|
        {
          Release(0, Cancelled);
        }
        return;
      }
      var i := FindEventNode(|chans|, handle);
      if i < |pending| {
        Release(i, Cancelled);
      }
    }

    method HandleChannelEvent(h: nat, hw: Bins, force: bool)
      requires h < |chans|
      modifies this
      ensures Model() == EventHandled(old(Model()), h, hw, force)
    {
      var i := FindEventNode(h, chans[h].userHandle);
      if i == |pending| && !chans[h].callback && !force {
        return;
      }
      chans := chans[h := chans[h].(bins := hw)];
      if i < |pending| {
        Release(i, Answered(hw));
      }
    }

    method FrameDoneChannel(h: nat, hw: Bins, quiet: bool)
      requires h < |chans|
      modifies this
      ensures Model() == FrameDoneAt(old(Model()), h, hw, quiet)
    {
      if chans[h].run == Disabled {
        return;
      }
      HandleChannelEvent(h, hw, false);
      chans := chans[h := chans[h].(run := if quiet then Idle else PendingFramedone)];
    }

    method HandleHistogramEvent(frame: nat -> Bins, quiet: bool)
      requires Inv(Model())
      modifies this
      ensures Model() == FrameDone(old(Model()), frame, quiet, |old(chans)|) && Inv(Model())
    {
      ghost var start := Model();
      var n := |chans|;
      for h := 0 to n
        invariant |chans| == n && Model() == FrameDone(start, frame, quiet, h)
      {
        FrameDoneChannel(h, frame(h), quiet);
      }
      FrameDoneKeeps(start, frame, quiet, n);
    }

    method HibernateChannel(h: nat, hw: Bins, idle: bool)
      requires h < |chans|
      modifies this
      ensures Model() == HibernatedAt(old(Model()), h, hw, idle)
    {
      if chans[h].run == Idle {
        chans := chans[h := chans[h].(bins := hw, run := Hibernation)];
      } else if chans[h].run == PendingFramedone {
        if !idle {
          chans := chans[h := chans[h].(run := Disabled)];
        } else {
          HandleChannelEvent(h, hw, true);
          chans := chans[h := chans[h].(run := Hibernation)];
        }
      }
    }

    method HibernationEnter(enabled: bool, frame: nat -> Bins, idle: bool)
      requires Inv(Model())
      modifies this
      ensures Model() == Hibernated(old(Model()), enabled, frame, idle) && Inv(Model())
    {
      if !enabled {
        return;
      }
      ghost var start := Model();
      var n := |chans|;
      for h := 0 to n
        invariant |chans| == n && Model() == HibernatedUpTo(start, frame, idle, h)
      {
        HibernateChannel(h, frame(h), idle);
      }
      HibernatedKeeps(start, frame, idle, n);
    }

    /** `exynos_histogram_channel_update`. */
    method UpdateChannel(h: nat, config: nat, measures: bool)
      requires Inv(Model())
      modifies this
      ensures Model() == ChannelUpdated(old(Model()), h, config, measures) && Inv(Model())
    {
      if h >= |chans| {
        return;
      }
      var c := chans[h];
      var changed := c.config != config;
      if changed {
        c := c.(config := config, callback := false, on := config != 0 && measures);
      }
      if changed || c.on {
        c := c.(run := PendingFramedone);
      }
      chans := chans[h := c];
    }

    method FlipDone(blobs: nat -> nat)
      requires Inv(Model())
      modifies this
      ensures Model() == Flipped(old(Model()), blobs, |old(chans)|) && Inv(Model())
    {
      FlipDoneKeeps(Model(), blobs, |chans|);
      ghost var start := Model();
      var n := |chans|;
      for h := 0 to n
        invariant |chans| == n && Model() == Flipped(start, blobs, h)
      {
        var run := chans[h].run;
        if chans[h].on {
          run := PendingFramedone;
        } else if run != Hibernation {
          run := Disabled;
        }
        chans := chans[h := chans[h].(run := run, userHandle := blobs(h))];
      }
    }

    method Reset()
      requires Inv(Model())
      modifies this
      ensures Model() == ResetUpTo(old(Model()), |old(chans)|) && Inv(Model())
    {
      ResetKeeps(Model(), |chans|);
      ghost var start := Model();
      var n := |chans|;
      for h := 0 to n
        invariant |chans| == n && Model() == ResetUpTo(start, h)
      {
        chans := chans[h := chans[h].(config := 0, on := false)];
        if chans[h].run != Hibernation {
          chans := chans[h := chans[h].(run := Disabled, userHandle := 0)];
        }
      }
    }
  }
}
