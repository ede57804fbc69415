/**
 The DECON's power and interrupt state machine, driven by atomic commits through
 the CRTC's active-state guard.

 Counted are the DECON's own runtime PM references and the disable depth of its
 interrupts; a depth of zero means enabled, and every interrupt is disabled once
 when it is requested.
 */
module DeconPower {

  datatype DeconState = Init | On | Hibernation | Off | Handover

  datatype ActiveState = Inactive | Active | SelfRefresh

  /** The part of an atomic CRTC state that matters here. */
  datatype Crtc = Crtc(enable: bool, active: bool, selfRefresh: bool, bypass: bool)

  datatype State = State(
    decon: DeconState,
    guard: ActiveState,
    refs: int,
    depth: nat,                  // frame-done and extra interrupts
    fsDepth: nat,                // frame-start interrupt, used with tearing effect only
    te: bool,
    crtc: Crtc)                  // the committed state

  /** One commit: the new state, the flags beside it and the configuration it would bring. */
  datatype Commit = Commit(next: Crtc, modeChanged: bool, connectorsChanged: bool, te: bool)

  // ---------------------------------------------------------------------
  // DECON operations
  // ---------------------------------------------------------------------

  function Enabled(depth: nat): nat {
    if depth == 0 then 0 else depth - 1
  }

  function IrqsEnabled(s: State): State {
    s.(depth := Enabled(s.depth), fsDepth := if s.te then Enabled(s.fsDepth) else s.fsDepth)
  }

  function IrqsDisabled(s: State): State {
    s.(depth := s.depth + 1, fsDepth := if s.te then s.fsDepth + 1 else s.fsDepth)
  }

  function HibernationExited(s: State): State {
    if s.decon != Hibernation then s else IrqsEnabled(s.(refs := s.refs + 1)).(decon := On)
  }

  function HibernationEntered(s: State): State {
    if s.decon != On then s else IrqsDisabled(s).(refs := s.refs - 1, decon := Hibernation)
  }

  function DeconEnabled(s: State, prev: Crtc, c: Commit): State {
    if s.decon == On then s
    else
      var t :=
        if s.decon == Hibernation then HibernationExited(s)
        else
          var u := if c.modeChanged || c.connectorsChanged then s.(te := c.te) else s;
          IrqsEnabled(u.(refs := if s.decon == Handover then s.refs else s.refs + 1)).(decon := On);
      if prev.bypass then t.(refs := t.refs - 1) else t
  }

  function DeconDisabled(s: State, next: Crtc): State {
    if s.decon == Off then s
    else
      var t := if next.bypass then s.(refs := s.refs + 1) else s;
      if next.selfRefresh then HibernationEntered(t)
      else if s.decon == On then IrqsDisabled(t).(refs := t.refs - 1, decon := Off)
      else t.(decon := Off)
  }

  // ---------------------------------------------------------------------
  // The guard and the commit
  // ---------------------------------------------------------------------

  function GuardedEnable(s: State, prev: Crtc, c: Commit): State {
    if s.guard == Active then s else DeconEnabled(s, prev, c).(guard := Active)
  }

  function GuardedDisable(s: State, next: Crtc): State {
    var target := if next.selfRefresh then SelfRefresh else Inactive;
    if s.guard == target then s else DeconDisabled(s, next).(guard := target)
  }

  predicate EffectivelyActive(c: Crtc) {
    c.active || c.selfRefresh
  }

  /** A changed enable, activity or effective activity always sets one of the modeset flags. */
  predicate NeedsModeset(prev: Crtc, c: Commit) {
    || c.modeChanged || c.connectorsChanged
    || prev.enable != c.next.enable || prev.active != c.next.active
    || EffectivelyActive(prev) != EffectivelyActive(c.next)
  }

  predicate NeedsDisable(prev: Crtc, next: Crtc) {
    prev.active || (prev.selfRefresh && !next.enable) || next.selfRefresh
  }

  /** A mode change out of self refresh counts the old state as active. */
  function SeenOld(prev: Crtc, c: Commit): Crtc {
    if prev.selfRefresh && c.modeChanged then prev.(active := true) else prev
  }

  function Committed(s: State, c: Commit): State {
    var prev := SeenOld(s.crtc, c);
    if !NeedsModeset(s.crtc, c) then s.(crtc := c.next)
    else
      var t := if NeedsDisable(prev, c.next) then GuardedDisable(s, c.next) else s;
      var u := if c.next.active && c.next.enable then GuardedEnable(t, prev, c) else t;
      u.(crtc := c.next)
  }

  // ---------------------------------------------------------------------
  // Invariant
  // ---------------------------------------------------------------------

  predicate ValidCrtc(c: Crtc) {
    && (c.active ==> c.enable && !c.selfRefresh)
    && (c.selfRefresh ==> c.enable)
    && (c.bypass ==> c.selfRefresh)
  }

  predicate RefsRight(s: State) {
    s.refs == (if s.decon == On || s.decon == Handover then 1 else 0) + (if s.crtc.bypass then 1 else 0)
  }

  predicate IrqsRight(s: State) {
    && (s.depth == if s.decon == On then 0 else 1)
    && (s.fsDepth == if s.decon == On && s.te then 0 else 1)
  }

  predicate InStep(s: State) {
    && (s.crtc.active <==> s.guard == Active)
    && (s.guard == Active <==> s.decon == On)
    && (s.guard == SelfRefresh <==> s.decon == Hibernation)
    && (s.crtc.selfRefresh ==> s.guard == SelfRefresh)
  }

  predicate Inv(s: State) {
    ValidCrtc(s.crtc) && InStep(s) && RefsRight(s) && IrqsRight(s)
  }

  /** Self refresh and bypass are entered from an active CRTC, and bypass is left to an active one. */
  predicate Orderly(prev: Crtc, next: Crtc) {
    && ValidCrtc(next)
    && (next.selfRefresh && !prev.selfRefresh ==> prev.active)
    && (next.bypass && !prev.bypass ==> prev.active)
    && (prev.bypass ==> next.active || next.bypass)
  }

  lemma OrderlyCommitKeepsInv(s: State, c: Commit)
    requires Inv(s) && Orderly(s.crtc, c.next)
    ensures Inv(Committed(s, c))
  {
  }

  /** A commit to an active state brings its tearing-effect configuration exactly with a change of mode or connectors
      that powers the DECON up from scratch: hibernation counts as that only in self refresh with a new mode. */
  lemma ConfigTakenExactlyWhen(s: State, c: Commit)
    requires Inv(s) && Orderly(s.crtc, c.next) && c.next.active
    ensures Committed(s, c).te
         == if (c.modeChanged || c.connectorsChanged)
               && (s.decon == Hibernation ==> s.crtc.selfRefresh && c.modeChanged)
            then c.te else s.te
  {
  }

  predicate OrderlyRun(s: State, run: seq<Commit>)
    decreases |run|
  {
    run == [] || (Orderly(s.crtc, run[0].next) && OrderlyRun(Committed(s, run[0]), run[1..]))
  }

  function After(s: State, run: seq<Commit>): State
    decreases |run|
  {
    if run == [] then s else After(Committed(s, run[0]), run[1..])
  }

  lemma {:induction false} OneMore(s: State, run: seq<Commit>, c: Commit)
    ensures After(s, run + [c]) == Committed(After(s, run), c)
    decreases |run|
  {
    if run == [] {
      assert [] + [c] == [c] && After(Committed(s, c), [c][1..]) == Committed(s, c);
    } else {
      assert (run + [c])[1..] == run[1..] + [c];
      OneMore(Committed(s, run[0]), run[1..], c);
    }
  }

  function Probed(handover: bool, te: bool): State {
    State(if handover then Handover else Init, Inactive, if handover then 1 else 0, 1, 1, te,
          Crtc(false, false, false, false))
  }

  lemma ProbeIsInOrder(handover: bool, te: bool)
    ensures Inv(Probed(handover, te))
  {
  }

  /** Over every orderly run the DECON holds one reference while on or in handover and one more in bypass,
      and its interrupts are enabled exactly while it is on. */
  lemma {:induction false} EveryRunBalances(s: State, run: seq<Commit>)
    requires Inv(s) && OrderlyRun(s, run)
    ensures Inv(After(s, run))
    decreases |run|
  {
    if run != [] {
      OrderlyCommitKeepsInv(s, run[0]);
      EveryRunBalances(Committed(s, run[0]), run[1..]);
    }
  }

  // ---------------------------------------------------------------------
  // Bypass
  // ---------------------------------------------------------------------

  const BYPASS := Crtc(true, false, true, true)

  /** Entering bypass takes its reference exactly if the guard lets the disable through and the DECON was
      not off: from self refresh the disable is skipped, and an off DECON returns before counting. */
  lemma EnterBypassBalancedExactlyWhen(s: State, c: Commit)
    requires Inv(s) && !s.crtc.bypass && c.next == BYPASS
    requires NeedsModeset(s.crtc, c)
    ensures RefsRight(Committed(s, c)) <==> s.guard != SelfRefresh && s.decon != Off
  {
  }

  /** A commit out of bypass balances exactly if the new state is active and no longer says bypass (or a
      mode change takes it through a full disable), or if it stays in bypass without being disabled. */
  lemma LeaveBypassBalancedExactlyWhen(s: State, c: Commit)
    requires Inv(s) && s.crtc.bypass && c.next != s.crtc
    requires c.next.active ==> c.next.enable && !c.next.selfRefresh
    ensures RefsRight(Committed(s, c))
            <==> if c.next.active then !c.next.bypass || c.modeChanged
                 else c.next.bypass && (c.next.selfRefresh || (c.next.enable && !c.modeChanged))
  {
  }

  // ---------------------------------------------------------------------
  // Who commits what: users, hibernation and the trusted UI
  // ---------------------------------------------------------------------

  datatype Option<T> = None | Some(value: T)

  /** The DECON with what the trusted UI keeps: its flag, the state to restore, and whether the panel's
      connector supports self refresh. */
  datatype Machine = Machine(s: State, tui: bool, saved: Option<Crtc>, aware: bool)

  datatype Event =
    | UserCommit(active: bool, enable: bool, modeChanged: bool, connectorsChanged: bool, te: bool)
    | Sleep                              // hibernation entry
    | Wake                               // hibernation exit
    | EnterTui(woken: bool, ok: bool)    // whether the wake-up before it and its own commit succeed
    | ExitTui(ok: bool)                  // whether the commit of the saved state succeeds

  /** What a new atomic state starts from: self refresh counts as active, the driver's flag is copied. */
  function Duplicate(c: Crtc): Crtc {
    Crtc(c.enable, EffectivelyActive(c), false, c.bypass)
  }

  function Plainly(m: Machine, next: Crtc): Machine {
    m.(s := Committed(m.s, Commit(next, false, false, m.s.te)))
  }

  /** Hibernation exit, tried for a hibernating DECON; commits are refused while the trusted UI is on. */
  function Woken(m: Machine): Machine {
    if m.s.decon != Hibernation || m.tui || !m.s.crtc.enable || m.s.crtc.active then m
    else Plainly(m, Duplicate(m.s.crtc).(active := true))
  }

  function TuiEntered(m: Machine, ok: bool): Machine {
    var now := Duplicate(m.s.crtc);
    if !ok then m.(saved := None)
    else
      var t := m.(tui := true, saved := Some(now));
      if !now.enable || !now.active then t
      else if m.aware then Plainly(t, now.(active := false, selfRefresh := true, bypass := true))
      else Plainly(t, now.(active := false))
  }

  function Do(m: Machine, e: Event): Machine {
    match e
    case UserCommit(active, enable, modeChanged, connectorsChanged, te) =>
      if m.tui then m
      else
        var next := Duplicate(m.s.crtc).(enable := enable, active := enable && active);
        m.(s := Committed(m.s, Commit(next, modeChanged, connectorsChanged, te)))
    case Sleep =>
      if m.tui || !m.s.crtc.active || !m.aware then m
      else Plainly(m, Duplicate(m.s.crtc).(active := false, selfRefresh := true))
    case Wake => Woken(m)
    case EnterTui(woken, ok) =>
      if m.tui then m else TuiEntered(if woken then Woken(m) else m, ok)
    case ExitTui(ok) =>
      if !m.tui || m.saved.None? then m
      else if ok then Plainly(m, m.saved.value).(tui := false, saved := None)
      else m.(tui := false)
  }

  /** The references are right, and bypass only lasts as long as the trusted UI, which can restore an
      active state. */
  predicate InOrder(m: Machine) {
    && Inv(m.s)
    && (m.tui ==> m.saved.Some? && ValidCrtc(m.saved.value) && !m.saved.value.selfRefresh)
    && (m.s.crtc.bypass ==> m.tui && m.saved.value.active)
  }

  /** The wake-up before the trusted UI of a sleeping panel and the restore after bypass succeed. */
  predicate Clean(m: Machine, e: Event) {
    match e
    case EnterTui(woken, ok) => !m.tui && ok && m.aware && m.s.crtc.selfRefresh ==> woken
    case ExitTui(ok) => m.s.crtc.bypass ==> ok
    case _ => true
  }

  lemma PlainlyKeepsInv(m: Machine, next: Crtc)
    requires Inv(m.s) && Orderly(m.s.crtc, next)
    ensures Inv(Plainly(m, next).s)
  {
    OrderlyCommitKeepsInv(m.s, Commit(next, false, false, m.s.te));
  }

  /** The wake-up is an orderly commit and leaves no self refresh behind. */
  lemma WokenKeepsOrder(m: Machine)
    requires InOrder(m)
    ensures InOrder(Woken(m)) && Woken(m).tui == m.tui && Woken(m).aware == m.aware
    ensures !m.tui ==> !Woken(m).s.crtc.selfRefresh
  {
    var next := Duplicate(m.s.crtc).(active := true);
    if Woken(m) != m {
      PlainlyKeepsInv(m, next);
    }
  }

  /** Entering takes an active CRTC into bypass, or leaves an inactive one alone. */
  lemma TuiEnteredKeepsOrder(m: Machine, ok: bool)
    requires InOrder(m) && !m.tui && (m.aware && ok ==> !m.s.crtc.selfRefresh)
    ensures InOrder(TuiEntered(m, ok))
  {
    var now := Duplicate(m.s.crtc);
    if ok && now.enable && now.active {
      PlainlyKeepsInv(m.(tui := true, saved := Some(now)),
                      if m.aware then now.(active := false, selfRefresh := true, bypass := true)
                       else now.(active := false));
    }
  }

  lemma ExitKeepsOrder(m: Machine, ok: bool)
    requires InOrder(m) && Clean(m, ExitTui(ok))
    ensures InOrder(Do(m, ExitTui(ok)))
  {
    if m.tui && ok {
      PlainlyKeepsInv(m, m.saved.value);
    }
  }

  /** Every event in which these two commits succeed only makes orderly commits: the guards on who may enter
      self refresh and bypass, and the refusal of commits in between, see to the rest. */
  lemma CleanEventKeepsOrder(m: Machine, e: Event)
    requires InOrder(m) && Clean(m, e)
    ensures InOrder(Do(m, e))
  {
    match e
    case UserCommit(active, enable, modeChanged, connectorsChanged, te) =>
      if !m.tui {
        var next := Duplicate(m.s.crtc).(enable := enable, active := enable && active);
        OrderlyCommitKeepsInv(m.s, Commit(next, modeChanged, connectorsChanged, te));
      }
    case Sleep =>
      if Do(m, e) != m {
        PlainlyKeepsInv(m, Duplicate(m.s.crtc).(active := false, selfRefresh := true));
      }
    case Wake => WokenKeepsOrder(m);
    case EnterTui(woken, ok) =>
      if !m.tui {
        WokenKeepsOrder(m);
        TuiEnteredKeepsOrder(if woken then Woken(m) else m, ok);
      }
    case ExitTui(ok) => ExitKeepsOrder(m, ok);
  }

  /** The other events leave order at once: bypass without a reference, or bypass without the trusted UI. */
  lemma UncleanEventLosesOrder(m: Machine, e: Event)
    requires InOrder(m) && !Clean(m, e)
    ensures !InOrder(Do(m, e))
  {
    if e.EnterTui? {
      assert m.s.refs == 0 && Do(m, e).s == m.s.(crtc := BYPASS);
    }
  }

  function AfterEvents(m: Machine, run: seq<Event>): Machine
    decreases |run|
  {
    if run == [] then m else AfterEvents(Do(m, run[0]), run[1..])
  }

  predicate AlwaysInOrder(m: Machine, run: seq<Event>)
    decreases |run|
  {
    InOrder(m) && (run == [] || AlwaysInOrder(Do(m, run[0]), run[1..]))
  }

  predicate CleanRun(m: Machine, run: seq<Event>)
    decreases |run|
  {
    run == [] || (Clean(m, run[0]) && CleanRun(Do(m, run[0]), run[1..]))
  }

  /** Over all runs of user commits, hibernation and the trusted UI: references and interrupts are right and bypass
      ends with the trusted UI, throughout, exactly if no wake-up before the trusted UI and no restore after bypass
      failed. */
  lemma {:induction false} InOrderExactlyWhenClean(m: Machine, run: seq<Event>)
    requires InOrder(m)
    ensures AlwaysInOrder(m, run) <==> CleanRun(m, run)
    decreases |run|
  {
    if run != [] {
      if Clean(m, run[0]) {
        CleanEventKeepsOrder(m, run[0]);
        InOrderExactlyWhenClean(Do(m, run[0]), run[1..]);
      } else {
        UncleanEventLosesOrder(m, run[0]);
        assert !AlwaysInOrder(Do(m, run[0]), run[1..]);
      }
    }
  }

  /** A user's commit takes effect, unless the trusted UI is on. */
  lemma CommitTakesEffect(m: Machine, e: Event)
    requires InOrder(m) && e.UserCommit?
    ensures m.tui ==> Do(m, e) == m
    ensures !m.tui ==>
              && Do(m, e).s.crtc == Crtc(e.enable, e.enable && e.active, false, false)
              && (Do(m, e).s.decon == On <==> e.enable && e.active)
  {
  }

  /** Hibernation entry powers an active DECON down, and exit brings everything back as it was. */
  lemma SleepThenWake(m: Machine)
    requires InOrder(m) && !m.tui && m.aware && m.s.crtc.active
    ensures var a := Do(m, Sleep);
            && a.s.decon == Hibernation && a.s.refs == 0 && a.s.depth == 1
            && Do(a, Wake) == m
  {
  }

  /** The trusted UI finds the DECON out of use, but with a reference if it was active or asleep on a panel that is
      aware; leaving it brings back the state the CRTC had, awake. */
  lemma TuiThenBack(m: Machine)
    requires InOrder(m) && !m.tui
    ensures var a := Do(m, EnterTui(true, true));
            var active := m.s.decon == On || (m.s.decon == Hibernation && m.s.crtc.enable);
            && a.tui && !a.s.crtc.active && a.s.decon != On
            && (active ==> a.s.refs == if m.aware then 1 else 0)
            && (active ==> a.s.decon == if m.aware then Hibernation else Off)
            && var b := Do(a, ExitTui(true));
            && !b.tui && b.saved.None? && b.s.crtc == Crtc(m.s.crtc.enable, active, false, false)
            && (b.s.decon == On <==> active)
  {
    WokenKeepsOrder(m);
    TuiEnteredKeepsOrder(Woken(m), true);
    ExitKeepsOrder(Do(m, EnterTui(true, true)), true);
  }

  /** A trusted UI that cannot be entered leaves the DECON awake and otherwise as it was. */
  lemma TuiRefused(m: Machine, woken: bool)
    requires InOrder(m) && !m.tui
    ensures var a := Do(m, EnterTui(woken, false));
            && !a.tui && a.saved.None? && InOrder(a)
            && a.s.crtc == (if woken && m.s.decon == Hibernation && m.s.crtc.enable
                            then Crtc(true, true, false, false) else m.s.crtc)
  {
    WokenKeepsOrder(m);
  }

  function Started(handover: bool, te: bool, aware: bool): Machine {
    Machine(Probed(handover, te), false, None, aware)
  }

  lemma StartIsInOrder(handover: bool, te: bool, aware: bool)
    ensures InOrder(Started(handover, te, aware))
  {
  }

  /** After a failed restore the flag stays in the committed state, and with it the copy in every later one:
      switching the CRTC off then ends with two references on a DECON that is off, and switching it on leaves
      the flag behind. */
  lemma StuckBypass(m: Machine, e: Event)
    requires Inv(m.s) && m.s.crtc.bypass && !m.tui && e.UserCommit? && !e.modeChanged
    ensures var t := Do(m, e);
            && (!e.enable ==> t.s.decon == Off && t.s.refs == 2)
            && (e.enable && e.active ==> t.s.decon == On && t.s.refs == 1 && t.s.crtc.bypass)
  {
  }

  const SwitchOn := UserCommit(true, true, true, true, true)
  const SwitchOff := UserCommit(false, false, false, false, true)

  /** The shortest such run from probe. */
  lemma FailedRestoreLeaks()
    ensures var run := [SwitchOn, EnterTui(true, true), ExitTui(false), SwitchOff];
            var m := AfterEvents(Started(false, true, true), run);
            m.s.decon == Off && m.s.refs == 2 && !m.tui
  {
    var m0 := Started(false, true, true);
    var m1 := Do(m0, SwitchOn);
    assert m1.s == State(On, Active, 1, 0, 0, true, Crtc(true, true, false, false));
    var m2 := Do(m1, EnterTui(true, true));
    assert m2.s == State(Hibernation, SelfRefresh, 1, 1, 1, true, BYPASS) && m2.tui;
    var m3 := Do(m2, ExitTui(false));
    assert m3.s == m2.s && !m3.tui;
    RunOfFour(m0, SwitchOn, EnterTui(true, true), ExitTui(false), SwitchOff);
  }

  /** And one in which the wake-up before the trusted UI fails: afterwards the DECON is on without a reference. */
  lemma FailedWakeLosesPower()
    ensures var m := AfterEvents(Started(false, true, true), [SwitchOn, Sleep, EnterTui(false, true), ExitTui(true)]);
            m.s.decon == On && m.s.refs == 0
  {
    var m0 := Started(false, true, true);
    var m1 := Do(m0, SwitchOn);
    assert m1.s == State(On, Active, 1, 0, 0, true, Crtc(true, true, false, false));
    var m2 := Do(m1, Sleep);
    assert m2.s == State(Hibernation, SelfRefresh, 0, 1, 1, true, Crtc(true, false, true, false));
    var m3 := Do(m2, EnterTui(false, true));
    assert m3.s == m2.s.(crtc := BYPASS) && m3.tui && m3.saved == Some(Crtc(true, true, false, false));
    RunOfFour(m0, SwitchOn, Sleep, EnterTui(false, true), ExitTui(true));
  }

  lemma RunOfFour(m: Machine, a: Event, b: Event, c: Event, d: Event)
    ensures AfterEvents(m, [a, b, c, d]) == Do(Do(Do(Do(m, a), b), c), d)
  {
    assert [a, b, c, d][1..] == [b, c, d] && [b, c, d][1..] == [c, d] && [c, d][1..] == [d] && [d][1..] == [];
    assert AfterEvents(Do(Do(Do(m, a), b), c), [d]) == Do(Do(Do(Do(m, a), b), c), d);
    assert AfterEvents(Do(Do(m, a), b), [c, d]) == AfterEvents(Do(Do(Do(m, a), b), c), [d]);
    assert AfterEvents(Do(m, a), [b, c, d]) == AfterEvents(Do(Do(m, a), b), [c, d]);
  }

  // ---------------------------------------------------------------------
  // The driver's own form
  // ---------------------------------------------------------------------

  class Decon {
    var state: DeconState
    var activeState: ActiveState
    var refs: int
    var depth: nat
    var fsDepth: nat
    var te: bool
    var crtc: Crtc

    constructor (handover: bool, te: bool)
      ensures Model() == Probed(handover, te)
    {
      state, activeState := if handover then Handover else Init, Inactive;
      refs := if handover then 1 else 0;
      depth, fsDepth, this.te, crtc := 1, 1, te, Crtc(false, false, false, false);
    }

    ghost function Model(): State
      reads this
    {
      State(state, activeState, refs, depth, fsDepth, te, crtc)
    }

    method EnableIrqs()
      modifies this
      ensures Model() == IrqsEnabled(old(Model()))
    {
      depth := if depth == 0 then 0 else depth - 1;
      if te {
        fsDepth := if fsDepth == 0 then 0 else fsDepth - 1;
      }
    }

    method DisableIrqs()
      modifies this
      ensures Model() == IrqsDisabled(old(Model()))
    {
      depth := depth + 1;
      if te {
        fsDepth := fsDepth + 1;
      }
    }

    method ExitHibernation()
      modifies this
      ensures Model() == HibernationExited(old(Model()))
    {
      if state != Hibernation {
        return;
      }
      refs := refs + 1;
      EnableIrqs();
      state := On;
    }

    method EnterHibernation()
      modifies this
      ensures Model() == HibernationEntered(old(Model()))
    {
      if state != On {
        return;
      }
      DisableIrqs();
      refs := refs - 1;
      state := Hibernation;
    }

    method Enable(oldCrtc: Crtc, c: Commit)
      modifies this
      ensures Model() == DeconEnabled(old(Model()), oldCrtc, c)
    {
      if state == On {
        return;
      }
      if state == Hibernation {
        ExitHibernation();
      } else {
        if c.modeChanged || c.connectorsChanged {
          te := c.te;
        }
        refs := refs + 1;
        if state == Handover {
          refs := refs - 1;
        }
        EnableIrqs();
        state := On;
      }
      if oldCrtc.bypass {
        refs := refs - 1;
      }
    }

    method Disable(next: Crtc)
      modifies this
      ensures Model() == DeconDisabled(old(Model()), next)
    {
      var oldState := state;
      if oldState == Off {
        return;
      }
      if next.bypass {
        refs := refs + 1;
      }
      if next.selfRefresh {
        EnterHibernation();
        return;
      }
      if oldState == On {
        DisableIrqs();
        refs := refs - 1;
      }
      state := Off;
    }

    method AtomicEnable(oldCrtc: Crtc, c: Commit)
      modifies this
      ensures Model() == GuardedEnable(old(Model()), oldCrtc, c)
    {
      if activeState == Active {
        return;
      }
      Enable(oldCrtc, c);
      activeState := Active;
    }

    method AtomicDisable(next: Crtc)
      modifies this
      ensures Model() == GuardedDisable(old(Model()), next)
    {
      var target := if next.selfRefresh then SelfRefresh else Inactive;
      if activeState == target {
        return;
      }
      Disable(next);
      activeState := target;
    }

    /** One commit, through the disables and then the enables of the commit tail. */
    method CommitTail(c: Commit)
      modifies this
      ensures Model() == Committed(old(Model()), c)
      ensures old(Inv(Model()) && Orderly(crtc, c.next)) ==> Inv(Model())
    {
      if Inv(Model()) && Orderly(crtc, c.next) {
        OrderlyCommitKeepsInv(Model(), c);
      }
      if NeedsModeset(crtc, c) {
        var oldCrtc := SeenOld(crtc, c);
        if NeedsDisable(oldCrtc, c.next) {
          AtomicDisable(c.next);
        }
        if c.next.active && c.next.enable {
          AtomicEnable(oldCrtc, c);
        }
      }
      crtc := c.next;
    }
  }
}
