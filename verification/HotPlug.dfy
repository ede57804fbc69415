/**
 DisplayPort hot-plug work against the trusted UI, which share one lock.

 The lock is taken in one call and released in another: plugging takes it and
 unplugging releases it, entering the trusted UI takes it and leaving releases it.
 Plug, unplug and interrupt work run one at a time under the hpd lock, interleaved
 step by step with the trusted UI calls and with short-lived users of the DP's
 runtime PM reference.
 */
module HotPlug {

  datatype Owner = Free | Dp | Tui

  datatype WorkerPc =
    | Idle
    | PlugLocked | PlugAwake | PlugPowered         // after the lock, the stay-awake vote, the reference
    | PlugFailed | FailedUnpowered | FailedRelaxed // giving them back after a failed plug
    | UnplugHeld | UnplugPut | UnplugUnpowered | UnplugRelaxed
    | IrqHeld

  datatype TuiPc =
    | Outside
    | Entering(active: nat)         // lock taken; so many CRTCs are active
    | Duplicated(active: nat)       // the state to restore is saved
    | Referenced(active: nat)       // every active CRTC has its extra reference
    | Failing                       // about to release the lock
    | DroppingRefs                  // lock released, references of the failed attempt still held
    | Restoring                     // leaving: flag cleared, about to restore the saved state
    | Restored                      // about to release the lock

  datatype Option<T> = None | Some(value: T)

  datatype State = State(
    lock: Owner,
    usage: nat,                     // runtime PM usage count of the DP
    transient: nat,                 // how many short-lived users hold one of them
    awake: bool,                    // stay-awake vote of the DP
    worker: WorkerPc,
    tui: TuiPc,
    tuiEnabled: bool,
    saved: Option<nat>,             // active CRTCs of the state to restore
    tuiRefs: nat)                   // extra CRTC references held for the trusted UI

  datatype Action =
    | StartPlug | StartUnplug | StartIrq
    | Worker(ok: bool)
    | TransientBegin | TransientEnd
    | TuiEnter(active: nat) | TuiExit
    | TuiStep(taken: nat, ok: bool)

  function Put(n: nat): nat {
    if n == 0 then 0 else n - 1
  }

  predicate CanDo(s: State, a: Action) {
    match a
    case StartPlug => s.worker == Idle
    case StartUnplug => s.worker == Idle
    case StartIrq => s.worker == Idle
    case Worker(_) => s.worker != Idle
    case TransientBegin => s.usage > 0        // pm_runtime_get_if_in_use
    case TransientEnd => s.transient > 0
    case TuiEnter(_) => s.tui == Outside
    case TuiExit => s.tui == Outside
    case TuiStep(taken, ok) =>
      && s.tui != Outside
      && (s.tui.Duplicated? ==> taken <= s.tui.active && (ok ==> taken == s.tui.active))
  }

  function WorkerStep(s: State, ok: bool): State {
    match s.worker
    case Idle => s
    case PlugLocked => s.(awake := true, worker := PlugAwake)
    case PlugAwake => s.(usage := s.usage + 1, worker := PlugPowered)
    case PlugPowered => s.(worker := if ok then Idle else PlugFailed)
    case PlugFailed => s.(usage := Put(s.usage), worker := FailedUnpowered)
    case FailedUnpowered => s.(awake := false, worker := FailedRelaxed)
    case FailedRelaxed => s.(lock := Free, worker := Idle)
    case UnplugHeld => s.(usage := Put(s.usage), worker := UnplugPut)
    case UnplugPut => s.(usage := Put(s.usage), worker := UnplugUnpowered)
    case UnplugUnpowered => s.(awake := false, worker := UnplugRelaxed)
    case UnplugRelaxed => s.(lock := Free, worker := Idle)
    case IrqHeld => s.(usage := Put(s.usage), worker := Idle)
  }

  function TuiStepped(s: State, taken: nat, ok: bool): State {
    match s.tui
    case Outside => s
    case Entering(n) => if ok then s.(saved := Some(n), tui := Duplicated(n)) else s.(tui := Failing)
    case Duplicated(n) =>
      var t := s.(tuiRefs := s.tuiRefs + taken);
      if ok && n > 0 then t.(tui := Referenced(n)) else t.(saved := None, tui := Failing)
    case Referenced(_) => if ok then s.(tuiEnabled := true, tui := Outside) else s.(saved := None, tui := Failing)
    case Failing => s.(lock := Free, tui := DroppingRefs)
    case DroppingRefs => s.(tuiRefs := 0, tui := Outside)
    case Restoring =>
      var refs := if s.saved.Some? && s.saved.value <= s.tuiRefs then s.tuiRefs - s.saved.value else s.tuiRefs;
      s.(tuiRefs := refs, saved := if ok then None else s.saved, tui := Restored)
    case Restored => s.(lock := Free, tui := Outside)
  }

  function Do(s: State, a: Action): State
    requires CanDo(s, a)
  {
    match a
    case StartPlug => if s.lock != Free then s else s.(lock := Dp, worker := PlugLocked)
    case StartUnplug => if s.usage == 0 then s else s.(usage := s.usage + 1, worker := UnplugHeld)
    case StartIrq => if s.usage == 0 then s else s.(usage := s.usage + 1, worker := IrqHeld)
    case Worker(ok) => WorkerStep(s, ok)
    case TransientBegin => s.(usage := s.usage + 1, transient := s.transient + 1)
    case TransientEnd => s.(usage := Put(s.usage), transient := s.transient - 1)
    case TuiEnter(n) => if s.tuiEnabled || s.lock != Free then s else s.(lock := Tui, tui := Entering(n))
    case TuiExit => if !s.tuiEnabled || s.saved.None? then s else s.(tuiEnabled := false, tui := Restoring)
    case TuiStep(taken, ok) => TuiStepped(s, taken, ok)
  }

  predicate Runs(s: State, run: seq<Action>)
    decreases |run|
  {
    run == [] || (CanDo(s, run[0]) && Runs(Do(s, run[0]), run[1..]))
  }

  function After(s: State, run: seq<Action>): State
    requires Runs(s, run)
    decreases |run|
  {
    if run == [] then s else After(Do(s, run[0]), run[1..])
  }

  function Boot(): State {
    State(Free, 0, 0, false, Idle, Outside, false, None, 0)
  }

  // ---------------------------------------------------------------------
  // Invariant
  // ---------------------------------------------------------------------

  /** References of the DP taken by plugging and not yet returned. */
  function PlugRefs(s: State): nat {
    match s.worker
    case Idle => if s.lock == Dp then 1 else 0
    case IrqHeld => if s.lock == Dp then 1 else 0
    case PlugPowered => 1
    case PlugFailed => 1
    case UnplugHeld => 1
    case UnplugPut => 1
    case _ => 0
  }

  function WorkerRefs(pc: WorkerPc): nat {
    if pc == IrqHeld || pc == UnplugHeld then 1 else 0
  }

  predicate AwakeAt(s: State) {
    match s.worker
    case Idle => s.lock == Dp
    case IrqHeld => s.lock == Dp
    case PlugLocked => false
    case FailedRelaxed => false
    case UnplugRelaxed => false
    case _ => true
  }

  predicate TuiHolds(s: State) {
    match s.tui
    case Outside => s.tuiEnabled
    case DroppingRefs => false
    case _ => true
  }

  predicate DpInv(s: State) {
    && s.usage == s.transient + PlugRefs(s) + WorkerRefs(s.worker)
    && (s.awake <==> AwakeAt(s))
    && (s.worker != Idle && s.worker != IrqHeld ==> s.lock == Dp)
  }

  predicate TuiInv(s: State) {
    && (s.lock == Tui <==> TuiHolds(s))
    && (s.tuiEnabled ==> s.tui == Outside && s.saved == Some(s.tuiRefs))
    && (s.tui == Restoring ==> s.saved == Some(s.tuiRefs))
    && (s.tui.Referenced? ==> s.saved == Some(s.tuiRefs))
    && (s.tui.Entering? || s.tui.Duplicated? || s.tui == Restored || (s.tui == Outside && !s.tuiEnabled) ==>
          s.tuiRefs == 0)
    && (s.tui.Duplicated? ==> s.saved == Some(s.tui.active))
  }

  predicate Inv(s: State) {
    DpInv(s) && TuiInv(s)
  }

  /** An unplug that finds the DP in use finds it in use by a plug, not only by a passer-by. */
  predicate Clean(s: State, a: Action) {
    a == StartUnplug ==> s.lock == Dp || s.transient == 0
  }

  predicate CleanRun(s: State, run: seq<Action>)
    requires Runs(s, run)
    decreases |run|
  {
    run == [] || (Clean(s, run[0]) && CleanRun(Do(s, run[0]), run[1..]))
  }

  lemma StepKeepsDpInv(s: State, a: Action)
    requires Inv(s) && CanDo(s, a) && Clean(s, a)
    ensures DpInv(Do(s, a))
  {
    match a
    case Worker(_) =>
    case TuiStep(_, _) =>
    case _ =>
  }

  lemma StepKeepsTuiInv(s: State, a: Action)
    requires Inv(s) && CanDo(s, a) && Clean(s, a)
    ensures TuiInv(Do(s, a))
  {
    match a
    case Worker(_) =>
    case TuiStep(_, _) =>
    case _ =>
  }

  /** The DP is powered on behalf of a plug. */
  predicate DpPowered(s: State) {
    s.usage > s.transient + WorkerRefs(s.worker)
  }

  /** At every moment the trusted UI excludes a powered DP, and a powered DP owns the lock. */
  predicate Exclusive(s: State) {
    && (s.tuiEnabled ==> !DpPowered(s) && s.lock == Tui)
    && (DpPowered(s) ==> s.lock == Dp && s.awake)
  }

  /** Between works the DP owns the lock exactly when it holds its reference and its stay-awake vote. */
  predicate DpOwnsExactly(s: State) {
    s.worker == Idle ==> (s.lock == Dp <==> DpPowered(s)) && (s.lock == Dp <==> s.awake)
  }

  /** Between calls the trusted UI owns the lock exactly while enabled, the saved state is there when it is
      enabled, and the extra CRTC references last exactly as long. */
  predicate TuiOwnsExactly(s: State) {
    s.tui == Outside ==>
      && (s.lock == Tui <==> s.tuiEnabled)
      && (if s.tuiEnabled then s.saved == Some(s.tuiRefs) else s.tuiRefs == 0)
  }

  predicate Separated(s: State) {
    Exclusive(s) && DpOwnsExactly(s) && TuiOwnsExactly(s)
  }

  lemma InvSeparates(s: State)
    requires Inv(s)
    ensures Separated(s)
  {
  }

  lemma StepKeepsInv(s: State, a: Action)
    requires Inv(s) && CanDo(s, a) && Clean(s, a)
    ensures Inv(Do(s, a))
  {
    StepKeepsDpInv(s, a);
    StepKeepsTuiInv(s, a);
  }

  /** From boot, or any state in order, every interleaving keeps the two apart. */
  lemma {:induction false} EveryRunSeparates(s: State, run: seq<Action>)
    requires Inv(s) && Runs(s, run) && CleanRun(s, run)
    ensures Inv(After(s, run)) && Separated(After(s, run))
    decreases |run|
  {
    if run == [] {
      InvSeparates(s);
    } else {
      StepKeepsInv(s, run[0]);
      EveryRunSeparates(Do(s, run[0]), run[1..]);
    }
  }

  /** In order before the run and after every action of it. */
  predicate AlwaysInOrder(s: State, run: seq<Action>)
    requires Runs(s, run)
    decreases |run|
  {
    Inv(s) && (run == [] || AlwaysInOrder(Do(s, run[0]), run[1..]))
  }

  /** An unplug that meets only a passer-by's reference leaves order at once. */
  lemma StepKeepsInvExactlyWhen(s: State, a: Action)
    requires Inv(s) && CanDo(s, a)
    ensures Inv(Do(s, a)) <==> Clean(s, a)
  {
    if Clean(s, a) {
      StepKeepsInv(s, a);
    } else {
      assert s.usage > 0 && Do(s, a).worker == UnplugHeld && Do(s, a).lock != Dp;
    }
  }

  /** Of all runs, exactly the clean ones stay in order throughout. */
  lemma {:induction false} InOrderExactlyWhenClean(s: State, run: seq<Action>)
    requires Inv(s) && Runs(s, run)
    ensures AlwaysInOrder(s, run) <==> CleanRun(s, run)
    decreases |run|
  {
    if run != [] {
      StepKeepsInvExactlyWhen(s, run[0]);
      if Clean(s, run[0]) {
        InOrderExactlyWhenClean(Do(s, run[0]), run[1..]);
      } else {
        assert !Inv(Do(s, run[0]));
      }
    }
  }

  lemma BootIsInOrder()
    ensures Inv(Boot())
  {
  }

  // ---------------------------------------------------------------------
  // Whole calls, with nothing in between
  // ---------------------------------------------------------------------

  predicate Leads(s: State, a: Action, t: State) {
    CanDo(s, a) && Do(s, a) == t
  }

  lemma {:induction false} ChainRuns(states: seq<State>, run: seq<Action>)
    requires |states| == |run| + 1
    requires forall i :: 0 <= i < |run| ==> Leads(states[i], run[i], states[i + 1])
    ensures Runs(states[0], run) && After(states[0], run) == states[|run|]
    ensures (forall i :: 0 <= i < |run| ==> Clean(states[i], run[i])) ==> CleanRun(states[0], run)
    decreases |run|
  {
    if run != [] {
      assert Leads(states[0], run[0], states[1]);
      forall i | 0 <= i < |run[1..]| ensures Leads(states[1..][i], run[1..][i], states[1..][i + 1]) {
        assert Leads(states[i + 1], run[i + 1], states[i + 2]);
      }
      ChainRuns(states[1..], run[1..]);
      if forall i :: 0 <= i < |run| ==> Clean(states[i], run[i]) {
        forall i | 0 <= i < |run[1..]| ensures Clean(states[1..][i], run[1..][i]) {
          assert Clean(states[i + 1], run[i + 1]);
        }
      }
    }
  }

  predicate Reaches(s: State, run: seq<Action>, t: State) {
    Runs(s, run) && After(s, run) == t
  }

  const Step := Worker(true)

  /** A whole plug: the DP gets lock, stay-awake vote and reference; a plug that fails gives all of them back, and one
      that finds the lock taken does nothing. */
  lemma PlugComesTo(s: State)
    requires Inv(s) && s.worker == Idle
    ensures s.lock == Free ==>
              && Reaches(s, [StartPlug, Step, Step, Step], s.(lock := Dp, awake := true, usage := s.usage + 1))
              && Reaches(s, [StartPlug, Step, Step, Worker(false), Step, Step, Step], s)
    ensures s.lock != Free ==> Reaches(s, [StartPlug], s)
  {
    if s.lock == Free {
      var locked := s.(lock := Dp, worker := PlugLocked);
      var voted := locked.(awake := true, worker := PlugAwake);
      var powered := voted.(usage := s.usage + 1, worker := PlugPowered);
      ChainRuns([s, locked, voted, powered, powered.(worker := Idle)], [StartPlug, Step, Step, Step]);
      PlugFails(s);
    } else {
      ChainRuns([s, s], [StartPlug]);
    }
  }

  lemma PlugFails(s: State)
    requires Inv(s) && s.worker == Idle && s.lock == Free
    ensures Reaches(s, [StartPlug, Step, Step, Worker(false), Step, Step, Step], s)
  {
    var locked := s.(lock := Dp, worker := PlugLocked);
    var voted := locked.(awake := true, worker := PlugAwake);
    var powered := voted.(usage := s.usage + 1, worker := PlugPowered);
    ChainRuns([s, locked, voted, powered, powered.(worker := PlugFailed), voted.(worker := FailedUnpowered),
               locked.(worker := FailedRelaxed), s],
              [StartPlug, Step, Step, Worker(false), Step, Step, Step]);
  }

  /** An interrupt and a short-lived user leave nothing behind. */
  lemma VisitorsLeaveNothing(s: State)
    ensures s.worker == Idle && s.usage > 0 ==> Reaches(s, [StartIrq, Step], s)
    ensures s.worker == Idle && s.usage == 0 ==> Reaches(s, [StartIrq], s)
    ensures s.usage > 0 ==> Reaches(s, [TransientBegin, TransientEnd], s)
  {
    if s.worker == Idle && s.usage > 0 {
      ChainRuns([s, s.(usage := s.usage + 1, worker := IrqHeld), s], [StartIrq, Step]);
    } else if s.worker == Idle {
      ChainRuns([s, s], [StartIrq]);
    }
    if s.usage > 0 {
      ChainRuns([s, s.(usage := s.usage + 1, transient := s.transient + 1), s], [TransientBegin, TransientEnd]);
    }
  }

  /** The four steps of entering the trusted UI with `n` active CRTCs that succeed. */
  function Enter(n: nat): seq<Action> {
    [TuiEnter(n), TuiStep(0, true), TuiStep(n, true), TuiStep(0, true)]
  }

  /** Entering takes the lock and one reference for each active CRTC, and remembers how many. */
  lemma EnterComesTo(s: State, n: nat)
    requires Inv(s) && s.tui == Outside
    ensures s.lock == Free && n > 0 ==>
              Reaches(s, Enter(n), s.(lock := Tui, tuiEnabled := true, saved := Some(n), tuiRefs := n))
    ensures s.lock != Free ==> Reaches(s, [TuiEnter(n)], s)
  {
    if s.lock == Free && n > 0 {
      var locked := s.(lock := Tui, tui := Entering(n));
      var saved := locked.(saved := Some(n), tui := Duplicated(n));
      ChainRuns([s, locked, saved, saved.(tuiRefs := n, tui := Referenced(n)),
                 saved.(tuiRefs := n, tui := Outside, tuiEnabled := true)], Enter(n));
    } else if s.lock != Free {
      ChainRuns([s, s], [TuiEnter(n)]);
    }
  }

  /** An attempt to enter that fails after so many references, before or in its own commit. */
  function FailedEnter(n: nat, taken: nat, inCommit: bool): seq<Action> {
    [TuiEnter(n), TuiStep(0, true)]
    + (if inCommit then [TuiStep(n, true), TuiStep(0, false)] else [TuiStep(taken, taken == n)])
    + [TuiStep(0, true), TuiStep(0, true)]
  }

  lemma EnterWithoutState(s: State, n: nat)
    requires Inv(s) && s.tui == Outside && s.lock == Free
    ensures Reaches(s, [TuiEnter(n), TuiStep(0, false), TuiStep(0, true), TuiStep(0, true)], s)
  {
    var locked := s.(lock := Tui, tui := Entering(n));
    ChainRuns([s, locked, locked.(tui := Failing), s.(tui := DroppingRefs), s],
              [TuiEnter(n), TuiStep(0, false), TuiStep(0, true), TuiStep(0, true)]);
  }

  lemma EnterFailsInCommit(s: State, n: nat)
    requires Inv(s) && s.tui == Outside && s.lock == Free && n > 0
    ensures Reaches(s, FailedEnter(n, n, true), s.(saved := None))
  {
    var saved := s.(lock := Tui, saved := Some(n), tui := Duplicated(n));
    var failing := s.(lock := Tui, saved := None, tuiRefs := n, tui := Failing);
    assert FailedEnter(n, n, true)
        == [TuiEnter(n), TuiStep(0, true), TuiStep(n, true), TuiStep(0, false), TuiStep(0, true), TuiStep(0, true)];
    ChainRuns([s, s.(lock := Tui, tui := Entering(n)), saved, saved.(tuiRefs := n, tui := Referenced(n)), failing,
               failing.(lock := Free, tui := DroppingRefs), s.(saved := None)], FailedEnter(n, n, true));
  }

  lemma EnterFailsBefore(s: State, n: nat, taken: nat)
    requires Inv(s) && s.tui == Outside && s.lock == Free && (taken < n || n == taken == 0)
    ensures Reaches(s, FailedEnter(n, taken, false), s.(saved := None))
  {
    var failing := s.(lock := Tui, saved := None, tuiRefs := taken, tui := Failing);
    assert FailedEnter(n, taken, false)
        == [TuiEnter(n), TuiStep(0, true), TuiStep(taken, taken == n), TuiStep(0, true), TuiStep(0, true)];
    ChainRuns([s, s.(lock := Tui, tui := Entering(n)), s.(lock := Tui, saved := Some(n), tui := Duplicated(n)), failing,
               failing.(lock := Free, tui := DroppingRefs), s.(saved := None)], FailedEnter(n, taken, false));
  }

  /** Wherever it fails, it leaves no trace but the forgotten saved state. */
  lemma FailedEnterComesTo(s: State, n: nat, taken: nat, inCommit: bool)
    requires Inv(s) && s.tui == Outside && s.lock == Free
    requires if inCommit then n == taken > 0 else taken < n || n == taken == 0
    ensures Reaches(s, FailedEnter(n, taken, inCommit), s.(saved := None))
    ensures Reaches(s, [TuiEnter(n), TuiStep(0, false), TuiStep(0, true), TuiStep(0, true)], s)
  {
    EnterWithoutState(s, n);
    if inCommit {
      EnterFailsInCommit(s, n);
    } else {
      EnterFailsBefore(s, n, taken);
    }
  }

  /** Leaving gives back lock and references, whether or not the saved state can be restored. */
  lemma ExitComesTo(s: State, ok: bool)
    requires Inv(s) && s.tuiEnabled
    ensures Reaches(s, [TuiExit, TuiStep(0, ok), TuiStep(0, true)],
                    s.(lock := Free, tuiEnabled := false, tuiRefs := 0, saved := if ok then None else s.saved))
  {
    var restoring := s.(tuiEnabled := false, tui := Restoring);
    var restored := restoring.(tuiRefs := 0, saved := if ok then None else s.saved, tui := Restored);
    ChainRuns([s, restoring, restored, restored.(lock := Free, tui := Outside)],
              [TuiExit, TuiStep(0, ok), TuiStep(0, true)]);
  }

  predicate WithoutPlug(run: seq<Action>) {
    forall a :: a in run ==> a != StartPlug
  }

  /** Nobody uses a DP that has not been plugged in. */
  lemma {:induction false} UnusedStaysUnused(s: State, run: seq<Action>)
    requires s.usage == s.transient == 0 && s.worker == Idle && Runs(s, run) && WithoutPlug(run)
    ensures After(s, run).usage == After(s, run).transient == 0 && After(s, run).worker == Idle
    decreases |run|
  {
    if run != [] {
      assert run[0] in run && forall a :: a in run[1..] ==> a in run;
      UnusedStaysUnused(Do(s, run[0]), run[1..]);
    }
  }

  // ---------------------------------------------------------------------
  // Unplugging on someone else's reference
  // ---------------------------------------------------------------------

  const Unplug: seq<Action> := [StartUnplug, Step, Step, Step, Step]

  lemma UnplugFirstHalf(s: State)
    requires s.worker == Idle && s.usage > 0
    ensures Leads(s, StartUnplug, s.(usage := s.usage + 1, worker := UnplugHeld))
    ensures Leads(s.(usage := s.usage + 1, worker := UnplugHeld), Step, s.(worker := UnplugPut))
    ensures Leads(s.(worker := UnplugPut), Step, s.(usage := s.usage - 1, worker := UnplugUnpowered))
  {
  }

  lemma UnplugSecondHalf(s: State)
    requires s.worker == UnplugUnpowered
    ensures Leads(s, Step, s.(awake := false, worker := UnplugRelaxed))
    ensures Leads(s.(awake := false, worker := UnplugRelaxed), Step, s.(awake := false, lock := Free, worker := Idle))
  {
  }

  /** Effect of an undisturbed unplug that finds the DP in use. */
  lemma UnplugEffect(s: State)
    requires s.worker == Idle && s.usage > 0
    ensures Runs(s, Unplug)
    ensures After(s, Unplug) == s.(usage := s.usage - 1, awake := false, lock := Free)
  {
    var s3 := s.(usage := s.usage - 1, worker := UnplugUnpowered);
    UnplugFirstHalf(s);
    UnplugSecondHalf(s3);
    ChainRuns([s, s.(usage := s.usage + 1, worker := UnplugHeld), s.(worker := UnplugPut), s3,
               s3.(awake := false, worker := UnplugRelaxed), s.(usage := s.usage - 1, awake := false, lock := Free)],
              Unplug);
  }

  /** A whole unplug work from its start, with nothing in between. */
  function WholeUnplug(s: State): seq<Action> {
    if s.usage == 0 then [StartUnplug] else Unplug
  }

  /** A whole unplug leaves everything in order exactly if the DP was plugged in or nobody else held a
      reference; otherwise it takes away a reference that is not its own and releases whoever's lock. */
  lemma UnplugIsSafeExactlyWhen(s: State)
    requires Inv(s) && s.worker == Idle
    ensures Runs(s, WholeUnplug(s))
    ensures Inv(After(s, WholeUnplug(s))) <==> s.lock == Dp || s.transient == 0
  {
    if s.usage > 0 {
      UnplugEffect(s);
    } else {
      assert Leads(s, StartUnplug, s);
      ChainRuns([s, s], [StartUnplug]);
    }
  }

  /** How far it can go: a user that outlives one unplug lets the next one open the trusted UI's lock. */
  lemma StrayReferenceOpensTuiLock(s: State)
    requires Inv(s) && s.worker == Idle && s.tuiEnabled && s.transient > 0
    ensures Runs(s, Unplug)
    ensures var t := After(s, Unplug);
            && t.tuiEnabled && t.lock == Free && t.usage < t.transient
            && t.worker == Idle && Do(t, StartPlug).lock == Dp && Do(t, StartPlug).tuiEnabled
  {
    UnplugEffect(s);
  }

  lemma {:induction false} RunsThen(s: State, first: seq<Action>, second: seq<Action>)
    requires Runs(s, first) && Runs(After(s, first), second)
    ensures Runs(s, first + second) && After(s, first + second) == After(After(s, first), second)
    ensures CleanRun(s, first) && CleanRun(After(s, first), second) ==> CleanRun(s, first + second)
    decreases |first|
  {
    if first == [] {
      assert first + second == second;
    } else {
      assert (first + second)[1..] == first[1..] + second;
      RunsThen(Do(s, first[0]), first[1..], second);
    }
  }

  const PlugAndUse: seq<Action> := [StartPlug, Step, Step, Step, TransientBegin]

  lemma PlugAndUseRuns()
    ensures Runs(Boot(), PlugAndUse) && CleanRun(Boot(), PlugAndUse)
    ensures After(Boot(), PlugAndUse) == State(Dp, 2, 1, true, Idle, Outside, false, None, 0)
  {
    ChainRuns([Boot(),
               State(Dp, 0, 0, false, PlugLocked, Outside, false, None, 0),
               State(Dp, 0, 0, true, PlugAwake, Outside, false, None, 0),
               State(Dp, 1, 0, true, PlugPowered, Outside, false, None, 0),
               State(Dp, 1, 0, true, Idle, Outside, false, None, 0),
               State(Dp, 2, 1, true, Idle, Outside, false, None, 0)], PlugAndUse);
  }

  lemma StragglerStays()
    ensures var s := State(Dp, 2, 1, true, Idle, Outside, false, None, 0);
            && Runs(s, Unplug) && CleanRun(s, Unplug)
            && After(s, Unplug) == State(Free, 1, 1, false, Idle, Outside, false, None, 0)
  {
    ChainRuns([State(Dp, 2, 1, true, Idle, Outside, false, None, 0),
               State(Dp, 3, 1, true, UnplugHeld, Outside, false, None, 0),
               State(Dp, 2, 1, true, UnplugPut, Outside, false, None, 0),
               State(Dp, 1, 1, true, UnplugUnpowered, Outside, false, None, 0),
               State(Dp, 1, 1, false, UnplugRelaxed, Outside, false, None, 0),
               State(Free, 1, 1, false, Idle, Outside, false, None, 0)], Unplug);
  }

  lemma EnterRuns()
    ensures var s := State(Free, 1, 1, false, Idle, Outside, false, None, 0);
            && Runs(s, Enter(1)) && CleanRun(s, Enter(1))
            && After(s, Enter(1)) == State(Tui, 1, 1, false, Idle, Outside, true, Some(1), 1)
  {
    ChainRuns([State(Free, 1, 1, false, Idle, Outside, false, None, 0),
               State(Tui, 1, 1, false, Idle, Entering(1), false, None, 0),
               State(Tui, 1, 1, false, Idle, Duplicated(1), false, Some(1), 0),
               State(Tui, 1, 1, false, Idle, Referenced(1), false, Some(1), 1),
               State(Tui, 1, 1, false, Idle, Outside, true, Some(1), 1)], Enter(1));
  }

  /** Plug, a user that takes a reference, unplug, and the trusted UI entered while the user goes on: a run in
      perfect order leads to the state above. */
  lemma StragglerRuns()
    ensures Runs(Boot(), PlugAndUse + (Unplug + Enter(1))) && CleanRun(Boot(), PlugAndUse + (Unplug + Enter(1)))
    ensures After(Boot(), PlugAndUse + (Unplug + Enter(1))) == State(Tui, 1, 1, false, Idle, Outside, true, Some(1), 1)
  {
    PlugAndUseRuns();
    StragglerStays();
    EnterRuns();
    RunsThen(State(Dp, 2, 1, true, Idle, Outside, false, None, 0), Unplug, Enter(1));
    RunsThen(Boot(), PlugAndUse, Unplug + Enter(1));
  }
}
