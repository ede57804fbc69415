/**
 The hibernation block protocol.

 Any number of threads block and unblock hibernation; a delayed work item, run
 by a single worker thread, puts the display to sleep when nobody blocks; system
 suspend does the same from a thread of its own.  Every atomic operation of the
 driver is one action here, every place where a thread can be interrupted is a
 program counter, and a run is any interleaving.

 The delayed work follows the kernel's kthread worker: `mod_delayed_work` starts
 the timer anew unless a cancel is waiting, a cancel removes timer and queue
 entry and, if the handler is running, waits for it while blocking requeues.
 */
module Hibernation {

  datatype DeconState = Init | On | Hibernating | Off | Handover

  /** A session of one thread: block (maybe synchronously), hold, unblock_enter. */
  datatype UserPc =
    | Idle
    | StoreEnabled                 // the debug switch has enabled hibernation and is about to block
    | Arm(sync: bool)              // counted, about to push out the work
    | AskEnabled                   // synchronous block: about to test whether hibernation is enabled
    | CancelBlock                  // about to take the inner block of the cancel
    | CancelArm                    // inner block counted, about to push out the work
    | Cancel                       // about to cancel the work
    | CancelWait                   // waiting for the running handler
    | CancelUnblock                // about to drop the inner block
    | Held(exclusive: bool)        // blocked; exclusive after a completed cancel
    | ReadEnabled | ReadCount | ReadState   // unblock_enter, after the decrement
    | Rearm                        // found nothing blocking, about to start the timer

  datatype HandlerPc =
    | Resting
    | Lock                         // about to take the hibernation lock
    | TestEnabled | TestCount | TestState   // reading the three blocking conditions
    | Check                        // about to ask for camera and dimming
    | Requeue                      // condition not met, lock released, about to restart the timer
    | Block                        // about to count itself
    | BlockArm                     // counted, about to push out the work
    | Enter                        // inside the self-refresh commit
    | Done                         // decided, about to return

  /** System suspend: cancel the work, flush the worker, then the handler's own tests. */
  datatype SuspendPc =
    | NoSuspend
    | WorkCancel                   // about to cancel the work, holding no block
    | WorkWait                     // waiting for the running handler
    | Flush                        // waiting for the worker to be flushed
    | AskCount                     // about to look at the counter before locking
    | TakeLock
    | AskEnabled | AskBlocks | AskState     // the three blocking conditions, locked
    | AskCheck                     // camera and dimming
    | TakeBlock | ArmBlock         // counting itself and pushing out the work
    | Suspending                   // inside the self-refresh commit

  /** The delayed work, how many cancels wait for its handler, and a record that it has been cancelled with no
      start of the timer since. */
  datatype Work = Work(timer: bool, queued: bool, canceling: nat, cleared: bool)

  /** `told` records that the last suspend got as far as its check and has returned. */
  datatype State = State(
    usable: bool,                  // enabled and in command mode
    decon: DeconState,
    blockCnt: nat,
    work: Work,
    handler: HandlerPc,
    users: seq<UserPc>,
    suspend: SuspendPc,
    told: bool)

  datatype Action =
    | BeginBlock(u: nat, sync: bool)
    | BeginStoreEnable(u: nat)
    | UserStep(u: nat)
    | BeginUnblock(u: nat)
    | HolderSets(u: nat, usable: bool, decon: DeconState)
    | DeconLeaves(decon: DeconState)
    | TimerFires
    | WorkerPicks
    | HandlerStep(conditionMet: bool)
    | BeginSuspend
    | SuspendStep(conditionMet: bool)

  // ---------------------------------------------------------------------
  // Transitions
  // ---------------------------------------------------------------------

  /** `kthread_mod_delayed_work` with a positive delay. */
  function Modified(w: Work): Work {
    if w.canceling > 0 then w else Work(true, false, 0, false)
  }

  /** `kthread_cancel_delayed_work_sync`, up to the wait for a running handler. */
  function Removed(w: Work, running: bool): Work {
    Work(false, false, if running then w.canceling + 1 else w.canceling, true)
  }

  function Waited(w: Work): Work
    requires w.canceling > 0
  {
    w.(canceling := w.canceling - 1)
  }

  predicate Blocked(s: State) {
    !s.usable || s.blockCnt > 0 || s.decon != On
  }

  /** Between taking and releasing the hibernation lock. */
  predicate HandlerLocked(pc: HandlerPc) {
    || pc == TestEnabled || pc == TestCount || pc == TestState || pc == Check
    || pc == Block || pc == BlockArm || pc == Enter
  }

  predicate SuspendLocked(pc: SuspendPc) {
    || pc == SuspendPc.AskEnabled || pc == AskBlocks || pc == AskState || pc == AskCheck
    || pc == TakeBlock || pc == ArmBlock || pc == Suspending
  }

  predicate CanDo(s: State, a: Action) {
    match a
    case BeginBlock(u, _) => u < |s.users| && s.users[u] == Idle
    case BeginStoreEnable(u) => u < |s.users| && s.users[u] == Idle
    case UserStep(u) => u < |s.users| && s.users[u] != Idle && !s.users[u].Held?
                        && (s.users[u] == CancelWait ==> s.handler == Resting && s.work.canceling > 0)
    case BeginUnblock(u) => u < |s.users| && s.users[u].Held?
    // display commits, which switch the DECON on or change its mode, hold a block
    case HolderSets(u, _, _) => u < |s.users| && s.users[u].Held?
    case DeconLeaves(d) => d != On
    case TimerFires => s.work.timer
    case WorkerPicks => s.work.queued && s.handler == Resting
    case HandlerStep(_) => s.handler != Resting && (s.handler == Lock ==> !SuspendLocked(s.suspend))
    case BeginSuspend => s.suspend == NoSuspend
    case SuspendStep(_) =>
      && s.suspend != NoSuspend
      && (s.suspend == WorkWait ==> s.handler == Resting && s.work.canceling > 0)
      && (s.suspend == TakeLock ==> !HandlerLocked(s.handler))
  }

  /** `atomic_add_unless(&block_cnt, -1, 0)`. */
  function Decremented(n: nat): nat {
    if n == 0 then 0 else n - 1
  }

  /** What a thread at `pc` leaves in counter and work, and where it goes next. */
  function UserEffect(s: State, pc: UserPc): (nat, Work, UserPc)
    requires pc != Idle && !pc.Held?
    requires pc == CancelWait ==> s.work.canceling > 0
  {
    match pc
    case StoreEnabled => (s.blockCnt + 1, s.work, Arm(false))
    case Arm(sync) => (s.blockCnt, Modified(s.work), if sync then UserPc.AskEnabled else Held(false))
    case AskEnabled => (s.blockCnt, s.work, if s.usable then CancelBlock else Held(false))
    case CancelBlock => (s.blockCnt + 1, s.work, CancelArm)
    case CancelArm => (s.blockCnt, Modified(s.work), Cancel)
    case Cancel =>
      (s.blockCnt, Removed(s.work, s.handler != Resting), if s.handler == Resting then CancelUnblock else CancelWait)
    case CancelWait => (s.blockCnt, Waited(s.work), CancelUnblock)
    case CancelUnblock => (Decremented(s.blockCnt), s.work, Held(true))
    case ReadEnabled => (s.blockCnt, s.work, if s.usable then ReadCount else Idle)
    case ReadCount => (s.blockCnt, s.work, if s.blockCnt > 0 then Idle else ReadState)
    case ReadState => (s.blockCnt, s.work, if s.decon == On then Rearm else Idle)
    case Rearm => (s.blockCnt, Modified(s.work), Idle)
  }

  function HandlerEffect(s: State, conditionMet: bool): (nat, Work, HandlerPc)
    requires s.handler != Resting
  {
    match s.handler
    case Lock => (s.blockCnt, s.work, TestEnabled)
    case TestEnabled => (s.blockCnt, s.work, if s.usable then TestCount else Done)
    case TestCount => (s.blockCnt, s.work, if s.blockCnt > 0 then Done else TestState)
    case TestState => (s.blockCnt, s.work, if s.decon == On then Check else Done)
    case Check => (s.blockCnt, s.work, if conditionMet then Block else Requeue)
    case Requeue => (s.blockCnt, Modified(s.work), Done)
    case Block => (s.blockCnt + 1, s.work, BlockArm)
    case BlockArm => (s.blockCnt, Modified(s.work), Enter)
    case Enter => (Decremented(s.blockCnt), s.work, Done)
    case Done => (s.blockCnt, s.work, Resting)
  }

  /** The flush may end at any time, which allows more runs than the worker does. */
  function SuspendEffect(s: State, conditionMet: bool): (nat, Work, SuspendPc)
    requires CanDo(s, SuspendStep(conditionMet))
  {
    match s.suspend
    case WorkCancel =>
      (s.blockCnt, Removed(s.work, s.handler != Resting), if s.handler == Resting then Flush else WorkWait)
    case WorkWait => (s.blockCnt, Waited(s.work), Flush)
    case Flush => (s.blockCnt, s.work, AskCount)
    case AskCount => (s.blockCnt, s.work, if s.blockCnt > 0 then NoSuspend else TakeLock)
    case TakeLock => (s.blockCnt, s.work, SuspendPc.AskEnabled)
    case AskEnabled => (s.blockCnt, s.work, if s.usable then AskBlocks else NoSuspend)
    case AskBlocks => (s.blockCnt, s.work, if s.blockCnt > 0 then NoSuspend else AskState)
    case AskState => (s.blockCnt, s.work, if s.decon == On then AskCheck else NoSuspend)
    case AskCheck => (s.blockCnt, s.work, if conditionMet then TakeBlock else NoSuspend)
    case TakeBlock => (s.blockCnt + 1, s.work, ArmBlock)
    case ArmBlock => (s.blockCnt, Modified(s.work), Suspending)
    case Suspending => (Decremented(s.blockCnt), s.work, NoSuspend)
  }

  /** A suspend that cancels has been told nothing yet; one that returns from its check or from entry has. */
  function Told(s: State, next: SuspendPc): bool {
    s.suspend != WorkCancel && (s.told || (next == NoSuspend && (s.suspend == AskCheck || s.suspend == Suspending)))
  }

  function Do(s: State, a: Action): State
    requires CanDo(s, a)
  {
    match a
    case BeginBlock(u, sync) => s.(blockCnt := s.blockCnt + 1, users := s.users[u := Arm(sync)])
    case BeginStoreEnable(u) => s.(usable := true, users := s.users[u := StoreEnabled])
    case UserStep(u) =>
      var (n, work, pc) := UserEffect(s, s.users[u]);
      s.(blockCnt := n, work := work, users := s.users[u := pc])
    case BeginUnblock(u) => s.(blockCnt := Decremented(s.blockCnt), users := s.users[u := ReadEnabled])
    case HolderSets(_, usable, decon) => s.(usable := usable, decon := decon)
    case DeconLeaves(d) => s.(decon := d)
    case TimerFires => s.(work := s.work.(timer := false, queued := true))
    case WorkerPicks => s.(work := s.work.(queued := false), handler := Lock)
    case HandlerStep(met) =>
      var (n, work, pc) := HandlerEffect(s, met);
      s.(blockCnt := n, work := work, handler := pc)
    case BeginSuspend => s.(suspend := WorkCancel)
    case SuspendStep(met) =>
      var (n, work, pc) := SuspendEffect(s, met);
      s.(blockCnt := n, work := work, suspend := pc, told := Told(s, pc))
  }

  predicate Runs(s: State, run: seq<Action>)
    decreases |run|
  {
    run == [] || (CanDo(s, run[0]) && Runs(Do(s, run[0]), run[1..]))
  }

  function After(s: State, run: seq<Action>): State
    requires Runs(s, run)
    decreases |run|
  {
    if run == [] then s else After(Do(s, run[0]), run[1..])
  }

  function Boot(usable: bool, decon: DeconState, threads: nat): State {
    State(usable, decon, 0, Work(false, false, 0, false), Resting, seq(threads, _ => Idle), NoSuspend, false)
  }

  // ---------------------------------------------------------------------
  // Accounting
  // ---------------------------------------------------------------------

  /** How many blocks a thread holds at a program counter. */
  function Holding(pc: UserPc): nat {
    match pc
    case Arm(_) => 1
    case AskEnabled => 1
    case CancelBlock => 1
    case CancelArm => 2
    case Cancel => 2
    case CancelWait => 2
    case CancelUnblock => 2
    case Held(_) => 1
    case _ => 0
  }

  function HandlerHolding(pc: HandlerPc): nat {
    if pc == BlockArm || pc == Enter then 1 else 0
  }

  function SuspendHolding(pc: SuspendPc): nat {
    if pc == ArmBlock || pc == Suspending then 1 else 0
  }

  function Waiting(pc: UserPc): nat {
    if pc == CancelWait then 1 else 0
  }

  function Holders(users: seq<UserPc>): nat {
    if |users| == 0 then 0 else Holders(users[..|users| - 1]) + Holding(users[|users| - 1])
  }

  function Waiters(users: seq<UserPc>): nat {
    if |users| == 0 then 0
    else Waiters(users[..|users| - 1]) + if users[|users| - 1] == CancelWait then 1 else 0
  }

  lemma {:induction false} CountsAfterMove(users: seq<UserPc>, u: nat, pc: UserPc)
    requires u < |users|
    ensures Holders(users[u := pc]) == Holders(users) - Holding(users[u]) + Holding(pc)
    ensures Waiters(users[u := pc]) == Waiters(users) - (if users[u] == CancelWait then 1 else 0)
                                       + (if pc == CancelWait then 1 else 0)
    ensures Holders(users) >= Holding(users[u]) + 2 * Waiters(users) - (if users[u] == CancelWait then 2 else 0)
  {
    var n := |users| - 1;
    if u == n {
      assert users[u := pc][..n] == users[..n];
      WaitersHold(users[..n]);
    } else {
      assert users[u := pc][..n] == users[..n][u := pc];
      CountsAfterMove(users[..n], u, pc);
    }
  }

  lemma {:induction false} WaitersHold(users: seq<UserPc>)
    ensures Holders(users) >= 2 * Waiters(users)
  {
    if |users| > 0 {
      WaitersHold(users[..|users| - 1]);
    }
  }

  // ---------------------------------------------------------------------
  // Invariant
  // ---------------------------------------------------------------------

  /** Has not decided yet and will act on what it reads. */
  predicate Undecided(pc: HandlerPc) {
    pc == Lock || pc == TestEnabled || pc == TestCount || pc == TestState || pc == Check || pc == Requeue || pc == Block
  }

  /** In the middle of a call, holding no block, with the timer decision still ahead. */
  predicate MidCall(pc: UserPc) {
    pc == StoreEnabled || pc == ReadEnabled || pc == ReadCount || pc == ReadState || pc == Rearm
  }

  predicate SomeoneMidCall(s: State) {
    exists u :: 0 <= u < |s.users| && MidCall(s.users[u])
  }

  predicate Excludes(pc: UserPc) {
    pc == CancelUnblock || pc == Held(true)
  }

  /** A finished synchronous block keeps the handler from passing its count test. */
  predicate HandlerKeptOut(s: State) {
    s.handler == Resting || s.handler == Lock || s.handler == TestEnabled || s.handler == TestCount || s.handler == Done
  }

  predicate Counted(s: State) {
    && s.blockCnt == Holders(s.users) + HandlerHolding(s.handler) + SuspendHolding(s.suspend)
    && s.work.canceling == Waiters(s.users) + (if s.suspend == WorkWait then 1 else 0)
    && !(HandlerLocked(s.handler) && SuspendLocked(s.suspend))
  }

  predicate Scheduled(s: State) {
    && (s.work.canceling > 0 ==> s.work.cleared)
    && (s.work.cleared ==> !s.work.timer && !s.work.queued && (s.handler == Resting || s.work.canceling > 0))
    && (s.handler == Enter ==> s.work.timer || s.work.queued || s.work.canceling > 0)
    && (s.suspend == Suspending && !s.work.cleared ==> s.work.timer || s.work.queued || Undecided(s.handler))
  }

  /** Blocked by anything but the block that suspend holds itself. */
  predicate BlockedByOthers(s: State) {
    !s.usable || s.blockCnt > SuspendHolding(s.suspend) || s.decon != On
  }

  /** Past its cancel and still to decide. */
  predicate SuspendOpen(pc: SuspendPc) {
    pc != NoSuspend && pc != WorkCancel
  }

  /** What excuses an idle timer: a suspend that is deciding or has decided since the work was cancelled. */
  predicate Excused(s: State) {
    s.suspend == ArmBlock || (s.work.cleared && (s.told || SuspendOpen(s.suspend)))
  }

  predicate Pending(s: State) {
    s.work.timer || s.work.queued || Undecided(s.handler)
  }

  predicate Awake(s: State) {
    !BlockedByOthers(s) ==> Pending(s) || SomeoneMidCall(s) || Excused(s)
  }

  predicate Excluded(s: State) {
    forall u :: 0 <= u < |s.users| && Excludes(s.users[u]) ==> HandlerKeptOut(s)
  }

  predicate Inv(s: State) {
    Counted(s) && Scheduled(s) && Awake(s) && Excluded(s)
  }

  lemma {:induction false} NobodyHolds(users: seq<UserPc>)
    requires forall u :: 0 <= u < |users| ==> users[u] == Idle
    ensures Holders(users) == 0 && Waiters(users) == 0
  {
    if |users| > 0 {
      NobodyHolds(users[..|users| - 1]);
    }
  }

  /** A mid-call thread other than `u` stays mid-call when `u` moves. */
  lemma MidCallAfterMove(s: State, t: State, u: nat, pc: UserPc)
    requires u < |s.users| && t.users == s.users[u := pc]
    ensures MidCall(pc) ==> SomeoneMidCall(t)
    ensures SomeoneMidCall(s) && !MidCall(s.users[u]) ==> SomeoneMidCall(t)
  {
    if MidCall(pc) {
      assert MidCall(t.users[u]);
    }
    if SomeoneMidCall(s) && !MidCall(s.users[u]) {
      var v :| 0 <= v < |s.users| && MidCall(s.users[v]);
      assert t.users[v] == s.users[v];
    }
  }

  /** A waiting cancel holds blocks, unless it is the suspend's own. */
  lemma CancelersBlock(s: State)
    requires Counted(s)
    ensures s.work.canceling > 0 ==> s.suspend == WorkWait || BlockedByOthers(s)
  {
    WaitersHold(s.users);
  }

  // ---------------------------------------------------------------------
  // Threads that block and unblock
  // ---------------------------------------------------------------------

  /** What a step adds to the block counter and to the waiting cancels. */
  lemma UserEffectDeltas(s: State, pc: UserPc)
    requires pc != Idle && !pc.Held? && (pc == CancelWait ==> s.work.canceling > 0)
    requires s.blockCnt >= Holding(pc)
    ensures var (n, work, next) := UserEffect(s, pc);
            && n == s.blockCnt - Holding(pc) + Holding(next)
            && work.canceling == s.work.canceling - Waiting(pc) + Waiting(next)
            && (Holding(next) == 0 ==> Holding(pc) == 0)
            && (Excludes(next) ==> pc == CancelUnblock || pc == CancelWait || s.handler == Resting)
  {
  }

  /** A step never unschedules the work, except by a cancel, which still holds two blocks. */
  lemma UserEffectSchedule(s: State, pc: UserPc)
    requires Scheduled(s) && pc != Idle && !pc.Held?
    requires pc == CancelWait ==> s.work.canceling > 0 && s.handler == Resting
    ensures var (n, work, next) := UserEffect(s, pc);
            var t := s.(work := work);
            && Scheduled(t)
            && (pc != Cancel ==> (Pending(s) ==> Pending(t)) && (work.cleared == s.work.cleared || work.timer))
            && (pc == Cancel ==> work.cleared && Holding(next) == 2)
  {
  }

  lemma UserStepKeepsCounts(s: State, u: nat)
    requires Counted(s) && Scheduled(s) && CanDo(s, UserStep(u))
    ensures Counted(Do(s, UserStep(u))) && Scheduled(Do(s, UserStep(u)))
  {
    var (_, _, pc) := UserEffect(s, s.users[u]);
    CountsAfterMove(s.users, u, pc);
    UserEffectDeltas(s, s.users[u]);
    UserEffectSchedule(s, s.users[u]);
  }

  /** A thread leaves the middle of a call only after finding something blocking or after scheduling. */
  lemma MidCallEnds(s: State, pc: UserPc)
    requires Counted(s) && Scheduled(s) && MidCall(pc)
    ensures var (n, work, next) := UserEffect(s, pc);
            var t := s.(blockCnt := n, work := work);
            MidCall(next) || BlockedByOthers(t) || Pending(t) || Excused(t)
  {
    CancelersBlock(s);
  }

  lemma UserStepKeepsAwake(s: State, u: nat)
    requires Counted(s) && Scheduled(s) && Awake(s) && CanDo(s, UserStep(u))
    ensures Awake(Do(s, UserStep(u)))
  {
    var was := s.users[u];
    var (n, work, pc) := UserEffect(s, was);
    var t := s.(blockCnt := n, work := work, users := s.users[u := pc]);
    CountsAfterMove(s.users, u, pc);
    UserEffectDeltas(s, was);
    MidCallAfterMove(s, t, u, pc);
    WaitersHold(s.users);
    if MidCall(was) {
      MidCallEnds(s, was);
    } else {
      assert Holding(was) >= 1 && BlockedByOthers(s);
      assert Holding(pc) >= 1 && BlockedByOthers(t);
    }
  }

  lemma UserStepKeepsExclusion(s: State, u: nat)
    requires Counted(s) && Excluded(s) && CanDo(s, UserStep(u))
    ensures Excluded(Do(s, UserStep(u)))
  {
    var (n, work, pc) := UserEffect(s, s.users[u]);
    var t := s.(blockCnt := n, work := work, users := s.users[u := pc]);
    CountsAfterMove(s.users, u, pc);
    UserEffectDeltas(s, s.users[u]);
    forall v | 0 <= v < |t.users| && Excludes(t.users[v]) ensures HandlerKeptOut(t) {
      if v != u {
        assert Excludes(s.users[v]);
      }
    }
  }

  lemma UserStepKeepsInv(s: State, u: nat)
    requires Inv(s) && CanDo(s, UserStep(u))
    ensures Inv(Do(s, UserStep(u)))
  {
    UserStepKeepsCounts(s, u);
    UserStepKeepsAwake(s, u);
    UserStepKeepsExclusion(s, u);
  }

  /** Starting or ending a session: thread `u` goes from `s` to `t`, and only counter and readiness change. */
  lemma SessionEdge(s: State, t: State, u: nat, pc: UserPc)
    requires Inv(s) && u < |s.users| && Waiting(s.users[u]) == 0 && Waiting(pc) == 0
    requires t == s.(usable := t.usable, blockCnt := t.blockCnt, users := s.users[u := pc])
    requires t.blockCnt == s.blockCnt - Holding(s.users[u]) + Holding(pc)
    requires MidCall(pc) || BlockedByOthers(t)
    requires !Excludes(pc) && !MidCall(s.users[u])
    ensures Inv(t)
  {
    CountsAfterMove(s.users, u, pc);
    MidCallAfterMove(s, t, u, pc);
    forall v | 0 <= v < |t.users| && Excludes(t.users[v]) ensures HandlerKeptOut(t) {
      assert v != u ==> t.users[v] == s.users[v];
    }
  }

  lemma BeginBlockKeepsInv(s: State, u: nat, sync: bool)
    requires Inv(s) && CanDo(s, BeginBlock(u, sync))
    ensures Inv(Do(s, BeginBlock(u, sync)))
  {
    CountsAfterMove(s.users, u, Arm(sync));
    SessionEdge(s, Do(s, BeginBlock(u, sync)), u, Arm(sync));
  }

  lemma BeginStoreEnableKeepsInv(s: State, u: nat)
    requires Inv(s) && CanDo(s, BeginStoreEnable(u))
    ensures Inv(Do(s, BeginStoreEnable(u)))
  {
    SessionEdge(s, Do(s, BeginStoreEnable(u)), u, StoreEnabled);
  }

  lemma BeginUnblockKeepsInv(s: State, u: nat)
    requires Inv(s) && CanDo(s, BeginUnblock(u))
    ensures Inv(Do(s, BeginUnblock(u)))
  {
    CountsAfterMove(s.users, u, ReadEnabled);
    SessionEdge(s, Do(s, BeginUnblock(u)), u, ReadEnabled);
  }

  // ---------------------------------------------------------------------
  // The work handler
  // ---------------------------------------------------------------------

  /** A completed synchronous block is counted. */
  lemma ExcludersCount(s: State, u: nat)
    requires Counted(s) && u < |s.users| && Excludes(s.users[u])
    ensures s.blockCnt > 0
  {
    WaitersHold(s.users);
    CountsAfterMove(s.users, u, s.users[u]);
  }

  /** The state after `kthread_mod_delayed_work`. */
  function Rearmed(s: State): State {
    s.(work := Modified(s.work))
  }

  lemma RearmedKeepsInv(s: State)
    requires Inv(s)
    ensures Inv(Rearmed(s)) && (Rearmed(s).work.timer || (s.work.canceling > 0 && Rearmed(s) == s))
  {
    var t := Rearmed(s);
    assert t.users == s.users && (SomeoneMidCall(s) ==> SomeoneMidCall(t));
    assert HandlerKeptOut(s) ==> HandlerKeptOut(t);
  }

  /** Something is scheduled, or a cancel is waiting for the handler. */
  predicate TimerOrCancel(s: State) {
    s.work.timer || s.work.queued || s.work.canceling > 0
  }

  /** The running handler goes to `h` and changes nothing else. */
  lemma HandlerMove(s: State, h: HandlerPc)
    requires Inv(s) && s.handler != Resting && HandlerHolding(h) == HandlerHolding(s.handler)
    requires HandlerLocked(h) ==> HandlerLocked(s.handler) || !SuspendLocked(s.suspend)
    requires h == Enter ==> TimerOrCancel(s)
    requires Undecided(s.handler) && !Undecided(h) ==>
               TimerOrCancel(s) || (BlockedByOthers(s) && HandlerLocked(s.handler))
    requires HandlerKeptOut(s) && !HandlerKeptOut(s.(handler := h)) ==> s.blockCnt == 0
    ensures Inv(s.(handler := h))
  {
    var t := s.(handler := h);
    CancelersBlock(s);
    assert SomeoneMidCall(s) ==> SomeoneMidCall(t);
    forall u | 0 <= u < |t.users| && Excludes(t.users[u]) ensures HandlerKeptOut(t) {
      ExcludersCount(s, u);
    }
  }

  lemma HandlerCounts(s: State)
    requires Inv(s) && s.handler == Block
    ensures Inv(s.(blockCnt := s.blockCnt + 1, handler := BlockArm))
  {
    var t := s.(blockCnt := s.blockCnt + 1, handler := BlockArm);
    assert forall u :: 0 <= u < |s.users| ==> !Excludes(s.users[u]);
    assert t.users == s.users;
  }

  lemma HandlerUncounts(s: State)
    requires Inv(s) && s.handler == Enter
    ensures Inv(s.(blockCnt := s.blockCnt - 1, handler := Done))
  {
    var t := s.(blockCnt := s.blockCnt - 1, handler := Done);
    CancelersBlock(s);
    assert Counted(t) && Scheduled(t);
    assert s.work.canceling > 0 ==> s.suspend == WorkWait || BlockedByOthers(t) by {
      WaitersHold(s.users);
    }
    assert Awake(t);
  }

  lemma HandlerTests(s: State, met: bool)
    requires Inv(s) && CanDo(s, HandlerStep(met))
    requires s.handler == TestEnabled || s.handler == TestCount || s.handler == TestState
    ensures Do(s, HandlerStep(met)) == s.(handler := HandlerEffect(s, met).2)
    ensures Inv(s.(handler := HandlerEffect(s, met).2))
  {
    match s.handler
    case TestEnabled => HandlerMove(s, if s.usable then TestCount else Done);
    case TestCount => HandlerMove(s, if s.blockCnt > 0 then Done else TestState);
    case TestState => HandlerMove(s, if s.decon == On then Check else Done);
  }

  lemma HandlerRest(s: State, met: bool)
    requires Inv(s) && CanDo(s, HandlerStep(met))
    requires s.handler == Lock || s.handler == Check || s.handler == Done
    ensures Do(s, HandlerStep(met)) == s.(handler := HandlerEffect(s, met).2)
    ensures Inv(s.(handler := HandlerEffect(s, met).2))
  {
    match s.handler
    case Lock => HandlerMove(s, TestEnabled);
    case Check => HandlerMove(s, if met then Block else Requeue);
    case Done => HandlerMove(s, Resting);
  }

  lemma HandlerRearms(s: State, next: HandlerPc)
    requires Inv(s) && (if s.handler == Requeue then next == Done else s.handler == BlockArm && next == Enter)
    ensures Inv(s.(work := Modified(s.work), handler := next))
  {
    RearmedKeepsInv(s);
    HandlerMove(Rearmed(s), next);
  }

  /** The steps that start the timer or count. */
  lemma HandlerActs(s: State, met: bool)
    requires Inv(s) && CanDo(s, HandlerStep(met))
    requires s.handler == Requeue || s.handler == BlockArm || s.handler == Block || s.handler == Enter
    ensures Inv(Do(s, HandlerStep(met)))
  {
    if s.handler == Block {
      HandlerCounts(s);
    } else if s.handler == Enter {
      HandlerUncounts(s);
    } else {
      HandlerRearms(s, if s.handler == Requeue then Done else Enter);
    }
  }

  lemma HandlerStepKeepsInv(s: State, met: bool)
    requires Inv(s) && CanDo(s, HandlerStep(met))
    ensures Inv(Do(s, HandlerStep(met)))
  {
    if s.handler == Requeue || s.handler == BlockArm || s.handler == Block || s.handler == Enter {
      HandlerActs(s, met);
    } else if s.handler == Lock || s.handler == Check || s.handler == Done {
      HandlerRest(s, met);
    } else {
      HandlerTests(s, met);
    }
  }

  // ---------------------------------------------------------------------
  // Suspend
  // ---------------------------------------------------------------------

  /** The suspend goes to `pc` and changes nothing but what it was told. */
  lemma SuspendMove(s: State, pc: SuspendPc, told: bool)
    requires Inv(s) && SuspendHolding(pc) == SuspendHolding(s.suspend) && s.suspend != WorkWait && pc != WorkWait
    requires SuspendLocked(pc) ==> SuspendLocked(s.suspend) || !HandlerLocked(s.handler)
    requires pc == Suspending ==> TimerOrCancel(s)
    requires Excused(s) && !Excused(s.(suspend := pc, told := told)) ==> BlockedByOthers(s) || TimerOrCancel(s)
    ensures Inv(s.(suspend := pc, told := told))
  {
    var t := s.(suspend := pc, told := told);
    CancelersBlock(s);
    assert SomeoneMidCall(s) ==> SomeoneMidCall(t);
    assert HandlerKeptOut(s) ==> HandlerKeptOut(t);
  }

  lemma SuspendCancels(s: State)
    requires Inv(s) && s.suspend == WorkCancel
    ensures var pc := if s.handler == Resting then Flush else WorkWait;
            Inv(s.(work := Removed(s.work, s.handler != Resting), suspend := pc, told := false))
  {
    var pc := if s.handler == Resting then Flush else WorkWait;
    var t := s.(work := Removed(s.work, s.handler != Resting), suspend := pc, told := false);
    assert t.users == s.users && t.handler == s.handler;
    assert HandlerKeptOut(s) ==> HandlerKeptOut(t);
  }

  lemma SuspendWaited(s: State)
    requires Inv(s) && s.suspend == WorkWait && s.handler == Resting && s.work.canceling > 0
    ensures Inv(s.(work := Waited(s.work), suspend := Flush))
  {
    var t := s.(work := Waited(s.work), suspend := Flush);
    assert SomeoneMidCall(s) ==> SomeoneMidCall(t);
  }

  lemma SuspendCounts(s: State)
    requires Inv(s) && s.suspend == TakeBlock
    ensures Inv(s.(blockCnt := s.blockCnt + 1, suspend := ArmBlock))
  {
    var t := s.(blockCnt := s.blockCnt + 1, suspend := ArmBlock);
    assert HandlerKeptOut(s) ==> HandlerKeptOut(t);
  }

  lemma SuspendUncounts(s: State)
    requires Inv(s) && s.suspend == Suspending
    ensures Inv(s.(blockCnt := s.blockCnt - 1, told := true, suspend := NoSuspend))
  {
    var t := s.(blockCnt := s.blockCnt - 1, told := true, suspend := NoSuspend);
    assert SomeoneMidCall(s) ==> SomeoneMidCall(t);
    assert HandlerKeptOut(s) ==> HandlerKeptOut(t);
  }

  lemma SuspendTests(s: State, met: bool)
    requires Inv(s) && CanDo(s, SuspendStep(met))
    requires s.suspend == SuspendPc.AskEnabled || s.suspend == AskBlocks || s.suspend == AskState
    ensures Inv(s.(suspend := SuspendEffect(s, met).2))
  {
    match s.suspend
    case AskEnabled => SuspendMove(s, if s.usable then AskBlocks else NoSuspend, s.told);
    case AskBlocks => SuspendMove(s, if s.blockCnt > 0 then NoSuspend else AskState, s.told);
    case AskState => SuspendMove(s, if s.decon == On then AskCheck else NoSuspend, s.told);
  }

  lemma SuspendLocks(s: State, met: bool)
    requires Inv(s) && CanDo(s, SuspendStep(met))
    requires s.suspend == Flush || s.suspend == AskCount || s.suspend == TakeLock
    ensures Inv(s.(suspend := SuspendEffect(s, met).2))
  {
    match s.suspend
    case Flush => SuspendMove(s, AskCount, s.told);
    case AskCount => SuspendMove(s, if s.blockCnt > 0 then NoSuspend else TakeLock, s.told);
    case TakeLock => SuspendMove(s, SuspendPc.AskEnabled, s.told);
  }

  /** The steps that cancel, wait, count, or are told the outcome. */
  lemma SuspendActs(s: State, met: bool)
    requires Inv(s) && CanDo(s, SuspendStep(met))
    requires s.suspend == WorkCancel || s.suspend == WorkWait || s.suspend == TakeBlock || s.suspend == Suspending
    ensures Inv(Do(s, SuspendStep(met)))
  {
    if s.suspend == WorkCancel {
      SuspendCancels(s);
    } else if s.suspend == WorkWait {
      SuspendWaited(s);
    } else if s.suspend == TakeBlock {
      SuspendCounts(s);
    } else {
      SuspendUncounts(s);
    }
  }

  lemma SuspendDecides(s: State, met: bool)
    requires Inv(s) && CanDo(s, SuspendStep(met)) && (s.suspend == AskCheck || s.suspend == ArmBlock)
    ensures Inv(Do(s, SuspendStep(met)))
  {
    if s.suspend == ArmBlock {
      RearmedKeepsInv(s);
      SuspendMove(Rearmed(s), Suspending, s.told);
    } else {
      SuspendMove(s, if met then TakeBlock else NoSuspend, s.told || !met);
    }
  }

  lemma SuspendStepKeepsInv(s: State, met: bool)
    requires Inv(s) && CanDo(s, SuspendStep(met))
    ensures Inv(Do(s, SuspendStep(met)))
  {
    if s.suspend == WorkCancel || s.suspend == WorkWait || s.suspend == TakeBlock || s.suspend == Suspending {
      SuspendActs(s, met);
    } else if s.suspend == AskCheck || s.suspend == ArmBlock {
      SuspendDecides(s, met);
    } else if s.suspend == Flush || s.suspend == AskCount || s.suspend == TakeLock {
      SuspendLocks(s, met);
      assert Do(s, SuspendStep(met)) == s.(suspend := SuspendEffect(s, met).2);
    } else {
      SuspendTests(s, met);
      assert Do(s, SuspendStep(met)) == s.(suspend := SuspendEffect(s, met).2);
    }
  }

  // ---------------------------------------------------------------------
  // Everything else, and runs
  // ---------------------------------------------------------------------

  lemma HolderSetsKeepsInv(s: State, u: nat, usable: bool, decon: DeconState)
    requires Inv(s) && CanDo(s, HolderSets(u, usable, decon))
    ensures Inv(s.(usable := usable, decon := decon))
  {
    var t := s.(usable := usable, decon := decon);
    CountsAfterMove(s.users, u, s.users[u]);
    WaitersHold(s.users);
    assert Counted(t) && Scheduled(t) && BlockedByOthers(t);
    assert HandlerKeptOut(s) ==> HandlerKeptOut(t);
  }

  lemma EnvironmentKeepsInv(s: State, a: Action)
    requires Inv(s) && CanDo(s, a)
    requires a.DeconLeaves? || a.TimerFires? || a.WorkerPicks? || a.BeginSuspend?
    ensures Inv(Do(s, a))
  {
    var t := Do(s, a);
    assert t.users == s.users;
    assert SomeoneMidCall(s) ==> SomeoneMidCall(t);
  }

  lemma StepKeepsInv(s: State, a: Action)
    requires Inv(s) && CanDo(s, a)
    ensures Inv(Do(s, a))
  {
    match a
    case UserStep(u) => UserStepKeepsInv(s, u);
    case HandlerStep(met) => HandlerStepKeepsInv(s, met);
    case SuspendStep(met) => SuspendStepKeepsInv(s, met);
    case BeginBlock(u, sync) => BeginBlockKeepsInv(s, u, sync);
    case BeginStoreEnable(u) => BeginStoreEnableKeepsInv(s, u);
    case BeginUnblock(u) => BeginUnblockKeepsInv(s, u);
    case HolderSets(u, usable, decon) => HolderSetsKeepsInv(s, u, usable, decon);
    case _ => EnvironmentKeepsInv(s, a);
  }

  lemma {:induction false} RunKeepsInv(s: State, run: seq<Action>)
    requires Inv(s) && Runs(s, run)
    ensures Inv(After(s, run))
    decreases |run|
  {
    if run != [] {
      StepKeepsInv(s, run[0]);
      RunKeepsInv(Do(s, run[0]), run[1..]);
    }
  }

  /** Every interleaving from boot keeps the invariant; the DECON is not on yet when the hibernation
      object is registered. */
  lemma EveryRunKeepsInv(usable: bool, decon: DeconState, threads: nat, run: seq<Action>)
    requires decon != On && Runs(Boot(usable, decon, threads), run)
    ensures Inv(After(Boot(usable, decon, threads), run))
  {
    NobodyHolds(Boot(usable, decon, threads).users);
    RunKeepsInv(Boot(usable, decon, threads), run);
  }

  // ---------------------------------------------------------------------
  // Consequences over every run
  // ---------------------------------------------------------------------

  /** No caller is in the middle of a call, and no suspend is under way. */
  predicate Quiescent(s: State) {
    s.suspend == NoSuspend && forall u :: 0 <= u < |s.users| ==> s.users[u] == Idle || s.users[u].Held?
  }

  lemma {:induction false} NobodyWaits(users: seq<UserPc>)
    requires forall u :: 0 <= u < |users| ==> users[u] == Idle || users[u].Held?
    ensures Waiters(users) == 0
  {
    if |users| > 0 {
      NobodyWaits(users[..|users| - 1]);
    }
  }

  lemma PendingExactlyWhen(s: State)
    requires Inv(s) && Quiescent(s) && !Blocked(s)
    ensures Pending(s) <==> !(s.told && s.work.cleared)
  {
    NobodyWaits(s.users);
  }

  /** No lost wakeup, in runs with any number of suspends: with nothing blocking, no caller in a call and no suspend
      under way, the hibernation work is scheduled or its handler still has to decide, exactly unless the last suspend
      returned after its check and the work has not been scheduled since it was last cancelled. */
  lemma NoLostWakeup(usable: bool, decon: DeconState, threads: nat, run: seq<Action>)
    requires decon != On && Runs(Boot(usable, decon, threads), run)
    ensures var s := After(Boot(usable, decon, threads), run);
            !Blocked(s) && Quiescent(s) ==> (Pending(s) <==> !(s.told && s.work.cleared))
  {
    EveryRunKeepsInv(usable, decon, threads, run);
    var s := After(Boot(usable, decon, threads), run);
    if !Blocked(s) && Quiescent(s) {
      PendingExactlyWhen(s);
    }
  }

  predicate WithoutSuspend(run: seq<Action>) {
    forall a :: a in run ==> !a.BeginSuspend?
  }

  lemma {:induction false} NeverTold(s: State, run: seq<Action>)
    requires Runs(s, run) && WithoutSuspend(run) && s.suspend == NoSuspend && !s.told
    ensures !After(s, run).told && After(s, run).suspend == NoSuspend
    decreases |run|
  {
    if run != [] {
      assert run[0] in run && forall a :: a in run[1..] ==> a in run;
      NeverTold(Do(s, run[0]), run[1..]);
    }
  }

  /** Without a suspend nothing is ever lost. */
  lemma NoLostWakeupWithoutSuspend(usable: bool, decon: DeconState, threads: nat, run: seq<Action>)
    requires decon != On && Runs(Boot(usable, decon, threads), run) && WithoutSuspend(run)
    ensures var s := After(Boot(usable, decon, threads), run);
            !Blocked(s) && Quiescent(s) ==> Pending(s)
  {
    NoLostWakeup(usable, decon, threads, run);
    NeverTold(Boot(usable, decon, threads), run);
  }

  /** The counter is the number of live blocks, and no unblock ever finds it at zero. */
  lemma CounterIsExact(usable: bool, decon: DeconState, threads: nat, run: seq<Action>)
    requires decon != On && Runs(Boot(usable, decon, threads), run)
    ensures var s := After(Boot(usable, decon, threads), run);
            && s.blockCnt == Holders(s.users) + HandlerHolding(s.handler) + SuspendHolding(s.suspend)
            && (s.handler == Enter || s.suspend == Suspending ==> s.blockCnt > 0)
            && (forall u :: 0 <= u < |s.users| && (s.users[u].Held? || s.users[u] == CancelUnblock) ==> s.blockCnt > 0)
  {
    EveryRunKeepsInv(usable, decon, threads, run);
    var s := After(Boot(usable, decon, threads), run);
    forall u | 0 <= u < |s.users| && (s.users[u].Held? || s.users[u] == CancelUnblock) ensures s.blockCnt > 0 {
      CountsAfterMove(s.users, u, s.users[u]);
    }
  }

  /** While a synchronous block that has completed is held, the worker is not entering hibernation. */
  lemma SyncBlockExcludesEntry(usable: bool, decon: DeconState, threads: nat, run: seq<Action>, u: nat)
    requires decon != On && Runs(Boot(usable, decon, threads), run)
    requires u < |After(Boot(usable, decon, threads), run).users|
    requires After(Boot(usable, decon, threads), run).users[u] == Held(true)
    ensures var h := After(Boot(usable, decon, threads), run).handler;
            h != Check && h != Block && h != BlockArm && h != Enter
  {
    EveryRunKeepsInv(usable, decon, threads, run);
  }

  /** The worker and a suspend are never both between their tests and the end of entry. */
  lemma OneEntryAtATime(usable: bool, decon: DeconState, threads: nat, run: seq<Action>)
    requires decon != On && Runs(Boot(usable, decon, threads), run)
    ensures var s := After(Boot(usable, decon, threads), run);
            !(HandlerLocked(s.handler) && SuspendLocked(s.suspend))
  {
    EveryRunKeepsInv(usable, decon, threads, run);
  }

  /** A thread that waits for the running handler is counted as a waiting cancel. */
  lemma WaiterIsCounted(s: State, u: nat)
    requires Counted(s) && u < |s.users| && s.users[u] == CancelWait
    ensures s.work.canceling > 0
  {
    CountsAfterMove(s.users, u, Idle);
  }

  /** No deadlock: the worker waits for nothing but a suspend that holds the lock, which can go on; the others wait for
      nothing but the worker. */
  lemma NobodyIsStuck(usable: bool, decon: DeconState, threads: nat, run: seq<Action>, met: bool)
    requires decon != On && Runs(Boot(usable, decon, threads), run)
    ensures var s := After(Boot(usable, decon, threads), run);
            && (SuspendLocked(s.suspend) ==> CanDo(s, SuspendStep(met)))
            && (s.handler != Resting && !SuspendLocked(s.suspend) ==> CanDo(s, HandlerStep(met)))
            && (s.suspend != NoSuspend && s.handler == Resting ==> CanDo(s, SuspendStep(met)))
            && (forall u :: 0 <= u < |s.users| && s.users[u] != Idle && s.handler == Resting ==>
                              CanDo(s, if s.users[u].Held? then BeginUnblock(u) else UserStep(u)))
            && (forall u, sync :: 0 <= u < |s.users| && s.users[u] == Idle ==> CanDo(s, BeginBlock(u, sync)))
  {
    EveryRunKeepsInv(usable, decon, threads, run);
    var s := After(Boot(usable, decon, threads), run);
    forall u | 0 <= u < |s.users| && s.users[u] == CancelWait ensures s.work.canceling > 0 {
      WaiterIsCounted(s, u);
    }
  }

  // ---------------------------------------------------------------------
  // Progress: what each call comes to when nothing else moves
  // ---------------------------------------------------------------------

  predicate Leads(s: State, a: Action, t: State) {
    CanDo(s, a) && Do(s, a) == t
  }

  predicate Reaches(s: State, run: seq<Action>, t: State) {
    Runs(s, run) && After(s, run) == t
  }

  function Times(a: Action, n: nat): seq<Action> {
    seq(n, _ => a)
  }

  lemma RunsAfterOne(s: State, a: Action, run: seq<Action>)
    requires run != [] && run[0] == a
    ensures Runs(s, run) <==> CanDo(s, a) && Runs(Do(s, a), run[1..])
    ensures Runs(s, run) ==> After(s, run) == After(Do(s, a), run[1..])
  {
  }

  lemma {:induction false} RunsBoth(s: State, first: seq<Action>, second: seq<Action>)
    requires Runs(s, first) && Runs(After(s, first), second)
    ensures Runs(s, first + second)
    decreases |first|
  {
    if first == [] {
      assert first + second == second;
    } else {
      assert (first + second)[0] == first[0] && (first + second)[1..] == first[1..] + second;
      RunsAfterOne(s, first[0], first);
      RunsBoth(Do(s, first[0]), first[1..], second);
      RunsAfterOne(s, first[0], first + second);
    }
  }

  lemma {:induction false} RunsThen(s: State, first: seq<Action>, second: seq<Action>)
    requires Runs(s, first) && Runs(After(s, first), second)
    ensures Runs(s, first + second) && After(s, first + second) == After(After(s, first), second)
    decreases |first|
  {
    RunsBoth(s, first, second);
    if first == [] {
      assert first + second == second;
    } else {
      var a, rest := first[0], first[1..];
      assert (first + second)[0] == a && (first + second)[1..] == rest + second;
      RunsAfterOne(s, a, first);
      RunsThen(Do(s, a), rest, second);
      RunsAfterOne(s, a, first + second);
    }
  }

  lemma Start(s: State, a: Action, t: State)
    requires Leads(s, a, t)
    ensures Reaches(s, [a], t) && Reaches(s, Times(a, 1), t) && Reaches(s, [a] + Times(a, 0), t)
  {
    assert [a][1..] == [] && Times(a, 1) == [a] && [a] + Times(a, 0) == [a];
    assert Reaches(t, [], t);
  }

  /** The same action once more, after `before`. */
  lemma OnceMore(s: State, before: seq<Action>, a: Action, n: nat, t: State, v: State)
    requires Reaches(s, before + Times(a, n), t) && Leads(t, a, v)
    ensures Reaches(s, before + Times(a, n + 1), v)
  {
    Start(t, a, v);
    RunsThen(s, before + Times(a, n), [a]);
    assert before + Times(a, n) + [a] == before + Times(a, n + 1);
  }

  lemma Again(s: State, a: Action, n: nat, t: State, v: State)
    requires Reaches(s, Times(a, n), t) && Leads(t, a, v)
    ensures Reaches(s, Times(a, n + 1), v)
  {
    assert [] + Times(a, n) == Times(a, n) && [] + Times(a, n + 1) == Times(a, n + 1);
    OnceMore(s, [], a, n, t, v);
  }

  lemma Thereafter(s: State, a: Action, m: nat, n: nat, t: State, v: State)
    requires Reaches(s, Times(a, m), t) && Reaches(t, Times(a, n), v)
    ensures Reaches(s, Times(a, m + n), v)
  {
    RunsThen(s, Times(a, m), Times(a, n));
    assert Times(a, m) + Times(a, n) == Times(a, m + n);
  }

  lemma WorkerTests(s: State, met: bool)
    requires s.handler == Lock && !SuspendLocked(s.suspend)
    ensures var n := if !s.usable then 2 else if s.blockCnt > 0 then 3 else 4;
            Reaches(s, Times(HandlerStep(met), n), s.(handler := if Blocked(s) then Done else Check))
  {
    var a := HandlerStep(met);
    var t1, t2, t3 := s.(handler := TestEnabled), s.(handler := TestCount), s.(handler := TestState);
    Start(s, a, t1);
    Again(s, a, 1, t1, if s.usable then t2 else s.(handler := Done));
    if s.usable {
      Again(s, a, 2, t2, if s.blockCnt == 0 then t3 else s.(handler := Done));
      if s.blockCnt == 0 {
        Again(s, a, 3, t3, s.(handler := if Blocked(s) then Done else Check));
      }
    }
  }

  lemma WorkerActs(s: State, met: bool)
    requires s.handler == Check && s.blockCnt == 0
    ensures if met
            then Reaches(s, Times(HandlerStep(met), 3), s.(handler := Enter, blockCnt := 1, work := Modified(s.work)))
            else Reaches(s, Times(HandlerStep(met), 2), s.(handler := Done, work := Modified(s.work)))
  {
    var a := HandlerStep(met);
    if met {
      var t1, t2 := s.(handler := Block), s.(handler := BlockArm, blockCnt := 1);
      Start(s, a, t1);
      Again(s, a, 1, t1, t2);
      Again(s, a, 2, t2, s.(handler := Enter, blockCnt := 1, work := Modified(s.work)));
    } else {
      Start(s, a, s.(handler := Requeue));
      Again(s, a, 1, s.(handler := Requeue), s.(handler := Done, work := Modified(s.work)));
    }
  }

  /** Left alone, the worker enters hibernation holding one block if nothing blocks and the check is met; if
      the check is not met it starts the timer again, and if something blocks it leaves everything as it was. */
  lemma WorkerDecides(s: State, met: bool)
    requires s.handler == Lock && !SuspendLocked(s.suspend)
    ensures exists n :: Reaches(s, Times(HandlerStep(met), n),
                                if Blocked(s) then s.(handler := Done)
                                else if met then s.(handler := Enter, blockCnt := 1, work := Modified(s.work))
                                else s.(handler := Done, work := Modified(s.work)))
  {
    WorkerTests(s, met);
    if !Blocked(s) {
      var t := s.(handler := Check);
      WorkerActs(t, met);
      if met {
        Thereafter(s, HandlerStep(met), 4, 3, t, s.(handler := Enter, blockCnt := 1, work := Modified(s.work)));
      } else {
        Thereafter(s, HandlerStep(met), 4, 2, t, s.(handler := Done, work := Modified(s.work)));
      }
    }
  }

  /** What the worker still has to find to enter. */
  predicate OnTheWay(s: State, met: bool) {
    match s.handler
    case Lock => !Blocked(s) && met
    case TestEnabled => !Blocked(s) && met
    case TestCount => s.blockCnt == 0 && s.decon == On && met
    case TestState => s.decon == On && met
    case Check => met
    case Block => true
    case BlockArm => true
    case Enter => true
    case _ => false
  }

  lemma OffTheWayStep(s: State, met: bool)
    requires !OnTheWay(s, met) && CanDo(s, HandlerStep(met))
    ensures !OnTheWay(Do(s, HandlerStep(met)), met)
  {
  }

  lemma {:induction false} OffTheWay(s: State, met: bool, n: nat)
    requires !OnTheWay(s, met) && Runs(s, Times(HandlerStep(met), n))
    ensures After(s, Times(HandlerStep(met), n)).handler != Enter
    decreases n
  {
    var a := HandlerStep(met);
    if n > 0 {
      assert Times(a, n)[0] == a && Times(a, n)[1..] == Times(a, n - 1);
      OffTheWayStep(s, met);
      OffTheWay(Do(s, a), met, n - 1);
    }
  }

  /** The worker enters in exactly this case. */
  lemma WorkerEntersExactlyWhen(s: State, met: bool)
    requires s.handler == Lock && !SuspendLocked(s.suspend)
    ensures (exists n, t :: Reaches(s, Times(HandlerStep(met), n), t) && t.handler == Enter) <==> !Blocked(s) && met
  {
    WorkerDecides(s, met);
    forall n, t | Reaches(s, Times(HandlerStep(met), n), t) && (Blocked(s) || !met) ensures t.handler != Enter {
      OffTheWay(s, met, n);
    }
  }

  /** In a reachable state the timer that is started again does run, but for a suspend waiting for the worker. */
  lemma RestartedRuns(s: State)
    requires Inv(s) && !Blocked(s) && s.suspend != WorkWait
    ensures Modified(s.work).timer
  {
    CancelersBlock(s);
  }

  /** After the entry the worker gives its block back and rests. */
  lemma WorkerReturns(s: State, met: bool)
    requires s.handler == Enter && s.blockCnt > 0
    ensures Reaches(s, Times(HandlerStep(met), 2), s.(handler := Resting, blockCnt := s.blockCnt - 1))
  {
    var t := s.(handler := Done, blockCnt := s.blockCnt - 1);
    Start(s, HandlerStep(met), t);
    Again(s, HandlerStep(met), 1, t, s.(handler := Resting, blockCnt := s.blockCnt - 1));
  }

  /** One step of a suspend that moves nothing but its program counter, after `i` others. */
  lemma SuspendMoves(s: State, met: bool, i: nat, pc: SuspendPc, next: SuspendPc)
    requires pc != AskCheck && pc != Suspending && CanDo(s.(suspend := pc), SuspendStep(met))
    requires pc != WorkCancel && SuspendEffect(s.(suspend := pc), met) == (s.blockCnt, s.work, next)
    requires Reaches(s, Times(SuspendStep(met), i), s.(suspend := pc))
    ensures Reaches(s, Times(SuspendStep(met), i + 1), s.(suspend := next))
  {
    Again(s, SuspendStep(met), i, s.(suspend := pc), s.(suspend := next));
  }

  lemma NoStepsYet(s: State, a: Action)
    ensures Reaches(s, Times(a, 0), s)
  {
    assert Times(a, 0) == [];
  }

  lemma SuspendReachesLock(s: State, met: bool)
    requires s.suspend == Flush && s.blockCnt == 0
    ensures Reaches(s, Times(SuspendStep(met), 2), s.(suspend := TakeLock))
  {
    NoStepsYet(s, SuspendStep(met));
    SuspendMoves(s, met, 0, Flush, AskCount);
    SuspendMoves(s, met, 1, AskCount, TakeLock);
  }

  lemma SuspendTakesLock(s: State, met: bool)
    requires s.suspend == Flush && !HandlerLocked(s.handler) && s.blockCnt == 0
    ensures Reaches(s, Times(SuspendStep(met), 3), s.(suspend := SuspendPc.AskEnabled))
  {
    SuspendReachesLock(s, met);
    SuspendMoves(s, met, 2, TakeLock, SuspendPc.AskEnabled);
  }

  lemma SuspendConditions(s: State, met: bool)
    requires s.suspend == SuspendPc.AskEnabled
    ensures var n := if !s.usable then 1 else if s.blockCnt > 0 then 2 else 3;
            Reaches(s, Times(SuspendStep(met), n), s.(suspend := if Blocked(s) then NoSuspend else AskCheck))
  {
    NoStepsYet(s, SuspendStep(met));
    SuspendMoves(s, met, 0, SuspendPc.AskEnabled, if s.usable then AskBlocks else NoSuspend);
    if s.usable {
      SuspendMoves(s, met, 1, AskBlocks, if s.blockCnt > 0 then NoSuspend else AskState);
      if s.blockCnt == 0 {
        SuspendMoves(s, met, 2, AskState, if Blocked(s) then NoSuspend else AskCheck);
      }
    }
  }

  lemma SuspendTurnsBack(s: State, met: bool)
    requires s.suspend == Flush && s.blockCnt > 0
    ensures Reaches(s, Times(SuspendStep(met), 2), s.(suspend := NoSuspend))
  {
    NoStepsYet(s, SuspendStep(met));
    SuspendMoves(s, met, 0, Flush, AskCount);
    SuspendMoves(s, met, 1, AskCount, NoSuspend);
  }

  lemma SuspendAsksUnblocked(s: State, met: bool)
    requires s.suspend == Flush && !HandlerLocked(s.handler) && s.blockCnt == 0
    ensures Reaches(s, Times(SuspendStep(met), if s.usable then 6 else 4),
                    s.(suspend := if Blocked(s) then NoSuspend else AskCheck))
  {
    var t := s.(suspend := SuspendPc.AskEnabled);
    SuspendTakesLock(s, met);
    SuspendConditions(t, met);
    Thereafter(s, SuspendStep(met), 3, if s.usable then 3 else 1, t,
               s.(suspend := if Blocked(s) then NoSuspend else AskCheck));
  }

  /** Up to its check, or back. */
  lemma SuspendAsks(s: State, met: bool)
    requires s.suspend == Flush && !HandlerLocked(s.handler)
    ensures var n := if s.blockCnt > 0 then 2 else if s.usable then 6 else 4;
            Reaches(s, Times(SuspendStep(met), n), s.(suspend := if Blocked(s) then NoSuspend else AskCheck))
  {
    if s.blockCnt > 0 {
      SuspendTurnsBack(s, met);
    } else {
      SuspendAsksUnblocked(s, met);
    }
  }

  lemma SuspendBlocks(s: State)
    requires s.suspend == AskCheck && s.blockCnt == 0
    ensures Reaches(s, Times(SuspendStep(true), 2), s.(suspend := ArmBlock, blockCnt := 1))
  {
    var a := SuspendStep(true);
    Start(s, a, s.(suspend := TakeBlock));
    Again(s, a, 1, s.(suspend := TakeBlock), s.(suspend := ArmBlock, blockCnt := 1));
  }

  lemma SuspendFinishes(s: State, met: bool)
    requires s.suspend == AskCheck && s.blockCnt == 0
    ensures if met
            then Reaches(s, Times(SuspendStep(met), 3),
                         s.(suspend := Suspending, blockCnt := 1, work := Modified(s.work)))
            else Reaches(s, Times(SuspendStep(met), 1), s.(suspend := NoSuspend, told := true))
  {
    var a := SuspendStep(met);
    if met {
      SuspendBlocks(s);
      Again(s, a, 2, s.(suspend := ArmBlock, blockCnt := 1),
            s.(suspend := Suspending, blockCnt := 1, work := Modified(s.work)));
    } else {
      Start(s, a, s.(suspend := NoSuspend, told := true));
    }
  }

  /** Left alone after its cancel, a suspend decides like the worker, but starts no timer when its check is not met. */
  lemma SuspendComesTo(s: State, met: bool)
    requires s.suspend == Flush && !HandlerLocked(s.handler)
    ensures exists n :: Reaches(s, Times(SuspendStep(met), n),
                                if Blocked(s) then s.(suspend := NoSuspend)
                                else if met then s.(suspend := Suspending, blockCnt := 1, work := Modified(s.work))
                                else s.(suspend := NoSuspend, told := true))
  {
    SuspendAsks(s, met);
    if !Blocked(s) {
      var t := s.(suspend := AskCheck);
      SuspendFinishes(t, met);
      if met {
        Thereafter(s, SuspendStep(met), 6, 3, t, s.(suspend := Suspending, blockCnt := 1, work := Modified(s.work)));
      } else {
        Thereafter(s, SuspendStep(met), 6, 1, t, s.(suspend := NoSuspend, told := true));
      }
    }
  }

  /** After its entry a suspend gives its block back. */
  lemma SuspendReturns(s: State, met: bool)
    requires s.suspend == Suspending && s.blockCnt > 0
    ensures Reaches(s, Times(SuspendStep(met), 1),
                    s.(suspend := NoSuspend, blockCnt := s.blockCnt - 1, told := true))
  {
    Start(s, SuspendStep(met), s.(suspend := NoSuspend, blockCnt := s.blockCnt - 1, told := true));
  }

  /** With the worker resting, a suspend first leaves the work neither queued nor timed. */
  lemma SuspendCancelsFirst(s: State, met: bool)
    requires s.suspend == NoSuspend && s.handler == Resting
    ensures Reaches(s, [BeginSuspend] + Times(SuspendStep(met), 1),
                    s.(suspend := Flush, told := false, work := Work(false, false, s.work.canceling, true)))
  {
    var t := s.(suspend := WorkCancel);
    Start(s, BeginSuspend, t);
    assert [BeginSuspend] + Times(SuspendStep(met), 0) == [BeginSuspend];
    OnceMore(s, [BeginSuspend], SuspendStep(met), 0, t,
             s.(suspend := Flush, told := false, work := Work(false, false, s.work.canceling, true)));
  }

  /** `s` with thread `u` at `pc`, and this counter and work. */
  function At(s: State, u: nat, pc: UserPc, blockCnt: nat, work: Work): State
    requires u < |s.users|
  {
    s.(users := s.users[u := pc], blockCnt := blockCnt, work := work)
  }

  /** One step of thread `u`, after `before` and `i` other steps. */
  lemma UserMoves(s: State, before: seq<Action>, i: nat, u: nat, pc: UserPc, blockCnt: nat, work: Work, next: UserPc,
                  n: nat, w: Work)
    requires u < |s.users| && pc != Idle && !pc.Held? && pc != CancelWait
    requires Reaches(s, before + Times(UserStep(u), i), At(s, u, pc, blockCnt, work))
    requires UserEffect(At(s, u, pc, blockCnt, work), pc) == (n, w, next)
    ensures Reaches(s, before + Times(UserStep(u), i + 1), At(s, u, next, n, w))
  {
    var t := At(s, u, pc, blockCnt, work);
    assert s.users[u := pc][u := next] == s.users[u := next];
    OnceMore(s, before, UserStep(u), i, t, At(s, u, next, n, w));
  }

  lemma BlockBegins(s: State, u: nat, sync: bool)
    requires u < |s.users| && s.users[u] == Idle
    ensures Reaches(s, [BeginBlock(u, sync)] + Times(UserStep(u), 0), At(s, u, Arm(sync), s.blockCnt + 1, s.work))
  {
    Start(s, BeginBlock(u, sync), At(s, u, Arm(sync), s.blockCnt + 1, s.work));
    assert [BeginBlock(u, sync)] + Times(UserStep(u), 0) == [BeginBlock(u, sync)];
  }

  /** A block that is not synchronous, or that finds hibernation unusable. */
  lemma BlockStaysLoose(s: State, u: nat, sync: bool)
    requires u < |s.users| && s.users[u] == Idle && !(sync && s.usable)
    ensures Reaches(s, [BeginBlock(u, sync)] + Times(UserStep(u), if sync then 2 else 1),
                    At(s, u, Held(false), s.blockCnt + 1, Modified(s.work)))
  {
    var go, n, w := [BeginBlock(u, sync)], s.blockCnt + 1, Modified(s.work);
    BlockBegins(s, u, sync);
    UserMoves(s, go, 0, u, Arm(sync), n, s.work, if sync then UserPc.AskEnabled else Held(false), n, w);
    if sync {
      UserMoves(s, go, 1, u, UserPc.AskEnabled, n, w, Held(false), n, w);
    }
  }

  lemma BlockBlocksAgain(s: State, u: nat)
    requires u < |s.users| && s.users[u] == Idle && s.usable
    ensures Reaches(s, [BeginBlock(u, true)] + Times(UserStep(u), 3),
                    At(s, u, CancelArm, s.blockCnt + 2, Modified(s.work)))
  {
    var go, n, w := [BeginBlock(u, true)], s.blockCnt + 1, Modified(s.work);
    BlockBegins(s, u, true);
    UserMoves(s, go, 0, u, Arm(true), n, s.work, UserPc.AskEnabled, n, w);
    UserMoves(s, go, 1, u, UserPc.AskEnabled, n, w, CancelBlock, n, w);
    UserMoves(s, go, 2, u, CancelBlock, n, w, CancelArm, n + 1, w);
  }

  /** A synchronous block with the worker resting. */
  lemma BlockCancels(s: State, u: nat)
    requires u < |s.users| && s.users[u] == Idle && s.usable && s.handler == Resting
    ensures Reaches(s, [BeginBlock(u, true)] + Times(UserStep(u), 6),
                    At(s, u, Held(true), s.blockCnt + 1, Work(false, false, s.work.canceling, true)))
  {
    var go, n, w := [BeginBlock(u, true)], s.blockCnt + 1, Modified(s.work);
    var gone := Work(false, false, s.work.canceling, true);
    BlockBlocksAgain(s, u);
    UserMoves(s, go, 3, u, CancelArm, n + 1, w, Cancel, n + 1, w);
    UserMoves(s, go, 4, u, Cancel, n + 1, w, CancelUnblock, n + 1, gone);
    UserMoves(s, go, 5, u, CancelUnblock, n + 1, gone, Held(true), n, gone);
  }

  /** A block, left alone with the worker resting: one more in the counter, the work pushed out, or cancelled if
      the block is synchronous and hibernation can be used at all. */
  lemma BlockComesTo(s: State, u: nat, sync: bool)
    requires u < |s.users| && s.users[u] == Idle && s.handler == Resting
    ensures exists n :: Reaches(s, [BeginBlock(u, sync)] + Times(UserStep(u), n),
                                s.(blockCnt := s.blockCnt + 1, users := s.users[u := Held(sync && s.usable)],
                                work := if sync && s.usable then Work(false, false, s.work.canceling, true)
                                        else Modified(s.work)))
  {
    if sync && s.usable {
      BlockCancels(s, u);
    } else {
      BlockStaysLoose(s, u, sync);
    }
  }

  /** The debug switch makes hibernation usable and blocks it, not synchronously. */
  lemma StoreEnableComesTo(s: State, u: nat)
    requires u < |s.users| && s.users[u] == Idle
    ensures Reaches(s, [BeginStoreEnable(u)] + Times(UserStep(u), 2),
                    At(s.(usable := true), u, Held(false), s.blockCnt + 1, Modified(s.work)))
  {
    var go, t := [BeginStoreEnable(u)], s.(usable := true);
    Start(s, BeginStoreEnable(u), At(t, u, StoreEnabled, s.blockCnt, s.work));
    assert go + Times(UserStep(u), 0) == go;
    var armed := At(t, u, Arm(false), s.blockCnt + 1, s.work);
    assert s.users[u := StoreEnabled][u := Arm(false)] == s.users[u := Arm(false)];
    OnceMore(s, go, UserStep(u), 0, At(t, u, StoreEnabled, s.blockCnt, s.work), armed);
    assert s.users[u := Arm(false)][u := Held(false)] == s.users[u := Held(false)];
    OnceMore(s, go, UserStep(u), 1, armed, At(t, u, Held(false), s.blockCnt + 1, Modified(s.work)));
  }

  lemma UnblockBegins(s: State, u: nat)
    requires u < |s.users| && s.users[u].Held? && s.blockCnt > 0
    ensures Reaches(s, [BeginUnblock(u)] + Times(UserStep(u), 0), At(s, u, ReadEnabled, s.blockCnt - 1, s.work))
  {
    Start(s, BeginUnblock(u), At(s, u, ReadEnabled, s.blockCnt - 1, s.work));
    assert [BeginUnblock(u)] + Times(UserStep(u), 0) == [BeginUnblock(u)];
  }

  /** An unblock after which nothing blocks. */
  lemma UnblockRestarts(s: State, u: nat)
    requires u < |s.users| && s.users[u].Held? && s.blockCnt == 1 && s.usable && s.decon == On
    ensures Reaches(s, [BeginUnblock(u)] + Times(UserStep(u), 4), At(s, u, Idle, 0, Modified(s.work)))
  {
    var go, w := [BeginUnblock(u)], s.work;
    UnblockBegins(s, u);
    UserMoves(s, go, 0, u, ReadEnabled, 0, w, ReadCount, 0, w);
    UserMoves(s, go, 1, u, ReadCount, 0, w, ReadState, 0, w);
    UserMoves(s, go, 2, u, ReadState, 0, w, Rearm, 0, w);
    UserMoves(s, go, 3, u, Rearm, 0, w, Idle, 0, Modified(w));
  }

  /** An unblock, left alone: one less in the counter, and the timer started exactly if nothing blocks then. */
  lemma UnblockComesTo(s: State, u: nat)
    requires u < |s.users| && s.users[u].Held? && s.blockCnt > 0
    ensures var t := s.(blockCnt := s.blockCnt - 1, users := s.users[u := Idle]);
            exists n :: Reaches(s, [BeginUnblock(u)] + Times(UserStep(u), n),
                                if Blocked(t) then t else t.(work := Modified(s.work)))
  {
    var go, n, w := [BeginUnblock(u)], s.blockCnt - 1, s.work;
    UnblockBegins(s, u);
    if !s.usable {
      UserMoves(s, go, 0, u, ReadEnabled, n, w, Idle, n, w);
    } else if n > 0 {
      UserMoves(s, go, 0, u, ReadEnabled, n, w, ReadCount, n, w);
      UserMoves(s, go, 1, u, ReadCount, n, w, Idle, n, w);
    } else if s.decon != On {
      UserMoves(s, go, 0, u, ReadEnabled, n, w, ReadCount, n, w);
      UserMoves(s, go, 1, u, ReadCount, n, w, ReadState, n, w);
      UserMoves(s, go, 2, u, ReadState, n, w, Idle, n, w);
    } else {
      UnblockRestarts(s, u);
    }
  }

  // ---------------------------------------------------------------------
  // Concrete runs
  // ---------------------------------------------------------------------

  /** A single thread at `pc`, nothing running, no suspend in the past. */
  function Calm(decon: DeconState, blockCnt: nat, timer: bool, pc: UserPc): State {
    State(true, decon, blockCnt, Work(timer, false, 0, false), Resting, [pc], NoSuspend, false)
  }

  const Blocks: seq<Action> := [BeginBlock(0, false)] + Times(UserStep(0), 1)
  const Unblocks: seq<Action> := [BeginUnblock(0)] + Times(UserStep(0), 4)

  /** One commit that switches the DECON on. */
  const OneCommit: seq<Action> := Blocks + ([HolderSets(0, true, On)] + Unblocks)

  lemma OneCommitRuns()
    ensures Reaches(Boot(true, Init, 1), OneCommit, Calm(On, 0, true, Idle))
  {
    var boot, held, on := Boot(true, Init, 1), Calm(Init, 1, true, Held(false)), Calm(On, 1, true, Held(false));
    BlockStaysLoose(boot, 0, false);
    assert At(boot, 0, Held(false), 1, Modified(boot.work)) == held;
    Start(held, HolderSets(0, true, On), on);
    UnblockRestarts(on, 0);
    assert At(on, 0, Idle, 0, Modified(on.work)) == Calm(On, 0, true, Idle);
    RunsThen(held, [HolderSets(0, true, On)], Unblocks);
    RunsThen(boot, Blocks, [HolderSets(0, true, On)] + Unblocks);
  }

  /** A suspend whose check is not met. */
  const RefusedSuspend: seq<Action> := [BeginSuspend] + Times(SuspendStep(false), 1) + Times(SuspendStep(false), 7)

  lemma RefusedSuspendRuns()
    ensures var s := Calm(On, 0, true, Idle);
            Reaches(s, RefusedSuspend, s.(work := Work(false, false, 0, true), told := true))
  {
    var s := Calm(On, 0, true, Idle);
    var t := s.(work := Work(false, false, 0, true), suspend := Flush);
    SuspendCancelsFirst(s, false);
    SuspendAsks(t, false);
    SuspendFinishes(t.(suspend := AskCheck), false);
    Thereafter(t, SuspendStep(false), 6, 1, t.(suspend := AskCheck), t.(suspend := NoSuspend, told := true));
    RunsThen(s, [BeginSuspend] + Times(SuspendStep(false), 1), Times(SuspendStep(false), 7));
  }

  /** The excepted case occurs: a suspend refused by its check after one commit leaves nothing scheduled. */
  lemma RefusedSuspendLosesTheWakeup()
    ensures Runs(Boot(true, Init, 1), OneCommit + RefusedSuspend)
    ensures var s := After(Boot(true, Init, 1), OneCommit + RefusedSuspend);
            !Blocked(s) && Quiescent(s) && s.told && s.work.cleared && !Pending(s)
  {
    OneCommitRuns();
    RefusedSuspendRuns();
    RunsThen(Boot(true, Init, 1), OneCommit, RefusedSuspend);
  }

  /** The timer runs out, the worker takes the work and decides. */
  const Expiry: seq<Action> := [TimerFires] + ([WorkerPicks] + Times(HandlerStep(true), 7))

  /** The intended case occurs: after one commit the worker puts the display to sleep. */
  lemma OneCommitThenSleep()
    ensures Runs(Boot(true, Init, 1), OneCommit + Expiry)
    ensures After(Boot(true, Init, 1), OneCommit + Expiry).handler == Enter
  {
    var s := Calm(On, 0, true, Idle);
    var queued := s.(work := Work(false, true, 0, false));
    var locked := s.(work := Work(false, false, 0, false), handler := Lock);
    OneCommitRuns();
    Start(s, TimerFires, queued);
    Start(queued, WorkerPicks, locked);
    WorkerTests(locked, true);
    WorkerActs(locked.(handler := Check), true);
    RunsThen(locked, Times(HandlerStep(true), 4), Times(HandlerStep(true), 3));
    assert Times(HandlerStep(true), 4) + Times(HandlerStep(true), 3) == Times(HandlerStep(true), 7);
    RunsThen(queued, [WorkerPicks], Times(HandlerStep(true), 7));
    RunsThen(s, [TimerFires], [WorkerPicks] + Times(HandlerStep(true), 7));
    RunsThen(Boot(true, Init, 1), OneCommit, Expiry);
  }
}
