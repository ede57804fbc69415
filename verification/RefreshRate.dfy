/**
 The frame rate the bandwidth calculation works with: it follows the display mode
 at once when the rate goes up, and three frames late when it goes down without a
 modeset, because the panel may still run at the old rate.
 */
module RefreshRate {

  const UPDATE_DELAY := 3

  datatype Mode = Mode(refresh: nat, opRateMode: bool)

  /** A pre-update: the commit's mode and flags, and the connector's demands. */
  datatype Commit = Commit(mode: Mode, seamless: bool, modeset: bool, minFps: nat, ignoreOpRate: bool, vblankUsec: nat)

  datatype Action = PreUpdate(commit: Commit) | OpRateUpdate(rate: nat)

  datatype State = State(
    mode: Mode,
    fps: nat, vblankUsec: nat,
    delayed: nat, pendingVblankUsec: nat,
    opRate: nat, pendingFps: bool)

  function Max(a: nat, b: nat): nat {
    if a > b then a else b
  }

  /** The rate a commit asks for. */
  function Request(opRate: nat, c: Commit): nat {
    var modeFps := Max(c.mode.refresh, c.minFps);
    if modeFps >= opRate || !c.mode.opRateMode || c.ignoreOpRate then modeFps else opRate
  }

  /** Enough for the mode, for the connector and, where it counts, for the operation rate. */
  predicate Enough(rate: nat, opRate: nat, c: Commit) {
    rate >= c.mode.refresh && rate >= c.minFps && (c.mode.opRateMode && !c.ignoreOpRate ==> rate >= opRate)
  }

  /** A commit asks for the least rate that is enough. */
  lemma RequestIsLeast(opRate: nat, c: Commit)
    ensures Enough(Request(opRate, c), opRate, c)
    ensures forall rate: nat :: Enough(rate, opRate, c) ==> rate >= Request(opRate, c)
  {
  }

  function Updated(s: State, c: Commit, vblankUsec: nat): State {
    s.(mode := c.mode, fps := Request(s.opRate, c), vblankUsec := vblankUsec, delayed := 0)
  }

  function SeamlesslyUpdated(s: State, c: Commit): State {
    if s.fps > Request(s.opRate, c) then s.(mode := c.mode, pendingVblankUsec := c.vblankUsec, delayed := UPDATE_DELAY)
    else Updated(s, c, c.vblankUsec)
  }

  function Step(s: State, a: Action): State {
    match a
    case OpRateUpdate(r) => s.(opRate := r, pendingFps := true)
    case PreUpdate(c) =>
      if c.seamless || s.pendingFps then SeamlesslyUpdated(s, c).(pendingFps := false)
      else if c.modeset then Updated(s, c, c.vblankUsec)
      else if s.delayed == 0 then s
      else if s.delayed == 1 then Updated(s, c, s.pendingVblankUsec)
      else s.(delayed := s.delayed - 1)
  }

  /** The mode only changes with one of the two flags set. */
  predicate CanDo(s: State, a: Action) {
    a.PreUpdate? && !a.commit.seamless && !a.commit.modeset ==> a.commit.mode == s.mode
  }

  predicate Runs(s: State, run: seq<Action>)
    decreases |run|
  {
    run == [] || (CanDo(s, run[0]) && Runs(Step(s, run[0]), run[1..]))
  }

  function After(s: State, run: seq<Action>): State
    requires Runs(s, run)
    decreases |run|
  {
    if run == [] then s else After(Step(s, run[0]), run[1..])
  }

  predicate Inv(s: State) {
    s.fps >= s.mode.refresh && s.delayed <= UPDATE_DELAY
  }

  /** Over every run the calculated rate is never below the refresh rate of the current mode. */
  lemma {:induction false} NeverBelowRefresh(s: State, run: seq<Action>)
    requires Inv(s) && Runs(s, run)
    ensures Inv(After(s, run)) && After(s, run).fps >= After(s, run).mode.refresh
    decreases |run|
  {
    if run != [] {
      NeverBelowRefresh(Step(s, run[0]), run[1..]);
    }
  }

  function AsActions(commits: seq<Commit>): seq<Action> {
    seq(|commits|, i requires 0 <= i < |commits| => PreUpdate(commits[i]))
  }

  predicate PlainIn(s: State, commits: seq<Commit>) {
    && !s.pendingFps
    && forall i :: 0 <= i < |commits| ==> !commits[i].seamless && !commits[i].modeset && commits[i].mode == s.mode
  }

  /** The rate and blanking time after any number of plain pre-updates: untouched until the delay is used
      up, then what the pre-update that used it up asked for. */
  lemma {:induction false} PlainUpdates(s: State, commits: seq<Commit>)
    requires PlainIn(s, commits)
    ensures Runs(s, AsActions(commits))
    ensures var n, t := |commits|, After(s, AsActions(commits));
            && t.mode == s.mode && t.opRate == s.opRate && !t.pendingFps
            && (if s.delayed == 0 || n < s.delayed then
                  && t.fps == s.fps && t.vblankUsec == s.vblankUsec
                  && t.delayed == (if s.delayed == 0 then 0 else s.delayed - n)
                else
                  && t.fps == Request(s.opRate, commits[s.delayed - 1])
                  && t.vblankUsec == s.pendingVblankUsec && t.delayed == 0)
    decreases |commits|
  {
    if commits != [] {
      var a := PreUpdate(commits[0]);
      assert AsActions(commits)[0] == a && AsActions(commits)[1..] == AsActions(commits[1..]);
      assert commits[0].mode == s.mode && CanDo(s, a);
      PlainUpdates(Step(s, a), commits[1..]);
    } else {
      assert AsActions(commits) == [];
    }
  }

  /** After a seamless switch downwards, two plain pre-updates keep the old rate and the third takes the
      rate it asks for, which is lower if the connector's demands did not change meanwhile. */
  lemma LoweredOnTheThird(s: State, down: Commit, first: Commit, second: Commit, third: Commit)
    requires Inv(s) && down.seamless && s.fps > Request(s.opRate, down)
    requires forall c :: c in [first, second, third] ==> !c.seamless && !c.modeset && c.mode == down.mode
    ensures var t := Step(s, PreUpdate(down));
            && PlainIn(t, [first, second, third])
            && t.fps == s.fps
            && Runs(t, AsActions([first])) && After(t, AsActions([first])).fps == s.fps
            && Runs(t, AsActions([first, second])) && After(t, AsActions([first, second])).fps == s.fps
            && Runs(t, AsActions([first, second, third]))
            && var u := After(t, AsActions([first, second, third]));
            && u.fps == Request(s.opRate, third) && u.vblankUsec == down.vblankUsec && u.delayed == 0
            && (third.minFps == down.minFps && third.ignoreOpRate == down.ignoreOpRate ==> u.fps < s.fps)
  {
    var t := Step(s, PreUpdate(down));
    assert first in [first, second, third] && second in [first, second, third] && third in [first, second, third];
    PlainUpdates(t, [first]);
    PlainUpdates(t, [first, second]);
    PlainUpdates(t, [first, second, third]);
  }

  /** A switch upwards, or to the same rate, takes effect at once and cancels a pending delay. */
  lemma RaisedAtOnce(s: State, up: Commit)
    requires (up.seamless || s.pendingFps) && s.fps <= Request(s.opRate, up)
    ensures var t := Step(s, PreUpdate(up));
            t.fps == Request(s.opRate, up) && t.fps >= s.fps && t.delayed == 0 && t.vblankUsec == up.vblankUsec
  {
  }

  /** Whichever way a seamless switch goes, three plain pre-updates later the rate and the blanking time are
      the new ones. */
  lemma SwitchSettles(s: State, switch: Commit, plain: seq<Commit>)
    requires switch.seamless && |plain| >= UPDATE_DELAY
    requires forall c :: c in plain ==> c == switch.(seamless := false, modeset := false)
    ensures var t := Step(s, PreUpdate(switch));
            && Runs(t, AsActions(plain))
            && After(t, AsActions(plain)).fps == Request(s.opRate, switch)
            && After(t, AsActions(plain)).vblankUsec == switch.vblankUsec
  {
    var t := Step(s, PreUpdate(switch));
    assert forall i :: 0 <= i < |plain| ==> plain[i] in plain;
    if s.fps <= Request(s.opRate, switch) {
      RaisedAtOnce(s, switch);
    }
    PlainUpdates(t, plain);
  }

  /** A modeset takes effect at once whichever way the rate goes. */
  lemma ModesetSettles(s: State, c: Commit)
    requires c.modeset && !c.seamless && !s.pendingFps
    ensures var t := Step(s, PreUpdate(c));
            && t.mode == c.mode && t.fps == Request(s.opRate, c) && t.vblankUsec == c.vblankUsec && t.delayed == 0
  {
  }

  /** A new operation rate is kept for the next pre-update and settles like a switch, seamless or not. */
  lemma OpRateSettles(s: State, rate: nat, plain: seq<Commit>)
    requires |plain| > UPDATE_DELAY
    requires forall c :: c in plain ==> c == plain[0]
    requires !plain[0].seamless && !plain[0].modeset && plain[0].mode == s.mode
    ensures var t := Step(s, OpRateUpdate(rate));
            && t.fps == s.fps && Runs(t, AsActions(plain))
            && After(t, AsActions(plain)).fps == Request(rate, plain[0])
            && After(t, AsActions(plain)).vblankUsec == plain[0].vblankUsec
  {
    var c, rest := plain[0], plain[1..];
    var t := Step(s, OpRateUpdate(rate));
    var u := Step(t, PreUpdate(c));
    assert forall i :: 0 <= i < |rest| ==> rest[i] == plain[i + 1] && plain[i + 1] in plain;
    assert AsActions(plain)[0] == PreUpdate(c) && AsActions(plain)[1..] == AsActions(rest);
    if s.fps <= Request(rate, c) {
      RaisedAtOnce(t, c);
    }
    PlainUpdates(u, rest);
  }

  /** `decon->bts` and the methods that change it. */
  class BtsRate {
    var mode: Mode
    var fps: nat
    var vblankUsec: nat
    var delayedUpdate: nat
    var pendingVblankUsec: nat
    var opRate: nat
    var pendingFpsUpdate: bool

    constructor ()
      ensures Model() == State(Mode(0, false), 0, 0, 0, 0, 0, false) && Inv(Model())
    {
      mode, fps, vblankUsec := Mode(0, false), 0, 0;
      delayedUpdate, pendingVblankUsec, opRate, pendingFpsUpdate := 0, 0, 0, false;
    }

    ghost function Model(): State
      reads this
    {
      State(mode, fps, vblankUsec, delayedUpdate, pendingVblankUsec, opRate, pendingFpsUpdate)
    }

    method ModeUpdateBts(c: Commit, vblank: nat)
      modifies this
      ensures Model() == Updated(old(Model()), c, vblank)
    {
      var modeFps := Max(c.mode.refresh, c.minFps);
      fps := if modeFps >= opRate || !c.mode.opRateMode || c.ignoreOpRate then modeFps else opRate;
      mode, vblankUsec, delayedUpdate := c.mode, vblank, 0;
    }

    method SeamlessModeBtsUpdate(c: Commit)
      modifies this
      ensures Model() == SeamlesslyUpdated(old(Model()), c)
    {
      var modeFps := Max(c.mode.refresh, c.minFps);
      var requested := if modeFps >= opRate || !c.mode.opRateMode || c.ignoreOpRate then modeFps else opRate;
      if fps > requested {
        mode := c.mode;
        pendingVblankUsec := c.vblankUsec;
        delayedUpdate := UPDATE_DELAY;
      } else {
        ModeUpdateBts(c, c.vblankUsec);
      }
    }

    /** `atomic_dec_if_positive`: the old value minus one, stored if not negative. */
    method DecIfPositive() returns (r: int)
      modifies this`delayedUpdate
      ensures r == old(delayedUpdate) - 1
      ensures delayedUpdate == if old(delayedUpdate) > 0 then old(delayedUpdate) - 1 else 0
    {
      r := delayedUpdate - 1;
      if r >= 0 {
        delayedUpdate := r;
      }
    }

    method PreUpdate(c: Commit)
      requires Inv(Model()) && CanDo(Model(), Action.PreUpdate(c))
      modifies this
      ensures Model() == Step(old(Model()), Action.PreUpdate(c)) && Inv(Model())
    {
      if c.seamless || pendingFpsUpdate {
        SeamlessModeBtsUpdate(c);
        pendingFpsUpdate := false;
      } else if c.modeset {
        ModeUpdateBts(c, c.vblankUsec);
      } else {
        var left := DecIfPositive();
        if left == 0 {
          ModeUpdateBts(c, pendingVblankUsec);
        }
      }
    }

    method OpRateUpdate(rate: nat)
      requires Inv(Model())
      modifies this
      ensures Model() == Step(old(Model()), Action.OpRateUpdate(rate)) && Inv(Model())
    {
      opRate := rate;
      pendingFpsUpdate := true;
    }
  }
}
