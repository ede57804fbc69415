/**
 Programming the planes of one CRTC onto its windows during a commit.

 Each plane owns one DPP.  A DPP remembers the window it was last attached to;
 the commit visits the planes of the atomic state in some order, attaches the
 visible ones and detaches the others.
 */
module WindowRouting {
  import opened WindowAllocator

  /** Hardware and bookkeeping: which plane drives each enabled window, and for every DPP its last
      window and whether it is connected to it. */
  datatype Routing = Routing(driver: map<nat, nat>, winId: map<nat, nat>, connected: set<nat>)

  /** The part of a committed CRTC state that the plane callbacks look at: the reserved and the visible
      windows, the position of every visible plane, and whether positions were renumbered. */
  datatype View = View(reserved: Mask, visible: Mask, zpos: map<nat, nat>, zposChanged: bool)

  datatype PlaneOp = Update(plane: nat, colormap: bool) | Disable(plane: nat)

  /** Turning a window off, unless the new state shows something in it. */
  function WinDisabled(r: Routing, v: View, w: nat, width: nat): Routing {
    if w < width && w !in v.visible then r.(driver := r.driver - {w}) else r
  }

  function TargetWin(r: Routing, v: View, p: nat, width: nat): Option<nat>
    requires p in v.zpos && p in r.winId
  {
    if p !in r.connected || v.zposChanged then WinId(v.reserved, v.zpos[p], width) else Some(r.winId[p])
  }

  function Updated(r: Routing, v: View, p: nat, colormap: bool, width: nat): Routing
    requires p in v.zpos && p in r.winId
  {
    match TargetWin(r, v, p, width)
    case None => r
    case Some(w) =>
      var off := if r.winId[p] != w then WinDisabled(r, v, r.winId[p], width) else r;
      Routing(off.driver[w := p], off.winId[p := w],
              if colormap then off.connected - {p} else off.connected + {p})
  }

  function Disabled(r: Routing, v: View, p: nat, width: nat): Routing
    requires p in r.winId
  {
    var off := WinDisabled(r, v, r.winId[p], width);
    off.(connected := off.connected - {p})
  }

  /** An operation a commit to `v` can contain: visible planes are updated, others are disabled. */
  predicate OpFits(op: PlaneOp, v: View) {
    match op
    case Update(p, _) => p in v.zpos
    case Disable(p) => p !in v.zpos
  }

  function Applied(r: Routing, v: View, op: PlaneOp, width: nat): Routing
    requires op.plane in r.winId && OpFits(op, v)
  {
    match op
    case Update(p, colormap) => Updated(r, v, p, colormap, width)
    case Disable(p) => Disabled(r, v, p, width)
  }

  function AppliedAll(r: Routing, v: View, ops: seq<PlaneOp>, width: nat): (r': Routing)
    requires forall i :: 0 <= i < |ops| ==> ops[i].plane in r.winId && OpFits(ops[i], v)
    ensures r.winId.Keys <= r'.winId.Keys
    decreases |ops|
  {
    if ops == [] then r
    else Applied(AppliedAll(r, v, ops[..|ops| - 1], width), v, ops[|ops| - 1], width)
  }

  // ---------------------------------------------------------------------
  // Assumptions and invariant
  // ---------------------------------------------------------------------

  /** What the window check and the DRM core establish for a committed view: visible planes have
      distinct positions below the number of reserved windows, and their windows are marked visible. */
  ghost predicate Coherent(v: View, width: nat) {
    && (forall b :: b in v.reserved ==> b < width)
    && (forall p :: p in v.zpos ==> v.zpos[p] < |v.reserved|)
    && (forall p, q :: p in v.zpos && q in v.zpos && p != q ==> v.zpos[p] != v.zpos[q])
    && (forall p :: p in v.zpos && WinId(v.reserved, v.zpos[p], width).Some? ==>
                      WinId(v.reserved, v.zpos[p], width).value in v.visible)
  }

  /** What the plane callbacks see of a checked CRTC state; rounded-corner planes use no window. */
  function ViewOf(c: CrtcState, rcdPlanes: set<nat>): View {
    View(c.reserved, c.visible,
         map p | p in c.planeMask - rcdPlanes && p in c.planes && c.planes[p].visible :: c.planes[p].zpos,
         c.zposChanged)
  }

  /** The window check makes the view coherent, given positions normalised by the DRM core: those of the
      planes that need a window are distinct and below their number. */
  lemma CheckedViewIsCoherent(c: CrtcState, rcdPlanes: set<nat>, width: nat)
    requires forall b :: b in c.reserved ==> b < width
    requires |c.reserved| == WinCnt(c, rcdPlanes) && c.enable && c.effectivelyActive
    requires VisibleIsExact(c, width)
    requires forall p :: p in c.planeMask - rcdPlanes && p in c.planes ==> c.planes[p].zpos < |c.planeMask - rcdPlanes|
    requires forall p, q | p in c.planeMask - rcdPlanes && q in c.planeMask - rcdPlanes ::
               p != q && p in c.planes && q in c.planes ==> c.planes[p].zpos != c.planes[q].zpos
    ensures Coherent(ViewOf(c, rcdPlanes), width)
  {
    var v := ViewOf(c, rcdPlanes);
    forall p | p in v.zpos ensures v.zpos[p] < |v.reserved| {
      assert p in c.planeMask - rcdPlanes;
    }
  }

  /** Every visible plane drives the window of its position, and only visible planes are connected. */
  ghost predicate Routed(r: Routing, v: View, width: nat) {
    && (forall p :: p in v.zpos ==> p in r.winId && Shows(r, v, p, width))
    && (forall p :: p in r.connected ==> p in v.zpos && p in r.winId)
  }

  ghost predicate Shows(r: Routing, v: View, p: nat, width: nat)
    requires p in v.zpos && p in r.winId
  {
    && WinId(v.reserved, v.zpos[p], width) == Some(r.winId[p])
    && r.winId[p] in r.driver && r.driver[r.winId[p]] == p
  }

  /** A commit from `o` to `v`: if positions were not renumbered, planes visible before and after keep
      window and position; a visible plane that is not visited was visible before and positions were not
      renumbered; a plane that stops being visible is visited; no plane is visited twice. */
  ghost predicate ValidCommit(o: View, v: View, ops: seq<PlaneOp>) {
    && (!v.zposChanged ==> forall p :: p in o.zpos && p in v.zpos ==>
                                         v.reserved == o.reserved && v.zpos[p] == o.zpos[p])
    && (forall i :: 0 <= i < |ops| ==> OpFits(ops[i], v))
    && (forall i, j :: 0 <= i < j < |ops| ==> ops[i].plane != ops[j].plane)
    && (forall p :: p in v.zpos && !Visited(ops, p) ==> !v.zposChanged && p in o.zpos)
    && (forall p :: p in o.zpos && p !in v.zpos ==> Visited(ops, p))
  }

  predicate Visited(ops: seq<PlaneOp>, p: nat) {
    exists i :: 0 <= i < |ops| && ops[i].plane == p
  }

  // ---------------------------------------------------------------------
  // Safety of turning windows off
  // ---------------------------------------------------------------------

  /** Whatever window is asked to be turned off, a window of a visible plane stays as it is. */
  lemma DisableSparesVisible(r: Routing, v: View, w: nat, p: nat, width: nat)
    requires Coherent(v, width) && p in v.zpos
    ensures var shown := WinId(v.reserved, v.zpos[p], width);
            && shown.Some?
            && (shown.value in r.driver ==>
                  && shown.value in WinDisabled(r, v, w, width).driver
                  && WinDisabled(r, v, w, width).driver[shown.value] == r.driver[shown.value])
  {
    WinIdIsSelect(v.reserved, v.zpos[p], width);
  }

  lemma WindowsDiffer(v: View, p: nat, q: nat, width: nat)
    requires Coherent(v, width) && p in v.zpos && q in v.zpos && p != q
    ensures WinId(v.reserved, v.zpos[p], width) != WinId(v.reserved, v.zpos[q], width)
  {
    if WinId(v.reserved, v.zpos[p], width) == WinId(v.reserved, v.zpos[q], width) {
      WinIdInjective(v.reserved, v.zpos[p], v.zpos[q], width);
    }
  }

  // ---------------------------------------------------------------------
  // One commit
  // ---------------------------------------------------------------------

  /** After the first `n` visits: visited visible planes are shown, unvisited planes are as before. */
  ghost predicate RoutedUpTo(r0: Routing, r: Routing, v: View, ops: seq<PlaneOp>, n: nat, width: nat)
    requires n <= |ops|
  {
    && r.winId.Keys == r0.winId.Keys
    && (forall p :: p in v.zpos && p in r.winId && Visited(ops[..n], p) ==> Shows(r, v, p, width))
    && (forall p :: p in r.winId && !Visited(ops[..n], p) ==>
                      r.winId[p] == r0.winId[p] && (p in r.connected <==> p in r0.connected))
    && (forall p :: p in v.zpos && p in r.winId && !Visited(ops[..n], p) && Shows(r0, v, p, width) ==>
                      Shows(r, v, p, width))
    && (forall p :: p in r.connected ==> p in r0.connected || p in v.zpos)
    && (forall p :: p in r.connected && Visited(ops[..n], p) ==> p in v.zpos)
  }

  lemma VisitedStep(ops: seq<PlaneOp>, n: nat, p: nat)
    requires n < |ops|
    ensures Visited(ops[..n + 1], p) <==> Visited(ops[..n], p) || ops[n].plane == p
  {
    if Visited(ops[..n], p) {
      var i :| 0 <= i < n && ops[..n][i].plane == p;
      assert ops[..n + 1][i].plane == p;
    }
    if ops[n].plane == p {
      assert ops[..n + 1][n].plane == p;
    }
    if Visited(ops[..n + 1], p) {
      var i :| 0 <= i < n + 1 && ops[..n + 1][i].plane == p;
      if i < n {
        assert ops[..n][i].plane == p;
      }
    }
  }

  lemma NotVisitedTwice(ops: seq<PlaneOp>, n: nat)
    requires n < |ops|
    requires forall i, j :: 0 <= i < j < |ops| ==> ops[i].plane != ops[j].plane
    ensures !Visited(ops[..n], ops[n].plane)
  {
    forall i | 0 <= i < |ops[..n]| ensures ops[..n][i].plane != ops[n].plane {
      assert ops[..n][i] == ops[i];
    }
  }

  /** The window an update chooses is the window of the plane's position, whether looked up or reused. */
  lemma TargetIsShown(r0: Routing, o: View, r: Routing, v: View, ops: seq<PlaneOp>, n: nat, width: nat)
    requires n < |ops| && ops[n].Update? && ValidCommit(o, v, ops) && Coherent(v, width)
    requires Routed(r0, o, width) && RoutedUpTo(r0, r, v, ops, n, width) && ops[n].plane in r.winId
    ensures TargetWin(r, v, ops[n].plane, width) == WinId(v.reserved, v.zpos[ops[n].plane], width)
    ensures TargetWin(r, v, ops[n].plane, width).Some?
  {
    var p := ops[n].plane;
    WinIdIsSelect(v.reserved, v.zpos[p], width);
    NotVisitedTwice(ops, n);
    if p in r.connected && !v.zposChanged {
      assert p in r0.connected && p in o.zpos && Shows(r0, o, p, width);
    }
  }

  /** What one update changes: the plane takes the window of its position, and every other visible
      plane keeps its own. */
  lemma UpdateEffect(r: Routing, v: View, q: nat, colormap: bool, width: nat)
    requires Coherent(v, width) && q in v.zpos && q in r.winId
    requires TargetWin(r, v, q, width).Some?
    requires TargetWin(r, v, q, width) == WinId(v.reserved, v.zpos[q], width)
    ensures var r' := Updated(r, v, q, colormap, width);
            && r'.winId == r.winId[q := TargetWin(r, v, q, width).value]
            && r'.connected - {q} == r.connected - {q}
            && Shows(r', v, q, width)
            && forall p :: p in v.zpos && p in r.winId && Shows(r, v, p, width) ==> Shows(r', v, p, width)
  {
    var r' := Updated(r, v, q, colormap, width);
    forall p | p in v.zpos && p in r.winId && Shows(r, v, p, width)
      ensures Shows(r', v, p, width)
    {
      if p != q {
        WindowsDiffer(v, p, q, width);
        DisableSparesVisible(r, v, r.winId[q], p, width);
      }
    }
  }

  lemma UpdateStep(r0: Routing, o: View, r: Routing, v: View, ops: seq<PlaneOp>, n: nat, width: nat)
    requires n < |ops| && ops[n].Update? && ValidCommit(o, v, ops) && Coherent(v, width)
    requires Routed(r0, o, width) && RoutedUpTo(r0, r, v, ops, n, width) && ops[n].plane in r.winId
    ensures RoutedUpTo(r0, Applied(r, v, ops[n], width), v, ops, n + 1, width)
  {
    var q := ops[n].plane;
    assert q in v.zpos by {
      assert OpFits(ops[n], v);
    }
    TargetIsShown(r0, o, r, v, ops, n, width);
    UpdateEffect(r, v, q, ops[n].colormap, width);
    UpdateKeeps(r0, r, Applied(r, v, ops[n], width), v, ops, n, width);
  }

  lemma UpdateKeeps(r0: Routing, r: Routing, r': Routing, v: View, ops: seq<PlaneOp>, n: nat, width: nat)
    requires n < |ops| && RoutedUpTo(r0, r, v, ops, n, width)
    requires ops[n].plane in r.winId && ops[n].plane in v.zpos
    requires r'.winId.Keys == r.winId.Keys && r'.connected - {ops[n].plane} == r.connected - {ops[n].plane}
    requires forall p :: p in r.winId && p != ops[n].plane ==> r'.winId[p] == r.winId[p]
    requires Shows(r', v, ops[n].plane, width)
    requires forall p :: p in v.zpos && p in r.winId && Shows(r, v, p, width) ==> Shows(r', v, p, width)
    ensures RoutedUpTo(r0, r', v, ops, n + 1, width)
  {
    var q := ops[n].plane;
    forall p ensures Visited(ops[..n + 1], p) <==> Visited(ops[..n], p) || q == p {
      VisitedStep(ops, n, p);
    }
    forall p | p != q ensures p in r'.connected <==> p in r.connected {
      assert p in r'.connected - {q} <==> p in r.connected - {q};
    }
  }

  lemma DisableStep(r0: Routing, o: View, r: Routing, v: View, ops: seq<PlaneOp>, n: nat, width: nat)
    requires n < |ops| && ops[n].Disable? && ValidCommit(o, v, ops) && Coherent(v, width)
    requires RoutedUpTo(r0, r, v, ops, n, width) && ops[n].plane in r.winId
    ensures RoutedUpTo(r0, Applied(r, v, ops[n], width), v, ops, n + 1, width)
  {
    var q := ops[n].plane;
    var r' := Applied(r, v, ops[n], width);
    assert OpFits(ops[n], v);
    forall p | p in r.winId ensures Visited(ops[..n + 1], p) <==> Visited(ops[..n], p) || q == p {
      VisitedStep(ops, n, p);
    }
    forall p | p in r.connected ensures Visited(ops[..n + 1], p) <==> Visited(ops[..n], p) || q == p {
      VisitedStep(ops, n, p);
    }
    forall p | p in v.zpos && p in r.winId && Shows(r, v, p, width)
      ensures Shows(r', v, p, width)
    {
      DisableSparesVisible(r, v, r.winId[q], p, width);
    }
  }

  lemma {:induction false} RoutedPrefix(r0: Routing, o: View, v: View, ops: seq<PlaneOp>, n: nat, width: nat)
    requires n <= |ops| && ValidCommit(o, v, ops) && Coherent(v, width) && Routed(r0, o, width)
    requires forall i :: 0 <= i < |ops| ==> ops[i].plane in r0.winId
    ensures RoutedUpTo(r0, AppliedAll(r0, v, ops[..n], width), v, ops, n, width)
  {
    if n == 0 {
      assert forall p :: !Visited(ops[..0], p);
    } else {
      RoutedPrefix(r0, o, v, ops, n - 1, width);
      assert ops[..n][..n - 1] == ops[..n - 1] && ops[..n][n - 1] == ops[n - 1];
      var r := AppliedAll(r0, v, ops[..n - 1], width);
      assert ops[n - 1].plane in r0.winId;
      if ops[n - 1].Update? {
        UpdateStep(r0, o, r, v, ops, n - 1, width);
      } else {
        DisableStep(r0, o, r, v, ops, n - 1, width);
      }
    }
  }

  /** In whatever order the planes are visited, afterwards every visible plane drives the window of its
      position and nothing else is connected. */
  lemma CommitRoutes(r0: Routing, o: View, v: View, ops: seq<PlaneOp>, width: nat)
    requires ValidCommit(o, v, ops) && Coherent(v, width) && Routed(r0, o, width)
    requires forall i :: 0 <= i < |ops| ==> ops[i].plane in r0.winId
    ensures Routed(AppliedAll(r0, v, ops, width), v, width)
  {
    RoutedPrefix(r0, o, v, ops, |ops|, width);
    assert ops[..|ops|] == ops;
    var r := AppliedAll(r0, v, ops, width);
    forall p | p in v.zpos ensures p in r.winId && Shows(r, v, p, width) {
      if Visited(ops, p) {
        var i :| 0 <= i < |ops| && ops[i].plane == p;
        assert p in r0.winId;
      } else {
        assert Shows(r0, o, p, width);
        assert Shows(r0, v, p, width);
      }
    }
    forall p | p in r.connected ensures p in v.zpos && p in r.winId {
      assert p in r0.connected ==> p in o.zpos;
    }
  }

  /** After the first `n` visits a visited plane is connected exactly if it shows a buffer; others are as before. */
  ghost predicate ConnectedUpTo(r0: Routing, r: Routing, ops: seq<PlaneOp>, n: nat)
    requires n <= |ops|
  {
    && (forall i :: 0 <= i < n ==> (ops[i].plane in r.connected <==> ops[i].Update? && !ops[i].colormap))
    && (forall p :: !Visited(ops[..n], p) ==> (p in r.connected <==> p in r0.connected))
  }

  lemma OneVisitConnects(r0: Routing, o: View, r: Routing, v: View, ops: seq<PlaneOp>, n: nat, width: nat)
    requires n < |ops| && ValidCommit(o, v, ops) && Coherent(v, width) && Routed(r0, o, width)
    requires RoutedUpTo(r0, r, v, ops, n, width) && ops[n].plane in r.winId
    ensures OpFits(ops[n], v)
    ensures ops[n].plane in Applied(r, v, ops[n], width).connected <==> ops[n].Update? && !ops[n].colormap
    ensures forall p :: p != ops[n].plane ==> (p in Applied(r, v, ops[n], width).connected <==> p in r.connected)
  {
    assert OpFits(ops[n], v);
    if ops[n].Update? {
      TargetIsShown(r0, o, r, v, ops, n, width);
    }
  }

  lemma ConnectsStep(r0: Routing, r: Routing, r': Routing, ops: seq<PlaneOp>, n: nat)
    requires n < |ops| && ConnectedUpTo(r0, r, ops, n)
    requires forall i, j :: 0 <= i < j < |ops| ==> ops[i].plane != ops[j].plane
    requires ops[n].plane in r'.connected <==> ops[n].Update? && !ops[n].colormap
    requires forall p :: p != ops[n].plane ==> (p in r'.connected <==> p in r.connected)
    ensures ConnectedUpTo(r0, r', ops, n + 1)
  {
    forall p ensures Visited(ops[..n + 1], p) <==> Visited(ops[..n], p) || ops[n].plane == p {
      VisitedStep(ops, n, p);
    }
  }

  lemma {:induction false} ConnectsPrefix(r0: Routing, o: View, v: View, ops: seq<PlaneOp>, n: nat, width: nat)
    requires n <= |ops| && ValidCommit(o, v, ops) && Coherent(v, width) && Routed(r0, o, width)
    requires forall i :: 0 <= i < |ops| ==> ops[i].plane in r0.winId
    ensures ConnectedUpTo(r0, AppliedAll(r0, v, ops[..n], width), ops, n)
  {
    if n > 0 {
      ConnectsPrefix(r0, o, v, ops, n - 1, width);
      RoutedPrefix(r0, o, v, ops, n - 1, width);
      assert ops[..n][..n - 1] == ops[..n - 1] && ops[..n][n - 1] == ops[n - 1];
      assert ops[n - 1].plane in r0.winId;
      var r := AppliedAll(r0, v, ops[..n - 1], width);
      OneVisitConnects(r0, o, r, v, ops, n - 1, width);
      ConnectsStep(r0, r, Applied(r, v, ops[n - 1], width), ops, n - 1);
    }
  }

  /** After a commit exactly the planes shown from a buffer are connected to their DPP, or those not visited that
      were before. */
  lemma CommitConnects(r0: Routing, o: View, v: View, ops: seq<PlaneOp>, width: nat)
    requires ValidCommit(o, v, ops) && Coherent(v, width) && Routed(r0, o, width)
    requires forall i :: 0 <= i < |ops| ==> ops[i].plane in r0.winId
    ensures var r := AppliedAll(r0, v, ops, width);
            && (forall i :: 0 <= i < |ops| ==> (ops[i].plane in r.connected <==> ops[i].Update? && !ops[i].colormap))
            && (forall p :: !Visited(ops, p) ==> (p in r.connected <==> p in r0.connected))
  {
    ConnectsPrefix(r0, o, v, ops, |ops|, width);
    assert ops[..|ops|] == ops;
  }

  // ---------------------------------------------------------------------
  // Nothing else is left on
  // ---------------------------------------------------------------------

  /** A visible plane is to be shown in this window. */
  ghost predicate InUse(v: View, w: nat, width: nat) {
    exists p :: p in v.zpos && WinId(v.reserved, v.zpos[p], width) == Some(w)
  }

  /** The visible mask marks the windows of the visible planes and no others. */
  ghost predicate Exact(v: View, width: nat) {
    forall w :: w in v.visible <==> InUse(v, w, width)
  }

  /** The check computes such a mask, as long as no rounded-corner plane has a position. */
  lemma CheckedViewIsExact(c: CrtcState, rcdPlanes: set<nat>, width: nat)
    requires VisibleIsExact(c, width)
    requires forall p :: p in c.planeMask && p in rcdPlanes && p in c.planes && c.planes[p].visible ==>
                           WinId(c.reserved, c.planes[p].zpos, width).None?
    ensures Exact(ViewOf(c, rcdPlanes), width)
  {
    var v := ViewOf(c, rcdPlanes);
    forall w ensures w in v.visible <==> InUse(v, w, width) {
      if w in c.visible {
        var p :| p in c.planeMask && p in c.planes && c.planes[p].visible
                 && WinId(c.reserved, c.planes[p].zpos, width) == Some(w);
        assert p in v.zpos;
      }
    }
  }

  /** Exactly the windows of the visible mask are on. */
  predicate OnlyVisibleOn(r: Routing, v: View) {
    r.driver.Keys == v.visible
  }

  /** A window outside the visible mask is off once it has been turned off, and no other window changes; nothing
      happens to a visible one, nor for a number that is no window. */
  lemma DisableTurnsOff(r: Routing, v: View, w: nat, width: nat)
    ensures w < width && w !in v.visible ==> w !in WinDisabled(r, v, w, width).driver
    ensures w >= width || w in v.visible ==> WinDisabled(r, v, w, width) == r
    ensures forall x :: x != w ==>
                          && (x in WinDisabled(r, v, w, width).driver <==> x in r.driver)
                          && (x in r.driver ==> WinDisabled(r, v, w, width).driver[x] == r.driver[x])
  {
  }

  /** The last window of a plane that has still to be visited. */
  ghost predicate LeftOver(r: Routing, o: View, ops: seq<PlaneOp>, n: nat, w: nat)
    requires n <= |ops|
  {
    exists p :: p in o.zpos && p in r.winId && !Visited(ops[..n], p) && r.winId[p] == w
  }

  /** Every window that is on shows something new, or belongs to a plane still to be visited. */
  ghost predicate Accountable(r: Routing, o: View, v: View, ops: seq<PlaneOp>, n: nat)
    requires n <= |ops|
  {
    forall w :: w in r.driver ==> w in v.visible || LeftOver(r, o, ops, n, w)
  }

  /** One visit: a window outside the visible mask that is on afterwards was on before, and is not the one the
      plane had. */
  lemma VisitTurnsOff(r: Routing, v: View, op: PlaneOp, width: nat)
    requires op.plane in r.winId && OpFits(op, v) && Coherent(v, width)
    requires op.Update? ==> TargetWin(r, v, op.plane, width) == WinId(v.reserved, v.zpos[op.plane], width)
    ensures forall w :: w in Applied(r, v, op, width).driver && w !in v.visible ==>
                          w in r.driver && (w < width ==> w != r.winId[op.plane])
    ensures forall p :: p in r.winId && p != op.plane ==>
                          p in Applied(r, v, op, width).winId && Applied(r, v, op, width).winId[p] == r.winId[p]
  {
    if op.Update? {
      DisableSparesVisible(r, v, r.winId[op.plane], op.plane, width);
    }
  }

  lemma OldWindowExists(r: Routing, o: View, p: nat, width: nat)
    requires Coherent(o, width) && p in o.zpos && Routed(r, o, width)
    ensures r.winId[p] < width
  {
    assert Shows(r, o, p, width);
    WinIdIsSelect(o.reserved, o.zpos[p], width);
  }

  /** Visiting a plane leaves its old window off or in use. */
  lemma VisitAccounts(r0: Routing, o: View, r: Routing, v: View, ops: seq<PlaneOp>, n: nat, width: nat)
    requires n < |ops| && ValidCommit(o, v, ops) && Coherent(v, width) && Coherent(o, width) && Routed(r0, o, width)
    requires RoutedUpTo(r0, r, v, ops, n, width) && ops[n].plane in r.winId
    requires Accountable(r, o, v, ops, n)
    ensures OpFits(ops[n], v) && Accountable(Applied(r, v, ops[n], width), o, v, ops, n + 1)
  {
    assert OpFits(ops[n], v);
    var r' := Applied(r, v, ops[n], width);
    if ops[n].Update? {
      TargetIsShown(r0, o, r, v, ops, n, width);
    }
    VisitTurnsOff(r, v, ops[n], width);
    forall w | w in r'.driver && w !in v.visible ensures LeftOver(r', o, ops, n + 1, w) {
      assert LeftOver(r, o, ops, n, w);
      var p :| p in o.zpos && p in r.winId && !Visited(ops[..n], p) && r.winId[p] == w;
      OldWindowExists(r0, o, p, width);
      assert r0.winId[p] == w;
      VisitedStep(ops, n, p);
    }
  }

  lemma {:induction false} AccountablePrefix(r0: Routing, o: View, v: View, ops: seq<PlaneOp>, n: nat, width: nat)
    requires n <= |ops| && ValidCommit(o, v, ops) && Coherent(v, width) && Coherent(o, width) && Routed(r0, o, width)
    requires forall i :: 0 <= i < |ops| ==> ops[i].plane in r0.winId
    requires Exact(o, width) && OnlyVisibleOn(r0, o)
    ensures Accountable(AppliedAll(r0, v, ops[..n], width), o, v, ops, n)
  {
    if n == 0 {
      forall w | w in r0.driver ensures LeftOver(r0, o, ops, 0, w) {
        var p :| p in o.zpos && WinId(o.reserved, o.zpos[p], width) == Some(w);
        assert Shows(r0, o, p, width) && !Visited(ops[..0], p);
      }
    } else {
      AccountablePrefix(r0, o, v, ops, n - 1, width);
      RoutedPrefix(r0, o, v, ops, n - 1, width);
      assert ops[..n][..n - 1] == ops[..n - 1] && ops[..n][n - 1] == ops[n - 1];
      assert ops[n - 1].plane in r0.winId;
      VisitAccounts(r0, o, AppliedAll(r0, v, ops[..n - 1], width), v, ops, n - 1, width);
    }
  }

  /** In whatever order the planes are visited: if exactly the windows of the visible planes were on before
      the commit, exactly those of the new state are on after it. */
  lemma CommitTurnsOthersOff(r0: Routing, o: View, v: View, ops: seq<PlaneOp>, width: nat)
    requires ValidCommit(o, v, ops) && Coherent(v, width) && Coherent(o, width) && Routed(r0, o, width)
    requires forall i :: 0 <= i < |ops| ==> ops[i].plane in r0.winId
    requires Exact(o, width) && Exact(v, width) && OnlyVisibleOn(r0, o)
    ensures OnlyVisibleOn(AppliedAll(r0, v, ops, width), v)
  {
    AccountablePrefix(r0, o, v, ops, |ops|, width);
    RoutedPrefix(r0, o, v, ops, |ops|, width);
    CommitRoutes(r0, o, v, ops, width);
    assert ops[..|ops|] == ops;
    var r := AppliedAll(r0, v, ops, width);
    forall w | w in r.driver ensures w in v.visible {
      if LeftOver(r, o, ops, |ops|, w) {
        var p :| p in o.zpos && p in r.winId && !Visited(ops, p) && r.winId[p] == w;
        assert p in v.zpos && Shows(r, v, p, width);
      }
    }
    forall w | w in v.visible ensures w in r.driver {
      var p :| p in v.zpos && WinId(v.reserved, v.zpos[p], width) == Some(w);
      assert Shows(r, v, p, width);
    }
  }

  // ---------------------------------------------------------------------
  // Runs of commits and reinitialisations
  // ---------------------------------------------------------------------

  const NO_WIN := 0xFF

  /** Every window off and every DPP detached, as after switching the DECON off or entering hibernation. */
  function Blanked(r: Routing): Routing {
    Routing(map[], map p | p in r.winId :: NO_WIN, {})
  }

  /** What is shown after that. */
  const BLANK: View := View({}, {}, map[], false)

  datatype Event = Commit(view: View, ops: seq<PlaneOp>) | Reinit

  function ViewAfter(e: Event): View {
    if e.Commit? then e.view else BLANK
  }

  function RoutingAfter(r: Routing, e: Event, width: nat): Routing
    requires e.Commit? ==> forall i :: 0 <= i < |e.ops| ==> e.ops[i].plane in r.winId && OpFits(e.ops[i], e.view)
  {
    if e.Commit? then AppliedAll(r, e.view, e.ops, width) else Blanked(r)
  }

  /** A commit follows from the view before it; after a reinitialisation that is the blank one, so that the next
      commit, a modeset, has to visit every plane it shows. */
  ghost predicate ValidEvent(o: View, e: Event, planes: set<nat>, width: nat) {
    e.Commit? ==>
      && ValidCommit(o, e.view, e.ops)
      && Coherent(e.view, width)
      && forall i :: 0 <= i < |e.ops| ==> e.ops[i].plane in planes
  }

  ghost predicate ValidRun(o: View, run: seq<Event>, planes: set<nat>, width: nat)
    decreases |run|
  {
    run == [] || (ValidEvent(o, run[0], planes, width) && ValidRun(ViewAfter(run[0]), run[1..], planes, width))
  }

  ghost function AfterRun(r: Routing, o: View, run: seq<Event>, planes: set<nat>, width: nat): Routing
    requires ValidRun(o, run, planes, width) && planes <= r.winId.Keys
    decreases |run|
  {
    if run == [] then r
    else AfterRun(RoutingAfter(r, run[0], width), ViewAfter(run[0]), run[1..], planes, width)
  }

  ghost function LastView(o: View, run: seq<Event>): View {
    if run == [] then o else ViewAfter(run[|run| - 1])
  }

  lemma EventRoutes(r: Routing, o: View, e: Event, planes: set<nat>, width: nat)
    requires ValidEvent(o, e, planes, width) && planes <= r.winId.Keys && Routed(r, o, width)
    ensures planes <= RoutingAfter(r, e, width).winId.Keys
    ensures Routed(RoutingAfter(r, e, width), ViewAfter(e), width)
  {
    if e.Commit? {
      CommitRoutes(r, o, e.view, e.ops, width);
    }
  }

  /** Over every run of commits and reinitialisations the visible planes drive their windows. */
  lemma {:induction false} EveryRunRoutes(r: Routing, o: View, run: seq<Event>, planes: set<nat>, width: nat)
    requires ValidRun(o, run, planes, width) && planes <= r.winId.Keys && Routed(r, o, width)
    ensures Routed(AfterRun(r, o, run, planes, width), LastView(o, run), width)
    decreases |run|
  {
    if run != [] {
      EventRoutes(r, o, run[0], planes, width);
      EveryRunRoutes(RoutingAfter(r, run[0], width), ViewAfter(run[0]), run[1..], planes, width);
    }
  }

  ghost predicate ExactRun(run: seq<Event>, width: nat) {
    forall i :: 0 <= i < |run| && run[i].Commit? ==> Exact(run[i].view, width)
  }

  /** And over every such run exactly the windows of the visible planes are on. */
  lemma {:induction false} EveryRunTurnsOthersOff(r: Routing, o: View, run: seq<Event>, planes: set<nat>, width: nat)
    requires ValidRun(o, run, planes, width) && planes <= r.winId.Keys && Routed(r, o, width)
    requires Coherent(o, width) && Exact(o, width) && OnlyVisibleOn(r, o) && ExactRun(run, width)
    ensures OnlyVisibleOn(AfterRun(r, o, run, planes, width), LastView(o, run))
    decreases |run|
  {
    if run != [] {
      EventRoutes(r, o, run[0], planes, width);
      if run[0].Commit? {
        CommitTurnsOthersOff(r, o, run[0].view, run[0].ops, width);
      }
      EveryRunTurnsOthersOff(RoutingAfter(r, run[0], width), ViewAfter(run[0]), run[1..], planes, width);
    }
  }

  /** The plane callbacks acting on the hardware windows and the DPP bookkeeping. */
  class PlaneRouter {
    var driver: map<nat, nat>
    var winId: map<nat, nat>
    var connected: set<nat>
    const width: nat

    ghost function State(): Routing
      reads this
    {
      Routing(driver, winId, connected)
    }

    /** Stopping the DECON turns every window off and forgets every connection. */
    method Reinit()
      modifies this
      ensures State() == Blanked(old(State())) && Routed(State(), BLANK, width)
      ensures OnlyVisibleOn(State(), BLANK)
    {
      driver, connected := map[], {};
      winId := map p | p in winId :: NO_WIN;
    }

    method DisableWin(v: View, w: nat)
      modifies this`driver
      ensures State() == WinDisabled(old(State()), v, w, width)
      ensures w < width && w !in v.visible ==> w !in driver
    {
      if w < width && w !in v.visible {
        driver := driver - {w};
      }
    }

    method UpdatePlane(v: View, p: nat, colormap: bool)
      requires (forall b :: b in v.reserved ==> b < width) && p in v.zpos && p in winId
      modifies this
      ensures State() == Updated(old(State()), v, p, colormap, width)
    {
      var target;
      if p !in connected || v.zposChanged {
        target := GetWinId(v.reserved, v.zpos[p], width);
      } else {
        target := Some(winId[p]);
      }
      if target.None? {
        return;
      }
      if winId[p] != target.value {
        DisableWin(v, winId[p]);
      }
      driver := driver[target.value := p];
      connected := if colormap then connected - {p} else connected + {p};
      winId := winId[p := target.value];
    }

    method DisablePlane(v: View, p: nat)
      requires p in winId
      modifies this
      ensures State() == Disabled(old(State()), v, p, width)
      ensures p !in connected && (winId[p] < width && winId[p] !in v.visible ==> winId[p] !in driver)
    {
      DisableWin(v, winId[p]);
      connected := connected - {p};
    }

    /** The plane loop of a commit. */
    method CommitPlanes(o: View, v: View, ops: seq<PlaneOp>)
      requires Routed(State(), o, width) && ValidCommit(o, v, ops) && Coherent(v, width)
      requires forall i :: 0 <= i < |ops| ==> ops[i].plane in winId
      modifies this
      ensures Routed(State(), v, width)
      ensures Coherent(o, width) && Exact(o, width) && Exact(v, width) && old(OnlyVisibleOn(State(), o)) ==>
                OnlyVisibleOn(State(), v)
    {
      ghost var r0 := State();
      for i := 0 to |ops|
        invariant State() == AppliedAll(r0, v, ops[..i], width)
      {
        assert ops[..i + 1][..i] == ops[..i] && ops[..i + 1][i] == ops[i];
        assert OpFits(ops[i], v) && ops[i].plane in r0.winId;
        match ops[i]
        case Update(p, colormap) => UpdatePlane(v, p, colormap);
        case Disable(p) => DisablePlane(v, p);
      }
      assert ops[..|ops|] == ops;
      CommitRoutes(r0, o, v, ops, width);
      if Coherent(o, width) && Exact(o, width) && Exact(v, width) && OnlyVisibleOn(r0, o) {
        CommitTurnsOthersOff(r0, o, v, ops, width);
      }
    }
  }
}
