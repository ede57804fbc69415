/**
 Hardware windows shared by all CRTCs.

 A window mask is represented by the set of its bit numbers.  The atomic check
 moves windows between the pool of available windows and the masks reserved by
 the CRTCs, and computes which reserved windows will show something.
 */
module WindowAllocator {

  datatype Option<T> = None | Some(value: T)

  type Mask = set<nat>

  // ---------------------------------------------------------------------
  // Bits of a mask
  // ---------------------------------------------------------------------

  /** How many bits of the mask lie below `bit`. */
  function Rank(mask: Mask, bit: nat): nat {
    if bit == 0 then 0 else Rank(mask, bit - 1) + if bit - 1 in mask then 1 else 0
  }

  lemma {:induction false} RankMonotone(mask: Mask, a: nat, b: nat)
    requires a <= b
    ensures Rank(mask, a) <= Rank(mask, b)
    ensures a in mask && a < b ==> Rank(mask, a) < Rank(mask, b)
    decreases b
  {
    if a < b {
      RankMonotone(mask, a, b - 1);
    }
  }

  /** A bit is determined by its rank. */
  lemma RankInjective(mask: Mask, a: nat, b: nat)
    requires a in mask && b in mask && Rank(mask, a) == Rank(mask, b)
    ensures a == b
  {
    RankMonotone(mask, if a < b then a else b, if a < b then b else a);
  }

  lemma {:induction false} RankIsCount(mask: Mask, width: nat)
    ensures Rank(mask, width) == |set b | b in mask && b < width|
  {
    var below := set b | b in mask && b < width;
    if width == 0 {
      assert below == {};
    } else {
      RankIsCount(mask, width - 1);
      var lower := set b | b in mask && b < width - 1;
      if width - 1 in mask {
        assert below == lower + {width - 1};
      } else {
        assert below == lower;
      }
    }
  }

  lemma RankOfWidth(mask: Mask, width: nat)
    requires forall b :: b in mask ==> b < width
    ensures Rank(mask, width) == |mask|
  {
    RankIsCount(mask, width);
    assert mask == set b | b in mask && b < width;
  }

  /** Position of the lowest bit, like `ffs`. */
  method FindFirst(mask: Mask, width: nat) returns (bit: nat)
    requires mask != {} && forall b :: b in mask ==> b < width
    ensures bit in mask && forall b :: b in mask ==> bit <= b
  {
    bit := 0;
    while bit !in mask
      invariant forall b :: b in mask ==> bit <= b < width
      decreases width - bit
    {
      ghost var b :| b in mask;
      bit := bit + 1;
    }
  }

  /** `out` holds the lowest members of the mask and `rest` the others. */
  ghost predicate LowestFirst(mask: Mask, out: Mask, rest: Mask) {
    out + rest == mask && out !! rest && forall a, b :: a in out && b in rest ==> a < b
  }

  lemma NextLowest(mask: Mask, out: Mask, rest: Mask, bit: nat)
    requires LowestFirst(mask, out, rest) && bit in rest && forall b :: b in rest ==> bit <= b
    ensures LowestFirst(mask, out + {bit}, rest - {bit}) && |out + {bit}| == |out| + 1
  {
  }

  /** The `count` lowest bits, or nothing if there are fewer. */
  method FindSetBitsMask(mask: Mask, count: nat, width: nat) returns (out: Mask)
    requires forall b :: b in mask ==> b < width
    ensures count <= |mask| ==> out <= mask && |out| == count
    ensures count <= |mask| ==> forall a, b :: a in out && b in mask - out ==> a < b
    ensures count > |mask| ==> out == {}
  {
    out := {};
    var rest := mask;
    for i := count downto 0
      invariant LowestFirst(mask, out, rest) && |out| == count - i
    {
      if rest == {} {
        assert out == mask;
        return {};
      }
      var bit := FindFirst(rest, width);
      NextLowest(mask, out, rest, bit);
      rest := rest - {bit};
      out := out + {bit};
    }
    assert mask - out == rest;
    assert |mask| == |out| + |rest|;
  }

  // ---------------------------------------------------------------------
  // zpos to window: two separately written loops
  // ---------------------------------------------------------------------

  /** The window of the plane at position `z`: the bit whose rank is `z`. */
  function WinFrom(mask: Mask, z: nat, bit: nat, width: nat): Option<nat>
    decreases width - bit
  {
    if width <= bit then None
    else if bit !in mask then WinFrom(mask, z, bit + 1, width)
    else if z == 0 then Some(bit)
    else WinFrom(mask, z - 1, bit + 1, width)
  }

  function WinId(mask: Mask, z: nat, width: nat): Option<nat> {
    WinFrom(mask, z, 0, width)
  }

  lemma {:induction false} WinFromIsSelect(mask: Mask, z: nat, bit: nat, width: nat)
    requires forall b :: b in mask ==> b < width
    requires bit <= width
    ensures match WinFrom(mask, z, bit, width)
            case Some(w) => w in mask && bit <= w && Rank(mask, w) == Rank(mask, bit) + z
            case None => Rank(mask, width) <= Rank(mask, bit) + z
    decreases width - bit
  {
    if bit < width {
      if bit !in mask {
        WinFromIsSelect(mask, z, bit + 1, width);
      } else if z > 0 {
        WinFromIsSelect(mask, z - 1, bit + 1, width);
      }
    }
  }

  /** `WinId` inverts `Rank`: it succeeds exactly below the number of reserved windows. */
  lemma WinIdIsSelect(mask: Mask, z: nat, width: nat)
    requires forall b :: b in mask ==> b < width
    ensures WinId(mask, z, width).Some? <==> z < |mask|
    ensures WinId(mask, z, width).Some? ==>
              WinId(mask, z, width).value in mask && Rank(mask, WinId(mask, z, width).value) == z
  {
    WinFromIsSelect(mask, z, 0, width);
    RankOfWidth(mask, width);
    if WinId(mask, z, width).Some? {
      var w := WinId(mask, z, width).value;
      RankMonotone(mask, w, width);
      assert w < width;
    }
  }

  /** Different positions get different windows. */
  lemma WinIdInjective(mask: Mask, y: nat, z: nat, width: nat)
    requires forall b :: b in mask ==> b < width
    requires y < |mask| && z < |mask| && WinId(mask, y, width) == WinId(mask, z, width)
    ensures y == z
  {
    WinIdIsSelect(mask, y, width);
    WinIdIsSelect(mask, z, width);
  }

  /** The lookup used when a plane is programmed. */
  method GetWinId(mask: Mask, zpos: nat, width: nat) returns (r: Option<nat>)
    requires forall b :: b in mask ==> b < width
    ensures r == WinId(mask, zpos, width)
    ensures r.Some? <==> zpos < |mask|
    ensures r.Some? ==> r.value in mask && Rank(mask, r.value) == zpos
  {
    WinIdIsSelect(mask, zpos, width);
    var i := 0;
    for bit := 0 to width
      invariant i == Rank(mask, bit) && i <= zpos
    {
      if bit in mask {
        if i == zpos {
          if WinId(mask, zpos, width).None? {
            RankOfWidth(mask, width);
            RankMonotone(mask, bit, width);
          } else {
            RankInjective(mask, bit, WinId(mask, zpos, width).value);
          }
          return Some(bit);
        }
        i := i + 1;
      }
    }
    RankOfWidth(mask, width);
    return None;
  }

  /** The loop that marks the reserved windows which will show a visible position. */
  method VisibleMask(mask: Mask, visibleZpos: set<nat>, width: nat) returns (visible: Mask)
    requires forall b :: b in mask ==> b < width
    ensures visible <= mask
    ensures forall w :: w in visible <==> w in mask && Rank(mask, w) in visibleZpos
    ensures forall w :: w in visible <==> exists z :: z in visibleZpos && WinId(mask, z, width) == Some(w)
  {
    visible := {};
    var position := 0;
    for bit := 0 to width
      invariant position == Rank(mask, bit)
      invariant forall w :: w in visible <==> w in mask && w < bit && Rank(mask, w) in visibleZpos
    {
      if bit in mask {
        if position in visibleZpos {
          visible := visible + {bit};
        }
        position := position + 1;
      }
    }
    forall w ensures w in visible <==> exists z :: z in visibleZpos && WinId(mask, z, width) == Some(w) {
      VisibleIsImage(mask, visibleZpos, w, width);
    }
  }

  /** The two loops agree: a window is marked exactly when the lookup returns it for a visible position. */
  lemma VisibleIsImage(mask: Mask, visibleZpos: set<nat>, w: nat, width: nat)
    requires forall b :: b in mask ==> b < width
    ensures (w in mask && Rank(mask, w) in visibleZpos)
       <==> exists z :: z in visibleZpos && WinId(mask, z, width) == Some(w)
  {
    if w in mask && Rank(mask, w) in visibleZpos {
      var z := Rank(mask, w);
      RankOfWidth(mask, width);
      RankMonotone(mask, w, width);
      WinIdIsSelect(mask, z, width);
      RankInjective(mask, w, WinId(mask, z, width).value);
    }
    if z :| z in visibleZpos && WinId(mask, z, width) == Some(w) {
      WinIdIsSelect(mask, z, width);
    }
  }

  // ---------------------------------------------------------------------
  // Moving windows between the CRTCs and the pool
  // ---------------------------------------------------------------------

  function FullMask(width: nat): (mask: Mask)
    ensures forall b: nat :: b in mask <==> b < width
  {
    if width == 0 then {} else FullMask(width - 1) + {width - 1}
  }

  function Union(res: seq<Mask>): Mask {
    if |res| == 0 then {} else Union(res[..|res| - 1]) + res[|res| - 1]
  }

  predicate Disjoint(res: seq<Mask>) {
    |res| == 0 || (Disjoint(res[..|res| - 1]) && Union(res[..|res| - 1]) !! res[|res| - 1])
  }

  /** The reserved masks and the loose windows are disjoint and together are all windows. */
  ghost predicate Partition(res: seq<Mask>, loose: Mask, width: nat) {
    Disjoint(res) && Union(res) !! loose && Union(res) + loose == FullMask(width)
  }

  lemma {:induction false} PartInUnion(res: seq<Mask>, i: nat)
    requires i < |res|
    ensures res[i] <= Union(res)
  {
    if i < |res| - 1 {
      PartInUnion(res[..|res| - 1], i);
    }
  }

  lemma {:induction false} UnionHasOwner(res: seq<Mask>, w: nat) returns (i: nat)
    requires w in Union(res)
    ensures i < |res| && w in res[i]
  {
    if w in res[|res| - 1] {
      i := |res| - 1;
    } else {
      i := UnionHasOwner(res[..|res| - 1], w);
    }
  }

  lemma {:induction false} DisjointPairwise(res: seq<Mask>, i: nat, j: nat)
    requires Disjoint(res) && i < j < |res|
    ensures res[i] !! res[j]
  {
    if j == |res| - 1 {
      PartInUnion(res[..j], i);
    } else {
      DisjointPairwise(res[..|res| - 1], i, j);
    }
  }

  /** What a partition says window by window: exactly one of the CRTCs and the pool has it. */
  lemma PartitionMeans(res: seq<Mask>, loose: Mask, width: nat, w: nat)
    requires Partition(res, loose, width)
    ensures w < width <==> w in loose || exists i :: 0 <= i < |res| && w in res[i]
    ensures forall i :: 0 <= i < |res| && w in res[i] ==> w !in loose
    ensures forall i, j :: 0 <= i < j < |res| && w in res[i] ==> w !in res[j]
  {
    assert w in FullMask(width) <==> w in Union(res) || w in loose;
    if w in Union(res) {
      var i := UnionHasOwner(res, w);
    }
    forall i | 0 <= i < |res| && w in res[i] ensures w in Union(res) {
      PartInUnion(res, i);
    }
    forall i, j | 0 <= i < j < |res| && w in res[i] ensures w !in res[j] {
      DisjointPairwise(res, i, j);
    }
  }

  lemma {:induction false} ExchangeUnion(res: seq<Mask>, i: nat, mask: Mask)
    requires i < |res| && Disjoint(res) && mask !! Union(res) - res[i]
    ensures Disjoint(res[i := mask]) && Union(res[i := mask]) == Union(res) - res[i] + mask
  {
    var n := |res| - 1;
    var front, front' := res[..n], res[i := mask][..n];
    if i == n {
      assert front' == front;
    } else {
      assert front' == front[i := mask];
      PartInUnion(front, i);
      ExchangeUnion(front, i, mask);
    }
  }

  /** Exchanging windows between one CRTC and the loose windows keeps the partition. */
  lemma ExchangeKeepsPartition(res: seq<Mask>, loose: Mask, i: nat, mask: Mask, loose': Mask, width: nat)
    requires i < |res| && Partition(res, loose, width)
    requires mask + loose' == res[i] + loose && mask !! loose'
    ensures Partition(res[i := mask], loose', width)
  {
    PartInUnion(res, i);
    assert mask <= res[i] + loose;
    ExchangeUnion(res, i, mask);
    var rest := Union(res) - res[i];
    assert loose' <= res[i] + loose;
    assert rest + mask + loose' == rest + (res[i] + loose);
  }

  /** Three disjoint sets of windows: those of one CRTC, the available ones and the freed ones. */
  ghost predicate Split(curr: Mask, available: Mask, freed: Mask) {
    curr !! available && curr !! freed && available !! freed
  }

  lemma GiveUp(curr: Mask, available: Mask, freed: Mask, win: Mask)
    requires Split(curr, available, freed) && win <= curr
    ensures Split(curr - win, available, freed + win)
    ensures (curr - win) + (available + (freed + win)) == curr + (available + freed)
    ensures |curr - win| == |curr| - |win|
  {
    assert curr == (curr - win) + win;
  }

  lemma Take(curr: Mask, available: Mask, freed: Mask, win: Mask)
    requires Split(curr, available, freed) && win <= available
    ensures Split(curr + win, available - win, freed)
    ensures (curr + win) + ((available - win) + freed) == curr + (available + freed)
    ensures |curr + win| == |curr| + |win| && |available - win| == |available| - |win|
  {
    assert available == (available - win) + win;
  }

  function Grow(had: nat, need: nat): nat {
    if need > had then need - had else 0
  }

  /** A mask that grows keeps all it had; one that shrinks gives up its lowest windows. */
  ghost predicate KeepsWhatItCan(before: Mask, after: Mask) {
    && (|before| <= |after| ==> before <= after)
    && (|after| <= |before| ==> after <= before && forall a, b :: a in before - after && b in after ==> a < b)
  }

  /** One CRTC gives up its lowest surplus windows or takes the lowest available ones. */
  method Resize(curr: Mask, available: Mask, freed: Mask, oldCnt: nat, newCnt: nat, width: nat)
    returns (ok: bool, curr': Mask, available': Mask, freed': Mask)
    requires |curr| == oldCnt && Split(curr, available, freed)
    requires (forall b :: b in curr ==> b < width) && (forall b :: b in available ==> b < width)
    ensures ok <==> Grow(oldCnt, newCnt) <= |available|
    ensures ok ==> |curr'| == newCnt && Split(curr', available', freed')
    ensures ok ==> curr' + (available' + freed') == curr + (available + freed)
    ensures ok ==> available' <= available && freed' <= freed + curr && curr' <= curr + available
    ensures ok ==> |available'| == |available| - Grow(oldCnt, newCnt)
    ensures oldCnt == newCnt ==> curr' == curr && available' == available && freed' == freed
    ensures ok ==> KeepsWhatItCan(curr, curr') && forall a, b :: a in curr' - curr && b in available' ==> a < b
  {
    ok, curr', available', freed' := true, curr, available, freed;
    if oldCnt > newCnt {
      var win := curr;
      if newCnt != 0 {
        win := FindSetBitsMask(curr, oldCnt - newCnt, width);
      }
      GiveUp(curr, available, freed, win);
      freed' := freed + win;
      curr' := curr - win;
    } else if oldCnt < newCnt {
      var win := FindSetBitsMask(available, newCnt - oldCnt, width);
      if win == {} {
        ok := false;
      } else {
        Take(curr, available, freed, win);
        available' := available - win;
        curr' := curr + win;
      }
    }
  }

  /** New windows asked for by the first `n` CRTCs. */
  function Growth(had: seq<nat>, need: seq<nat>, n: nat): nat
    requires n <= |had| == |need|
  {
    if n == 0 then 0 else Growth(had, need, n - 1) + Grow(had[n - 1], need[n - 1])
  }

  lemma {:induction false} GrowthMonotone(had: seq<nat>, need: seq<nat>, m: nat, n: nat)
    requires m <= n <= |had| == |need|
    ensures Growth(had, need, m) <= Growth(had, need, n)
    decreases n
  {
    if m < n {
      GrowthMonotone(had, need, m, n - 1);
    }
  }

  /** What one CRTC ends up with: as many windows as it needs, taken from its own and from those that
      were available before the commit, so never from windows freed by the commit; a CRTC whose need
      has not changed keeps exactly its windows. */
  ghost predicate Served(before: Mask, available: Mask, had: nat, need: nat, after: Mask) {
    && |after| == need
    && after <= before + available
    && KeepsWhatItCan(before, after)
    && (had == need ==> after == before)
  }

  ghost predicate AllServed(before: seq<Mask>, had: seq<nat>, need: seq<nat>, available0: Mask,
                            after: seq<Mask>, n: nat)
    requires n <= |before| == |had| == |need| == |after|
  {
    n == 0 || (&& AllServed(before, had, need, available0, after, n - 1)
               && Served(before[n - 1], available0, had[n - 1], need[n - 1], after[n - 1]))
  }

  lemma {:induction false} AllServedAt(before: seq<Mask>, had: seq<nat>, need: seq<nat>, available0: Mask,
                                       after: seq<Mask>, n: nat, i: nat)
    requires i < n <= |before| == |had| == |need| == |after|
    requires AllServed(before, had, need, available0, after, n)
    ensures Served(before[i], available0, had[i], need[i], after[i])
  {
    if i < n - 1 {
      AllServedAt(before, had, need, available0, after, n - 1, i);
    }
  }

  lemma {:induction false} AllServedFrame(before: seq<Mask>, had: seq<nat>, need: seq<nat>, available0: Mask,
                                          after: seq<Mask>, n: nat, i: nat, mask: Mask)
    requires n <= i < |before| == |had| == |need| == |after|
    requires AllServed(before, had, need, available0, after, n)
    ensures AllServed(before, had, need, available0, after[i := mask], n)
  {
    if n > 0 {
      AllServedFrame(before, had, need, available0, after, n - 1, i, mask);
    }
  }

  /** After the first `n` CRTCs: they are served, the others still hold what they held. */
  ghost predicate ServedUpTo(before: seq<Mask>, had: seq<nat>, need: seq<nat>, available0: Mask, width: nat,
                             n: nat, after: seq<Mask>, available: Mask, freed: Mask)
    requires n <= |before| == |had| == |need|
  {
    && |after| == |before|
    && available <= available0 && freed !! available0
    && Partition(after, available + freed, width)
    && after[n..] == before[n..]
    && AllServed(before, had, need, available0, after, n)
    && |available| == |available0| - Growth(had, need, n)
  }

  lemma ServedUpToStep(before: seq<Mask>, had: seq<nat>, need: seq<nat>, available0: Mask, width: nat,
                       n: nat, after: seq<Mask>, available: Mask, freed: Mask,
                       mask: Mask, available': Mask, freed': Mask)
    requires n < |before| == |had| == |need|
    requires ServedUpTo(before, had, need, available0, width, n, after, available, freed)
    requires before[n] !! available0 && after[n] == before[n]
    requires Served(before[n], available0, had[n], need[n], mask) && Split(mask, available', freed')
    requires mask + (available' + freed') == before[n] + (available + freed)
    requires available' <= available && freed' <= freed + before[n]
    requires |available'| == |available| - Grow(had[n], need[n])
    ensures ServedUpTo(before, had, need, available0, width, n + 1, after[n := mask], available', freed')
  {
    ExchangeKeepsPartition(after, available + freed, n, mask, available' + freed', width);
    AllServedFrame(before, had, need, available0, after, n, n, mask);
    assert after[n := mask][n + 1..] == after[n..][1..] == before[n + 1..];
  }

  // ---------------------------------------------------------------------
  // The atomic check
  // ---------------------------------------------------------------------

  datatype PlaneState = PlaneState(visible: bool, zpos: nat)

  datatype CrtcState = CrtcState(
    enable: bool, effectivelyActive: bool,
    planeMask: set<nat>, planes: map<nat, PlaneState>,
    activeChanged: bool, zposChanged: bool, connectorsChanged: bool,
    reserved: Mask, visible: Mask)

  /** Windows a CRTC needs: one per plane that is not a rounded-corner plane, at least one while
      active (for the color map), none while inactive. */
  function WinCnt(c: CrtcState, rcdPlanes: set<nat>): nat {
    if !c.enable || !c.effectivelyActive then 0
    else if c.planeMask - rcdPlanes == {} then 1
    else |c.planeMask - rcdPlanes|
  }

  /** An active CRTC counts every plane that needs a window, and no window more but the one for the color map; an
      inactive one counts none. */
  lemma WinCntMeans(c: CrtcState, rcdPlanes: set<nat>)
    ensures WinCnt(c, rcdPlanes) == 0 <==> !(c.enable && c.effectivelyActive)
    ensures c.enable && c.effectivelyActive ==>
              var planes := set p | p in c.planeMask && p !in rcdPlanes;
              WinCnt(c, rcdPlanes) == if planes == {} then 1 else |planes|
  {
    assert c.planeMask - rcdPlanes == set p | p in c.planeMask && p !in rcdPlanes;
  }

  /** So with the counted windows reserved, every position below the number of these planes has one. */
  lemma EveryPlaneHasWindow(c: CrtcState, rcdPlanes: set<nat>, z: nat, width: nat)
    requires c.enable && c.effectivelyActive && |c.reserved| == WinCnt(c, rcdPlanes)
    requires forall b :: b in c.reserved ==> b < width
    requires z < |set p | p in c.planeMask && p !in rcdPlanes|
    ensures WinId(c.reserved, z, width).Some?
  {
    assert c.planeMask - rcdPlanes == set p | p in c.planeMask && p !in rcdPlanes;
    WinIdIsSelect(c.reserved, z, width);
  }

  function Reserved(crtcs: seq<CrtcState>): (res: seq<Mask>)
    ensures |res| == |crtcs|
    ensures forall i :: 0 <= i < |crtcs| ==> res[i] == crtcs[i].reserved
  {
    seq(|crtcs|, i requires 0 <= i < |crtcs| => crtcs[i].reserved)
  }

  function Counts(crtcs: seq<CrtcState>, rcd: seq<set<nat>>): (counts: seq<nat>)
    requires |rcd| == |crtcs|
    ensures |counts| == |crtcs|
    ensures forall i :: 0 <= i < |crtcs| ==> counts[i] == WinCnt(crtcs[i], rcd[i])
  {
    seq(|crtcs|, i requires 0 <= i < |crtcs| && |rcd| == |crtcs| => WinCnt(crtcs[i], rcd[i]))
  }

  ghost predicate HoldsRequired(res: seq<Mask>, counts: seq<nat>) {
    |res| == |counts| && forall i :: 0 <= i < |res| ==> |res[i]| == counts[i]
  }

  /** What the DRM core guarantees about a duplicated CRTC state: it starts with the reserved mask of
      the committed state, and a change of enable, of effective activity or of the planes is flagged. */
  ghost predicate WellFlagged(old_: CrtcState, new_: CrtcState) {
    && new_.reserved == old_.reserved
    && (!new_.activeChanged && !new_.zposChanged && !new_.connectorsChanged && new_.planeMask == old_.planeMask
        ==> new_.enable == old_.enable && new_.effectivelyActive == old_.effectivelyActive)
  }

  ghost predicate WellFormedUpdate(old_: seq<CrtcState>, update: seq<Option<CrtcState>>) {
    && |update| == |old_|
    && forall i :: 0 <= i < |old_| && update[i].Some? ==> WellFlagged(old_[i], update[i].value)
  }

  /** The states under check: the duplicate where the commit has one, the committed state elsewhere. */
  function Candidates(old_: seq<CrtcState>, update: seq<Option<CrtcState>>): (c: seq<CrtcState>)
    requires |update| == |old_|
    ensures |c| == |old_|
    ensures forall i :: 0 <= i < |old_| ==> c[i] == if update[i].Some? then update[i].value else old_[i]
  {
    seq(|old_|, i requires 0 <= i < |old_| && |update| == |old_| =>
      if update[i].Some? then update[i].value else old_[i])
  }

  ghost predicate VisibleIsExact(c: CrtcState, width: nat) {
    forall w :: w in c.visible <==>
                exists p :: p in c.planeMask && p in c.planes && c.planes[p].visible
                            && WinId(c.reserved, c.planes[p].zpos, width) == Some(w)
  }

  /** The reservation step of one CRTC: skipped when nothing relevant is flagged as changed. */
  method ReserveOne(old_: CrtcState, update: Option<CrtcState>, rcdPlanes: set<nat>,
                    available: Mask, freed: Mask, width: nat)
    returns (ok: bool, mask: Mask, available': Mask, freed': Mask)
    requires update.Some? ==> WellFlagged(old_, update.value)
    requires |old_.reserved| == WinCnt(old_, rcdPlanes) && Split(old_.reserved, available, freed)
    requires (forall b :: b in old_.reserved ==> b < width) && (forall b :: b in available ==> b < width)
    ensures var had, need := WinCnt(old_, rcdPlanes), WinCnt(if update.Some? then update.value else old_, rcdPlanes);
            && (ok <==> Grow(had, need) <= |available|)
            && (ok ==> |mask| == need && |available'| == |available| - Grow(had, need))
    ensures ok ==> Split(mask, available', freed')
    ensures ok ==> mask + (available' + freed') == old_.reserved + (available + freed)
    ensures ok ==> available' <= available && freed' <= freed + old_.reserved && mask <= old_.reserved + available
    ensures ok ==> KeepsWhatItCan(old_.reserved, mask)
    ensures ok && WinCnt(old_, rcdPlanes) == WinCnt(if update.Some? then update.value else old_, rcdPlanes) ==>
              mask == old_.reserved
  {
    ok, mask, available', freed' := true, old_.reserved, available, freed;
    if update.Some? {
      var c := update.value;
      if c.activeChanged || c.zposChanged || c.connectorsChanged || old_.planeMask != c.planeMask {
        ok, mask, available', freed' :=
          Resize(mask, available, freed, WinCnt(old_, rcdPlanes), WinCnt(c, rcdPlanes), width);
      }
    }
  }

  lemma BeforeReserveOne(before: seq<Mask>, had: seq<nat>, need: seq<nat>, available0: Mask, width: nat,
                         n: nat, after: seq<Mask>, available: Mask, freed: Mask)
    requires n < |before| == |had| == |need|
    requires Partition(before, available0, width) && HoldsRequired(before, had)
    requires ServedUpTo(before, had, need, available0, width, n, after, available, freed)
    ensures after[n] == before[n] && Split(before[n], available, freed) && before[n] !! available0
    ensures |before[n]| == had[n]
    ensures (forall b :: b in before[n] ==> b < width) && (forall b :: b in available ==> b < width)
  {
    PartInUnion(before, n);
    assert after[n] == after[n..][0] == before[n..][0] == before[n];
    PartInUnion(after, n);
    assert forall b :: b in available ==> b in available + freed;
    assert forall b :: b in before[n] ==> b in FullMask(width);
    assert forall b :: b in available + freed ==> b in FullMask(width);
  }

  /** The body of the reservation loop. */
  method ReserveStep(old_: seq<CrtcState>, update: seq<Option<CrtcState>>, rcd: seq<set<nat>>,
                     ghost before: seq<Mask>, ghost had: seq<nat>, ghost need: seq<nat>, ghost available0: Mask,
                     width: nat, i: nat, res: seq<Mask>, available: Mask, freed: Mask)
    returns (ok: bool, mask: Mask, available': Mask, freed': Mask)
    requires i < |old_| == |update| == |rcd| == |before| == |had| == |need|
    requires before[i] == old_[i].reserved && had[i] == WinCnt(old_[i], rcd[i])
    requires need[i] == WinCnt(if update[i].Some? then update[i].value else old_[i], rcd[i])
    requires update[i].Some? ==> WellFlagged(old_[i], update[i].value)
    requires Partition(before, available0, width) && HoldsRequired(before, had)
    requires ServedUpTo(before, had, need, available0, width, i, res, available, freed)
    ensures ok ==> ServedUpTo(before, had, need, available0, width, i + 1, res[i := mask], available', freed')
    ensures !ok ==> Growth(had, need, |had|) > |available0|
  {
    BeforeReserveOne(before, had, need, available0, width, i, res, available, freed);
    ok, mask, available', freed' := ReserveOne(old_[i], update[i], rcd[i], available, freed, width);
    if ok {
      ServedUpToStep(before, had, need, available0, width, i, res, available, freed, mask, available', freed');
    } else {
      GrowthMonotone(had, need, i + 1, |had|);
    }
  }

  lemma NobodyServedYet(before: seq<Mask>, had: seq<nat>, need: seq<nat>, available0: Mask, width: nat)
    requires |before| == |had| == |need| && Partition(before, available0, width)
    ensures ServedUpTo(before, had, need, available0, width, 0, before, available0, {})
  {
    assert available0 + {} == available0;
  }

  /** The reservation pass.  It succeeds exactly when the pool can serve the growth of all CRTCs
      without the windows freed by this very commit. */
  method ReserveWindows(old_: seq<CrtcState>, update: seq<Option<CrtcState>>, rcd: seq<set<nat>>,
                        available: Mask, width: nat)
    returns (ok: bool, available': Mask, freed: Mask, res: seq<Mask>)
    requires |rcd| == |old_| && WellFormedUpdate(old_, update)
    requires Partition(Reserved(old_), available, width) && HoldsRequired(Reserved(old_), Counts(old_, rcd))
    ensures ok <==> Growth(Counts(old_, rcd), Counts(Candidates(old_, update), rcd), |old_|) <= |available|
    ensures |res| == |old_|
    ensures ok ==> ServedUpTo(Reserved(old_), Counts(old_, rcd), Counts(Candidates(old_, update), rcd),
                              available, width, |old_|, res, available', freed)
  {
    ok, available', freed, res := true, available, {}, Reserved(old_);
    ghost var before, had, need := res, Counts(old_, rcd), Counts(Candidates(old_, update), rcd);
    NobodyServedYet(before, had, need, available, width);
    var i := 0;
    while i < |old_| && ok
      invariant i <= |old_| && |res| == |old_|
      invariant ok ==> ServedUpTo(before, had, need, available, width, i, res, available', freed)
      invariant !ok ==> Growth(had, need, |old_|) > |available|
    {
      var mask;
      ok, mask, available', freed :=
        ReserveStep(old_, update, rcd, before, had, need, available, width, i, res, available', freed);
      res, i := res[i := mask], i + 1;
    }
  }

  /** The state a CRTC commits to: the checked duplicate, or the old state if it is not in the commit. */
  ghost predicate Checked(old_: CrtcState, update: Option<CrtcState>, c: CrtcState, width: nat) {
    if update.None? then c == old_
    else c == update.value.(reserved := c.reserved, visible := c.visible) && VisibleIsExact(c, width)
  }

  method MarkVisible(old_: CrtcState, update: Option<CrtcState>, mask: Mask, width: nat) returns (c: CrtcState)
    requires forall b :: b in mask ==> b < width
    requires update.None? ==> mask == old_.reserved
    ensures c.reserved == mask && Checked(old_, update, c, width)
  {
    if update.None? {
      return old_;
    }
    c := update.value.(reserved := mask, visible := {});
    if c.planeMask != {} {
      var zpos := set p | p in c.planeMask && p in c.planes && c.planes[p].visible :: c.planes[p].zpos;
      var visible := VisibleMask(mask, zpos, width);
      c := c.(visible := visible);
    }
  }

  lemma CheckedKeepsCounts(old_: seq<CrtcState>, update: seq<Option<CrtcState>>, rcd: seq<set<nat>>,
                           new_: seq<CrtcState>, width: nat)
    requires |update| == |old_| == |rcd| == |new_|
    requires forall i :: 0 <= i < |old_| ==> Checked(old_[i], update[i], new_[i], width)
    ensures Counts(new_, rcd) == Counts(Candidates(old_, update), rcd)
  {
    forall i | 0 <= i < |old_|
      ensures Counts(new_, rcd)[i] == Counts(Candidates(old_, update), rcd)[i]
    {
      assert Checked(old_[i], update[i], new_[i], width);
    }
  }

  /** The visible pass and the release of the freed windows. */
  method MarkAllVisible(old_: seq<CrtcState>, update: seq<Option<CrtcState>>, res: seq<Mask>, width: nat)
    returns (new_: seq<CrtcState>)
    requires |update| == |old_| == |res|
    requires forall i, b :: 0 <= i < |res| && b in res[i] ==> b < width
    requires forall i :: 0 <= i < |old_| && update[i].None? ==> res[i] == old_[i].reserved
    ensures |new_| == |old_| && Reserved(new_) == res
    ensures forall i :: 0 <= i < |old_| ==> Checked(old_[i], update[i], new_[i], width)
  {
    new_ := [];
    for i := 0 to |old_|
      invariant |new_| == i
      invariant forall j :: 0 <= j < i ==> new_[j].reserved == res[j]
      invariant forall j :: 0 <= j < i ==> Checked(old_[j], update[j], new_[j], width)
    {
      var c := MarkVisible(old_[i], update[i], res[i], width);
      new_ := new_ + [c];
    }
  }

  lemma AfterReservation(before: seq<Mask>, had: seq<nat>, need: seq<nat>, available0: Mask, width: nat,
                         after: seq<Mask>, available: Mask, freed: Mask)
    requires |before| == |had| == |need|
    requires ServedUpTo(before, had, need, available0, width, |before|, after, available, freed)
    ensures Partition(after, available + freed, width) && HoldsRequired(after, need)
    ensures forall i, b :: 0 <= i < |after| && b in after[i] ==> b < width
    ensures forall i :: 0 <= i < |after| ==> after[i] <= before[i] + available0 && KeepsWhatItCan(before[i], after[i])
    ensures forall i :: 0 <= i < |after| && had[i] == need[i] ==> after[i] == before[i]
  {
    forall i | 0 <= i < |after|
      ensures Served(before[i], available0, had[i], need[i], after[i]) && forall b :: b in after[i] ==> b < width
    {
      AllServedAt(before, had, need, available0, after, |before|, i);
      PartInUnion(after, i);
      assert after[i] <= FullMask(width);
    }
  }

  /** The whole window check of one atomic commit. */
  method CheckWindows(old_: seq<CrtcState>, update: seq<Option<CrtcState>>, rcd: seq<set<nat>>,
                      available: Mask, width: nat)
    returns (ok: bool, available': Mask, new_: seq<CrtcState>)
    requires |rcd| == |old_| && WellFormedUpdate(old_, update)
    requires Partition(Reserved(old_), available, width) && HoldsRequired(Reserved(old_), Counts(old_, rcd))
    ensures ok <==> Growth(Counts(old_, rcd), Counts(Candidates(old_, update), rcd), |old_|) <= |available|
    ensures ok ==> |new_| == |old_| && forall i :: 0 <= i < |old_| ==> Checked(old_[i], update[i], new_[i], width)
    ensures ok ==> Partition(Reserved(new_), available', width) && HoldsRequired(Reserved(new_), Counts(new_, rcd))
    // no window that some CRTC gives up in this commit is handed out in this commit
    ensures ok ==> forall i :: 0 <= i < |old_| ==> new_[i].reserved <= old_[i].reserved + available
    ensures ok ==> forall i :: 0 <= i < |old_| ==> KeepsWhatItCan(old_[i].reserved, new_[i].reserved)
  {
    var freed: Mask, res: seq<Mask>;
    ok, available', freed, res := ReserveWindows(old_, update, rcd, available, width);
    new_ := [];
    if ok {
      AfterReservation(Reserved(old_), Counts(old_, rcd), Counts(Candidates(old_, update), rcd), available, width,
                       res, available', freed);
      new_ := MarkAllVisible(old_, update, res, width);
      CheckedKeepsCounts(old_, update, rcd, new_, width);
      available' := available' + freed;
    }
  }

  lemma {:induction false} NoneReserved(res: seq<Mask>)
    requires forall i :: 0 <= i < |res| ==> res[i] == {}
    ensures Disjoint(res) && Union(res) == {}
  {
    if |res| > 0 {
      NoneReserved(res[..|res| - 1]);
    }
  }

  /** The committed state; only a successful check replaces it. */
  class WindowPool {
    var available: Mask
    var crtcs: seq<CrtcState>
    const rcd: seq<set<nat>>
    const width: nat

    ghost predicate Valid()
      reads this
    {
      && |rcd| == |crtcs|
      && Partition(Reserved(crtcs), available, width)
      && HoldsRequired(Reserved(crtcs), Counts(crtcs, rcd))
    }

    /** At driver initialisation every window is available. */
    constructor (rcd: seq<set<nat>>, width: nat)
      ensures Valid() && this.width == width && this.rcd == rcd
      ensures available == FullMask(width)
    {
      this.rcd, this.width := rcd, width;
      available := FullMask(width);
      crtcs := seq(|rcd|, _ => CrtcState(false, false, {}, map[], false, false, false, {}, {}));
      new;
      NoneReserved(Reserved(crtcs));
    }

    method AtomicCheck(update: seq<Option<CrtcState>>) returns (ok: bool)
      requires Valid() && WellFormedUpdate(crtcs, update)
      modifies this
      ensures Valid()
      ensures var had, need := old(Counts(crtcs, rcd)), old(Counts(Candidates(crtcs, update), rcd));
              ok <==> Growth(had, need, |rcd|) <= |old(available)|
      ensures !ok ==> crtcs == old(crtcs) && available == old(available)
      ensures ok ==> |crtcs| == |old(crtcs)|
      ensures ok ==> forall i :: 0 <= i < |crtcs| ==>
                                   && Checked(old(crtcs)[i], update[i], crtcs[i], width)
                                   && crtcs[i].reserved <= old(crtcs)[i].reserved + old(available)
    {
      var available', new_;
      ok, available', new_ := CheckWindows(crtcs, update, rcd, available, width);
      if ok {
        available, crtcs := available', new_;
      }
    }
  }
}
