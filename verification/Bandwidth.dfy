/**
 The real-time bandwidth calculator of one DECON and its sum over all DECONs.

 The driver never visits scanlines.  It looks only at the top edge of every
 layer and adds up the layers that cover that edge.  This module states the
 demand of an arbitrary scanline and shows that the top-edge computation finds
 its maximum, for all layers together and for every AXI port.
 */
module Bandwidth {

  datatype WinState = Disabled | Color | Buffer

  datatype WinConfig = WinConfig(state: WinState, dstY: int, dstH: nat, dppId: nat)

  /** Bandwidth and AXI port of one DPP channel. */
  datatype RtBw = RtBw(val: nat, chNum: nat)

  /** Which layers are being added up: all of them, or those of one AXI port. */
  datatype Selector = All | OnPort(port: nat)

  ghost predicate ValidLayers(t: seq<RtBw>, layers: seq<WinConfig>) {
    forall i :: 0 <= i < |layers| ==> layers[i].dppId < |t|
  }

  /** Every fetching layer is at least one line high. */
  ghost predicate Tall(layers: seq<WinConfig>) {
    forall i :: 0 <= i < |layers| && layers[i].state == Buffer ==> 1 <= layers[i].dstH
  }

  /** Every fetching layer sits on one of the first `ports` AXI ports. */
  ghost predicate PortsValid(t: seq<RtBw>, layers: seq<WinConfig>, ports: nat)
    requires ValidLayers(t, layers)
  {
    forall i :: 0 <= i < |layers| && layers[i].state == Buffer ==> t[layers[i].dppId].chNum < ports
  }

  predicate Covers(c: WinConfig, y: int) {
    c.dstY <= y < c.dstY + c.dstH
  }

  predicate Uses(t: seq<RtBw>, c: WinConfig, sel: Selector)
    requires c.dppId < |t|
  {
    c.state == Buffer && (sel == All || sel == OnPort(t[c.dppId].chNum))
  }

  // ---------------------------------------------------------------------
  // Reference: the demand of a scanline
  // ---------------------------------------------------------------------

  /** What layer `c` fetches while scanline `y` is being displayed. */
  function LineLoad(t: seq<RtBw>, c: WinConfig, sel: Selector, y: int): nat
    requires c.dppId < |t|
  {
    if Uses(t, c, sel) && Covers(c, y) then t[c.dppId].val else 0
  }

  function DemandTo(t: seq<RtBw>, layers: seq<WinConfig>, sel: Selector, y: int, n: nat): nat
    requires ValidLayers(t, layers) && n <= |layers|
  {
    if n == 0 then 0
    else DemandTo(t, layers, sel, y, n - 1) + LineLoad(t, layers[n - 1], sel, y)
  }

  function Demand(t: seq<RtBw>, layers: seq<WinConfig>, sel: Selector, y: int): nat
    requires ValidLayers(t, layers)
  {
    DemandTo(t, layers, sel, y, |layers|)
  }

  /** `bw` is the maximum of the demand over every scanline. */
  ghost predicate IsPeak(t: seq<RtBw>, layers: seq<WinConfig>, sel: Selector, bw: nat)
    requires ValidLayers(t, layers)
  {
    && (forall y :: Demand(t, layers, sel, y) <= bw)
    && (exists y :: Demand(t, layers, sel, y) == bw)
  }

  // ---------------------------------------------------------------------
  // The driver's computation
  // ---------------------------------------------------------------------

  /** Does layer `j` cover the top edge of layer `i`?  A layer covers its own. */
  predicate HalfCovered(layers: seq<WinConfig>, i: nat, j: nat)
    requires i < |layers| && j < |layers|
  {
    i == j || Covers(layers[j], layers[i].dstY)
  }

  function OverlapTo(t: seq<RtBw>, layers: seq<WinConfig>, sel: Selector, i: nat, n: nat): nat
    requires ValidLayers(t, layers) && i < |layers| && n <= |layers|
  {
    if n == 0 then 0
    else OverlapTo(t, layers, sel, i, n - 1)
         + (if Uses(t, layers[n - 1], sel) && HalfCovered(layers, i, n - 1)
            then t[layers[n - 1].dppId].val else 0)
  }

  function Max(a: nat, b: nat): nat { if a < b then b else a }

  /** The largest overlap found at the top edges of the first `n` layers. */
  function TopEdgeMax(t: seq<RtBw>, layers: seq<WinConfig>, sel: Selector, n: nat): nat
    requires ValidLayers(t, layers) && n <= |layers|
  {
    if n == 0 then 0
    else if Uses(t, layers[n - 1], sel)
    then Max(TopEdgeMax(t, layers, sel, n - 1), OverlapTo(t, layers, sel, n - 1, |layers|))
    else TopEdgeMax(t, layers, sel, n - 1)
  }

  // ---------------------------------------------------------------------
  // Top edges are enough
  // ---------------------------------------------------------------------

  lemma {:induction false} OverlapIsTopEdgeDemand(t: seq<RtBw>, layers: seq<WinConfig>, sel: Selector, i: nat, n: nat)
    requires ValidLayers(t, layers) && i < |layers| && n <= |layers|
    ensures DemandTo(t, layers, sel, layers[i].dstY, n) <= OverlapTo(t, layers, sel, i, n)
    ensures 1 <= layers[i].dstH ==>
              DemandTo(t, layers, sel, layers[i].dstY, n) == OverlapTo(t, layers, sel, i, n)
  {
    if n > 0 {
      OverlapIsTopEdgeDemand(t, layers, sel, i, n - 1);
    }
  }

  /** Moving from `y` to a line covered by everything that covers `y` loses nothing. */
  lemma {:induction false} DemandMonotone(t: seq<RtBw>, layers: seq<WinConfig>, sel: Selector, y: int, z: int, n: nat)
    requires ValidLayers(t, layers) && n <= |layers|
    requires forall i :: 0 <= i < n && Uses(t, layers[i], sel) && Covers(layers[i], y) ==> Covers(layers[i], z)
    ensures DemandTo(t, layers, sel, y, n) <= DemandTo(t, layers, sel, z, n)
  {
    if n > 0 {
      DemandMonotone(t, layers, sel, y, z, n - 1);
    }
  }

  /** Among the layers that cover `y`, one starts last; if there is none the demand is zero. */
  lemma {:induction false} LastStarted(t: seq<RtBw>, layers: seq<WinConfig>, sel: Selector, y: int, n: nat)
    returns (found: bool, m: nat)
    requires ValidLayers(t, layers) && n <= |layers|
    ensures found ==> m < n && Uses(t, layers[m], sel) && Covers(layers[m], y)
    ensures found ==> forall i :: 0 <= i < n && Uses(t, layers[i], sel) && Covers(layers[i], y) ==>
                                    layers[i].dstY <= layers[m].dstY
    ensures !found ==> forall i :: 0 <= i < n && Uses(t, layers[i], sel) ==> !Covers(layers[i], y)
    ensures !found ==> DemandTo(t, layers, sel, y, n) == 0
  {
    if n == 0 {
      found, m := false, 0;
    } else {
      found, m := LastStarted(t, layers, sel, y, n - 1);
      if Uses(t, layers[n - 1], sel) && Covers(layers[n - 1], y)
         && (!found || layers[m].dstY < layers[n - 1].dstY) {
        found, m := true, n - 1;
      }
    }
  }

  lemma {:induction false} TopEdgeMaxBounds(t: seq<RtBw>, layers: seq<WinConfig>, sel: Selector, i: nat, n: nat)
    requires ValidLayers(t, layers) && i < n <= |layers| && Uses(t, layers[i], sel)
    ensures OverlapTo(t, layers, sel, i, |layers|) <= TopEdgeMax(t, layers, sel, n)
  {
    if i < n - 1 {
      TopEdgeMaxBounds(t, layers, sel, i, n - 1);
    }
  }

  /** Whatever the heights, no scanline asks for more than the top-edge maximum. */
  lemma TopEdgeMaxCoversEveryLine(t: seq<RtBw>, layers: seq<WinConfig>, sel: Selector, y: int)
    requires ValidLayers(t, layers)
    ensures Demand(t, layers, sel, y) <= TopEdgeMax(t, layers, sel, |layers|)
  {
    var found, m := LastStarted(t, layers, sel, y, |layers|);
    if found {
      DemandMonotone(t, layers, sel, y, layers[m].dstY, |layers|);
      OverlapIsTopEdgeDemand(t, layers, sel, m, |layers|);
      TopEdgeMaxBounds(t, layers, sel, m, |layers|);
    }
  }

  /** The largest overlap at the top edges of the layers that are at least one line high. */
  function TallEdgeMax(t: seq<RtBw>, layers: seq<WinConfig>, sel: Selector, n: nat): nat
    requires ValidLayers(t, layers) && n <= |layers|
  {
    if n == 0 then 0
    else if Uses(t, layers[n - 1], sel) && layers[n - 1].dstH >= 1
    then Max(TallEdgeMax(t, layers, sel, n - 1), OverlapTo(t, layers, sel, n - 1, |layers|))
    else TallEdgeMax(t, layers, sel, n - 1)
  }

  lemma {:induction false} TallEdgeMaxBounds(t: seq<RtBw>, layers: seq<WinConfig>, sel: Selector, i: nat, n: nat)
    requires ValidLayers(t, layers) && i < n <= |layers| && Uses(t, layers[i], sel) && layers[i].dstH >= 1
    ensures OverlapTo(t, layers, sel, i, |layers|) <= TallEdgeMax(t, layers, sel, n)
  {
    if i < n - 1 {
      TallEdgeMaxBounds(t, layers, sel, i, n - 1);
    }
  }

  lemma {:induction false} TallEdgeMaxAttained(t: seq<RtBw>, layers: seq<WinConfig>, sel: Selector, n: nat)
    returns (y: int)
    requires ValidLayers(t, layers) && n <= |layers|
    ensures TallEdgeMax(t, layers, sel, n) <= Demand(t, layers, sel, y)
  {
    if n == 0 {
      y := 0;
    } else {
      y := TallEdgeMaxAttained(t, layers, sel, n - 1);
      if Uses(t, layers[n - 1], sel) && layers[n - 1].dstH >= 1
         && TallEdgeMax(t, layers, sel, n - 1) < OverlapTo(t, layers, sel, n - 1, |layers|) {
        y := layers[n - 1].dstY;
        OverlapIsTopEdgeDemand(t, layers, sel, n - 1, |layers|);
      }
    }
  }

  /** Whatever the heights, the peak over all scanlines is found at the top edges of the layers that are not flat. */
  lemma TallEdgesFindThePeak(t: seq<RtBw>, layers: seq<WinConfig>, sel: Selector)
    requires ValidLayers(t, layers)
    ensures IsPeak(t, layers, sel, TallEdgeMax(t, layers, sel, |layers|))
  {
    var peak := TallEdgeMax(t, layers, sel, |layers|);
    forall y ensures Demand(t, layers, sel, y) <= peak {
      var found, m := LastStarted(t, layers, sel, y, |layers|);
      if found {
        DemandMonotone(t, layers, sel, y, layers[m].dstY, |layers|);
        OverlapIsTopEdgeDemand(t, layers, sel, m, |layers|);
        TallEdgeMaxBounds(t, layers, sel, m, |layers|);
      }
    }
    var y := TallEdgeMaxAttained(t, layers, sel, |layers|);
    assert Demand(t, layers, sel, y) == peak;
  }

  /** A flat layer's edge never counts for more than the peak. */
  ghost predicate FlatEdgesWithin(t: seq<RtBw>, layers: seq<WinConfig>, sel: Selector, peak: nat, n: nat)
    requires ValidLayers(t, layers) && n <= |layers|
  {
    forall i :: 0 <= i < n && Uses(t, layers[i], sel) && layers[i].dstH == 0 ==>
                  OverlapTo(t, layers, sel, i, |layers|) <= peak
  }

  lemma {:induction false} EdgeMaximaAgree(t: seq<RtBw>, layers: seq<WinConfig>, sel: Selector, peak: nat, n: nat)
    requires ValidLayers(t, layers) && n <= |layers| && TallEdgeMax(t, layers, sel, n) <= peak
    ensures TallEdgeMax(t, layers, sel, n) <= TopEdgeMax(t, layers, sel, n)
    ensures TopEdgeMax(t, layers, sel, n) <= peak <==> FlatEdgesWithin(t, layers, sel, peak, n)
  {
    if n > 0 {
      EdgeMaximaAgree(t, layers, sel, peak, n - 1);
    }
  }

  lemma PeakIsUnique(t: seq<RtBw>, layers: seq<WinConfig>, sel: Selector, a: nat, b: nat)
    requires ValidLayers(t, layers) && IsPeak(t, layers, sel, a)
    ensures IsPeak(t, layers, sel, b) <==> b == a
  {
  }

  /** The fast form is the peak exactly if no flat layer counts for more, at its own edge, than the layers
      that are not flat reach at theirs. */
  lemma TopEdgesExactlyWhen(t: seq<RtBw>, layers: seq<WinConfig>, sel: Selector)
    requires ValidLayers(t, layers)
    ensures IsPeak(t, layers, sel, TopEdgeMax(t, layers, sel, |layers|))
            <==> FlatEdgesWithin(t, layers, sel, TallEdgeMax(t, layers, sel, |layers|), |layers|)
  {
    var peak := TallEdgeMax(t, layers, sel, |layers|);
    TallEdgesFindThePeak(t, layers, sel);
    EdgeMaximaAgree(t, layers, sel, peak, |layers|);
    PeakIsUnique(t, layers, sel, peak, TopEdgeMax(t, layers, sel, |layers|));
  }

  /** The fast form is exact: for layers at least one line high, it is the peak over all scanlines. */
  lemma TopEdgesFindThePeak(t: seq<RtBw>, layers: seq<WinConfig>, sel: Selector)
    requires ValidLayers(t, layers) && Tall(layers)
    ensures IsPeak(t, layers, sel, TopEdgeMax(t, layers, sel, |layers|))
  {
    TopEdgesExactlyWhen(t, layers, sel);
  }

  /** `mult_frac`. */
  function MultFrac(x: nat, n: nat, d: nat): nat
    requires d > 0
  {
    var whole: nat, rest: nat := x / d, x % d * n;
    whole * n + rest / d
  }

  /** What a rotated layer needs in the vertical blanking time, whatever its height on the screen. */
  function RotationBw(srcH: nat, bpp: nat, vblankUsec: nat): nat
    requires vblankUsec > 0
  {
    MultFrac(srcH * 32 * bpp / 8, 1000000, vblankUsec) / 1000
  }

  /** A rotated layer whose height on the screen is zero counts although no scanline shows it. */
  lemma FlatRotatedLayerCounts()
    ensures var t := [RtBw(RotationBw(100, 32, 1000), 0)];
            var layers := [WinConfig(Buffer, 3, 0, 0)];
            && TopEdgeMax(t, layers, All, 1) == 12800
            && IsPeak(t, layers, All, 0) && !FlatEdgesWithin(t, layers, All, 0, 1)
  {
    var t := [RtBw(RotationBw(100, 32, 1000), 0)];
    var layers := [WinConfig(Buffer, 3, 0, 0)];
    assert RotationBw(100, 32, 1000) == 12800;
    assert OverlapTo(t, layers, All, 0, 0) == 0;
    assert OverlapTo(t, layers, All, 0, 1) == 12800;
    assert TopEdgeMax(t, layers, All, 0) == 0;
    forall y ensures Demand(t, layers, All, y) == 0 {
      assert DemandTo(t, layers, All, y, 0) == 0;
    }
    assert Demand(t, layers, All, 0) == 0;
  }

  // ---------------------------------------------------------------------
  // Ports: the per-port peaks and the overall peak bound each other
  // ---------------------------------------------------------------------

  /** The demand of scanline `y` on each of the first `ports` ports, added up. */
  function PortDemandSum(t: seq<RtBw>, layers: seq<WinConfig>, y: int, n: nat, ports: nat): nat
    requires ValidLayers(t, layers) && n <= |layers|
  {
    if ports == 0 then 0
    else PortDemandSum(t, layers, y, n, ports - 1) + DemandTo(t, layers, OnPort(ports - 1), y, n)
  }

  lemma {:induction false} PortDemandSumStep(t: seq<RtBw>, layers: seq<WinConfig>, y: int, n: nat, ports: nat)
    requires ValidLayers(t, layers) && n < |layers|
    ensures PortDemandSum(t, layers, y, n + 1, ports)
         == PortDemandSum(t, layers, y, n, ports)
            + if t[layers[n].dppId].chNum < ports then LineLoad(t, layers[n], All, y) else 0
  {
    if ports > 0 {
      PortDemandSumStep(t, layers, y, n, ports - 1);
    }
  }

  lemma {:induction false} NoLayersNoDemand(t: seq<RtBw>, layers: seq<WinConfig>, y: int, ports: nat)
    requires ValidLayers(t, layers)
    ensures PortDemandSum(t, layers, y, 0, ports) == 0
  {
    if ports > 0 {
      NoLayersNoDemand(t, layers, y, ports - 1);
    }
  }

  /** Ports partition the demand of every scanline. */
  lemma {:induction false} PortsPartitionDemand(t: seq<RtBw>, layers: seq<WinConfig>, y: int, n: nat, ports: nat)
    requires ValidLayers(t, layers) && n <= |layers| && PortsValid(t, layers, ports)
    ensures PortDemandSum(t, layers, y, n, ports) == DemandTo(t, layers, All, y, n)
  {
    if n == 0 {
      NoLayersNoDemand(t, layers, y, ports);
    } else {
      PortsPartitionDemand(t, layers, y, n - 1, ports);
      PortDemandSumStep(t, layers, y, n - 1, ports);
    }
  }

  lemma {:induction false} PortDemandAtMostTotal(t: seq<RtBw>, layers: seq<WinConfig>, port: nat, y: int, n: nat)
    requires ValidLayers(t, layers) && n <= |layers|
    ensures DemandTo(t, layers, OnPort(port), y, n) <= DemandTo(t, layers, All, y, n)
  {
    if n > 0 {
      PortDemandAtMostTotal(t, layers, port, y, n - 1);
    }
  }

  function Sum(s: seq<nat>): nat {
    if |s| == 0 then 0 else Sum(s[..|s| - 1]) + s[|s| - 1]
  }

  lemma {:induction false} PortPeaksBoundDemand(t: seq<RtBw>, layers: seq<WinConfig>, ch: seq<nat>, y: int)
    requires ValidLayers(t, layers)
    requires forall c: nat :: c < |ch| ==> IsPeak(t, layers, OnPort(c), ch[c])
    ensures PortDemandSum(t, layers, y, |layers|, |ch|) <= Sum(ch)
  {
    if |ch| > 0 {
      var c: nat := |ch| - 1;
      PortPeaksBoundDemand(t, layers, ch[..c], y);
      assert Demand(t, layers, OnPort(c), y) <= ch[c];
    }
  }

  /** Each port peak is at most the overall peak, which is at most all port peaks together. */
  lemma PortPeaksBracketOverallPeak(t: seq<RtBw>, layers: seq<WinConfig>, rt: nat, ch: seq<nat>)
    requires ValidLayers(t, layers) && PortsValid(t, layers, |ch|)
    requires IsPeak(t, layers, All, rt)
    requires forall c: nat :: c < |ch| ==> IsPeak(t, layers, OnPort(c), ch[c])
    ensures forall c: nat :: c < |ch| ==> ch[c] <= rt
    ensures rt <= Sum(ch)
  {
    forall c: nat | c < |ch| ensures ch[c] <= rt {
      var y :| Demand(t, layers, OnPort(c), y) == ch[c];
      PortDemandAtMostTotal(t, layers, c, y, |layers|);
      assert Demand(t, layers, All, y) <= rt;
    }
    var y :| Demand(t, layers, All, y) == rt;
    PortsPartitionDemand(t, layers, y, |layers|, |ch|);
    PortPeaksBoundDemand(t, layers, ch, y);
  }

  // ---------------------------------------------------------------------
  // All DECONs
  // ---------------------------------------------------------------------

  /** What one DECON has published for the others: its layers and the peaks it computed. */
  datatype DeconLoad = DeconLoad(rtBw: seq<RtBw>, layers: seq<WinConfig>, rtAvgBw: nat, chBw: seq<nat>)

  ghost predicate Accurate(d: DeconLoad, ports: nat) {
    && ValidLayers(d.rtBw, d.layers)
    && |d.chBw| == ports
    && IsPeak(d.rtBw, d.layers, All, d.rtAvgBw)
    && forall c: nat :: c < ports ==> IsPeak(d.rtBw, d.layers, OnPort(c), d.chBw[c])
  }

  function RtSum(ds: seq<DeconLoad>): nat {
    if |ds| == 0 then 0 else RtSum(ds[..|ds| - 1]) + ds[|ds| - 1].rtAvgBw
  }

  /** Sum of one port over all DECONs; a DECON without that port adds nothing. */
  function ChSum(ds: seq<DeconLoad>, c: nat): nat {
    if |ds| == 0 then 0
    else ChSum(ds[..|ds| - 1], c) + if c < |ds[|ds| - 1].chBw| then ds[|ds| - 1].chBw[c] else 0
  }

  /** The demand of all DECONs while each of them displays a scanline of its own. */
  ghost function Simultaneous(ds: seq<DeconLoad>, ports: nat, sel: Selector, ys: seq<int>): nat
    requires |ys| == |ds|
    requires forall i :: 0 <= i < |ds| ==> Accurate(ds[i], ports)
  {
    if |ds| == 0 then 0
    else
      assert Accurate(ds[|ds| - 1], ports);
      Simultaneous(ds[..|ds| - 1], ports, sel, ys[..|ds| - 1])
      + Demand(ds[|ds| - 1].rtBw, ds[|ds| - 1].layers, sel, ys[|ds| - 1])
  }

  /** The sums bound what the DECONs can ask for at once, wherever each of them is on its panel. */
  lemma {:induction false} SumsBoundSimultaneousDemand(ds: seq<DeconLoad>, ports: nat, c: nat, ys: seq<int>)
    requires |ys| == |ds| && c < ports
    requires forall i :: 0 <= i < |ds| ==> Accurate(ds[i], ports)
    ensures Simultaneous(ds, ports, All, ys) <= RtSum(ds)
    ensures Simultaneous(ds, ports, OnPort(c), ys) <= ChSum(ds, c)
  {
    if |ds| > 0 {
      var d := ds[|ds| - 1];
      var y := ys[|ds| - 1];
      SumsBoundSimultaneousDemand(ds[..|ds| - 1], ports, c, ys[..|ds| - 1]);
      assert Demand(d.rtBw, d.layers, All, y) <= d.rtAvgBw;
      assert Demand(d.rtBw, d.layers, OnPort(c), y) <= d.chBw[c];
    }
  }

  /** The bounds are tight: some choice of scanlines reaches the sum. */
  lemma {:induction false} RtSumIsReached(ds: seq<DeconLoad>, ports: nat) returns (ys: seq<int>)
    requires forall i :: 0 <= i < |ds| ==> Accurate(ds[i], ports)
    ensures |ys| == |ds| && Simultaneous(ds, ports, All, ys) == RtSum(ds)
  {
    if |ds| == 0 {
      ys := [];
    } else {
      var d := ds[|ds| - 1];
      var front := RtSumIsReached(ds[..|ds| - 1], ports);
      var y :| Demand(d.rtBw, d.layers, All, y) == d.rtAvgBw;
      ys := front + [y];
      assert ys[..|ds| - 1] == front;
    }
  }

  /** For each port too, by a choice of its own. */
  lemma {:induction false} ChSumIsReached(ds: seq<DeconLoad>, ports: nat, c: nat) returns (ys: seq<int>)
    requires c < ports && forall i :: 0 <= i < |ds| ==> Accurate(ds[i], ports)
    ensures |ys| == |ds| && Simultaneous(ds, ports, OnPort(c), ys) == ChSum(ds, c)
  {
    if |ds| == 0 {
      ys := [];
    } else {
      var d := ds[|ds| - 1];
      var front := ChSumIsReached(ds[..|ds| - 1], ports, c);
      assert IsPeak(d.rtBw, d.layers, OnPort(c), d.chBw[c]);
      var y :| Demand(d.rtBw, d.layers, OnPort(c), y) == d.chBw[c];
      ys := front + [y];
      assert ys[..|ds| - 1] == front;
    }
  }

  class DeconBts {
    const rtBw: seq<RtBw>
    var winConfig: seq<WinConfig>
    var rcdConfig: WinConfig
    var rtAvgBw: nat
    const chBw: array<nat>

    constructor (rtBw: seq<RtBw>, winConfig: seq<WinConfig>, rcdConfig: WinConfig, ports: nat)
      ensures this.rtBw == rtBw && this.winConfig == winConfig && this.rcdConfig == rcdConfig
      ensures fresh(chBw) && chBw.Length == ports
    {
      this.rtBw, this.winConfig, this.rcdConfig := rtBw, winConfig, rcdConfig;
      rtAvgBw := 0;
      chBw := new nat[ports](_ => 0);
    }

    ghost predicate Valid()
      reads this
    {
      ValidLayers(rtBw, Layers())
    }

    ghost function Layers(): (layers: seq<WinConfig>)
      reads this
      ensures |layers| == |winConfig| + 1
    {
      winConfig + [rcdConfig]
    }

    ghost function Load(): (d: DeconLoad)
      reads this, chBw
    {
      DeconLoad(rtBw, Layers(), rtAvgBw, chBw[..])
    }

    method UpdateOverlapBw()
      requires Valid()
      modifies this`rtAvgBw
      ensures rtAvgBw == TopEdgeMax(rtBw, Layers(), All, |Layers()|)
      ensures Tall(Layers()) ==> IsPeak(rtBw, Layers(), All, rtAvgBw)
    {
      ghost var layers := Layers();
      var winMax: nat, rcdMax: nat := 0, 0;
      var n := |winConfig|;
      for i := 0 to n
        invariant winMax == TopEdgeMax(rtBw, layers, All, i)
        invariant rcdConfig.state == Buffer ==> rcdMax == OverlapTo(rtBw, layers, All, n, i)
        invariant rcdConfig.state != Buffer ==> rcdMax == 0
      {
        assert layers[i] == winConfig[i] && layers[n] == rcdConfig;
        if winConfig[i].state == Buffer {
          var overlap: nat := 0;
          for j := 0 to n
            invariant overlap == OverlapTo(rtBw, layers, All, i, j)
          {
            assert layers[j] == winConfig[j];
            if winConfig[j].state == Buffer && (i == j || Covers(winConfig[j], winConfig[i].dstY)) {
              overlap := overlap + rtBw[winConfig[j].dppId].val;
            }
          }
          if rcdConfig.state == Buffer {
            if Covers(rcdConfig, winConfig[i].dstY) {
              overlap := overlap + rtBw[rcdConfig.dppId].val;
            }
            if Covers(winConfig[i], rcdConfig.dstY) {
              rcdMax := rcdMax + rtBw[winConfig[i].dppId].val;
            }
          }
          assert overlap == OverlapTo(rtBw, layers, All, i, n + 1);
          winMax := Max(winMax, overlap);
        }
      }
      assert layers[n] == rcdConfig;
      if rcdConfig.state == Buffer {
        rcdMax := rcdMax + rtBw[rcdConfig.dppId].val;
        assert rcdMax == OverlapTo(rtBw, layers, All, n, n + 1);
      }
      rtAvgBw := Max(winMax, rcdMax);
      if Tall(layers) {
        TopEdgesFindThePeak(rtBw, layers, All);
      }
    }

    /** Bandwidth of the port's windows at the top edge of window `i`, without the RCD layer. */
    method PortOverlap(i: nat, ch: nat) returns (overlap: nat)
      requires Valid() && i < |winConfig| && winConfig[i].state == Buffer
      requires rtBw[Layers()[i].dppId].chNum == ch
      ensures overlap == OverlapTo(rtBw, Layers(), OnPort(ch), i, |winConfig|)
    {
      ghost var layers := Layers();
      assert layers[i] == winConfig[i];
      overlap := 0;
      for j := 0 to |winConfig|
        invariant overlap == OverlapTo(rtBw, layers, OnPort(ch), i, j)
      {
        assert layers[j] == winConfig[j];
        if winConfig[j].state == Buffer && ch == rtBw[winConfig[j].dppId].chNum
           && (i == j || Covers(winConfig[j], winConfig[i].dstY)) {
          overlap := overlap + rtBw[winConfig[j].dppId].val;
        }
      }
    }

    /** The largest demand of every port at the top edges of windows and RCD layer. */
    method PortMaxima(ports: nat) returns (disp: array<nat>)
      requires Valid()
      ensures fresh(disp) && disp.Length == ports
      ensures forall c: nat :: c < ports ==> disp[c] == TopEdgeMax(rtBw, Layers(), OnPort(c), |Layers()|)
    {
      ghost var layers := Layers();
      disp := new nat[ports](_ => 0);
      var rcdOverlap: nat := 0;
      var n := |winConfig|;
      assert layers[n] == rcdConfig;
      var rcdCh := rtBw[rcdConfig.dppId].chNum;
      for i := 0 to n
        invariant forall c: nat :: c < ports ==> disp[c] == TopEdgeMax(rtBw, layers, OnPort(c), i)
        invariant rcdConfig.state == Buffer && rcdCh < ports ==>
            rcdOverlap == OverlapTo(rtBw, layers, OnPort(rcdCh), n, i)
      {
        assert layers[i] == winConfig[i];
        var ch := rtBw[winConfig[i].dppId].chNum;
        if winConfig[i].state == Buffer && ch < ports {
          var overlap: nat := PortOverlap(i, ch);
          if rcdConfig.state == Buffer && ch == rcdCh {
            if Covers(rcdConfig, winConfig[i].dstY) {
              overlap := overlap + rtBw[rcdConfig.dppId].val;
            }
            if Covers(winConfig[i], rcdConfig.dstY) {
              rcdOverlap := rcdOverlap + rtBw[winConfig[i].dppId].val;
            }
          }
          assert overlap == OverlapTo(rtBw, layers, OnPort(ch), i, n + 1);
          disp[ch] := Max(disp[ch], overlap);
        }
      }
      if rcdConfig.state == Buffer && rcdCh < ports {
        rcdOverlap := rcdOverlap + rtBw[rcdConfig.dppId].val;
        assert rcdOverlap == OverlapTo(rtBw, layers, OnPort(rcdCh), n, n + 1);
        disp[rcdCh] := Max(disp[rcdCh], rcdOverlap);
      }
    }

    method UpdateDispChBw()
      requires Valid()
      modifies chBw
      ensures forall c: nat :: c < chBw.Length ==>
                                 chBw[c] == TopEdgeMax(rtBw, Layers(), OnPort(c), |Layers()|)
      ensures Tall(Layers()) ==>
                forall c: nat :: c < chBw.Length ==> IsPeak(rtBw, Layers(), OnPort(c), chBw[c])
    {
      var disp := PortMaxima(chBw.Length);
      for c := 0 to chBw.Length
        modifies chBw
        invariant forall k :: 0 <= k < c ==> chBw[k] == disp[k]
      {
        chBw[c] := disp[c];
      }
      if Tall(Layers()) {
        forall c: nat | c < chBw.Length ensures IsPeak(rtBw, Layers(), OnPort(c), chBw[c]) {
          TopEdgesFindThePeak(rtBw, Layers(), OnPort(c));
        }
      }
    }

    /** The tail of the bandwidth calculation: without any average bandwidth only the
        overall peak is cleared, the port peaks keep their last values, and are right
        exactly if the layers still reach them. */
    method RefreshPeaks(totalBw: nat)
      requires Valid()
      modifies this`rtAvgBw, chBw
      ensures totalBw == 0 ==> rtAvgBw == 0 && chBw[..] == old(chBw[..])
      ensures totalBw == 0 ==>
                forall c :: 0 <= c < chBw.Length ==>
                              (IsPeak(rtBw, Layers(), OnPort(c), chBw[c])
                               <==> old(chBw[c]) == TallEdgeMax(rtBw, Layers(), OnPort(c), |Layers()|))
      ensures totalBw > 0 && Tall(Layers()) ==> Accurate(Load(), chBw.Length)
    {
      if totalBw > 0 {
        UpdateOverlapBw();
        UpdateDispChBw();
      } else {
        rtAvgBw := 0;
        forall c | 0 <= c < chBw.Length
          ensures IsPeak(rtBw, Layers(), OnPort(c), chBw[c])
                  <==> chBw[c] == TallEdgeMax(rtBw, Layers(), OnPort(c), |Layers()|)
        {
          TallEdgesFindThePeak(rtBw, Layers(), OnPort(c));
          PeakIsUnique(rtBw, Layers(), OnPort(c), TallEdgeMax(rtBw, Layers(), OnPort(c), |Layers()|), chBw[c]);
        }
      }
    }

    /** Releasing the resources clears what the other DECONs add up. */
    method ClearShared()
      modifies this`rtAvgBw, chBw
      ensures rtAvgBw == 0
      ensures forall c :: 0 <= c < chBw.Length ==> chBw[c] == 0
    {
      rtAvgBw := 0;
      for c := 0 to chBw.Length
        modifies chBw
        invariant forall k :: 0 <= k < c ==> chBw[k] == 0
      {
        chBw[c] := 0;
      }
    }
  }

  /** Without a fetching layer every peak is zero. */
  lemma {:induction false} NothingFetched(t: seq<RtBw>, layers: seq<WinConfig>, sel: Selector, n: nat)
    requires ValidLayers(t, layers) && n <= |layers|
    requires forall i :: 0 <= i < |layers| ==> layers[i].state != Buffer
    ensures TallEdgeMax(t, layers, sel, n) == 0
  {
    if n > 0 {
      NothingFetched(t, layers, sel, n - 1);
    }
  }

  /** One layer is shown, then only a color map: the port keeps the layer's bandwidth, which other DECONs go
      on adding up. */
  method StalePortPeak() returns (overall: nat, port: nat)
    ensures overall == 0 && port == 7
  {
    var hidden := WinConfig(Disabled, 0, 0, 0);
    var bts := new DeconBts([RtBw(7, 0)], [WinConfig(Buffer, 0, 10, 0)], hidden, 1);
    bts.RefreshPeaks(5);
    ghost var layers := bts.Layers();
    assert Demand(bts.rtBw, layers, OnPort(0), 3) == 7 && Demand(bts.rtBw, layers, All, 3) == 7 by {
      assert layers == [WinConfig(Buffer, 0, 10, 0), hidden];
      assert DemandTo(bts.rtBw, layers, OnPort(0), 3, 0) == DemandTo(bts.rtBw, layers, All, 3, 0) == 0;
      assert DemandTo(bts.rtBw, layers, OnPort(0), 3, 1) == DemandTo(bts.rtBw, layers, All, 3, 1) == 7;
    }
    forall y ensures Demand(bts.rtBw, layers, OnPort(0), y) <= 7 {
      assert DemandTo(bts.rtBw, layers, OnPort(0), y, 0) == 0;
      assert DemandTo(bts.rtBw, layers, OnPort(0), y, 1) <= 7;
    }
    PeakIsUnique(bts.rtBw, layers, OnPort(0), 7, bts.chBw[0]);
    bts.winConfig := [WinConfig(Color, 0, 10, 0)];
    bts.RefreshPeaks(0);
    NothingFetched(bts.rtBw, bts.Layers(), OnPort(0), |bts.Layers()|);
    assert !IsPeak(bts.rtBw, bts.Layers(), OnPort(0), bts.chBw[0]);
    overall, port := bts.rtAvgBw, bts.chBw[0];
  }

  /** The published loads of those of the first `n` DECONs that exist. */
  ghost function Loads(decons: seq<DeconBts?>, n: nat): (ds: seq<DeconLoad>)
    requires n <= |decons|
    reads set i | 0 <= i < |decons| && decons[i] != null :: decons[i]
    reads set i | 0 <= i < |decons| && decons[i] != null :: decons[i].chBw
  {
    if n == 0 then []
    else if decons[n - 1] == null then Loads(decons, n - 1)
    else Loads(decons, n - 1) + [decons[n - 1].Load()]
  }

  /** What one DECON more adds to the sums. */
  lemma LoadsStep(decons: seq<DeconBts?>, i: nat)
    requires i < |decons|
    ensures RtSum(Loads(decons, i + 1)) == RtSum(Loads(decons, i)) + if decons[i] == null then 0 else decons[i].rtAvgBw
    ensures forall c: nat :: ChSum(Loads(decons, i + 1), c)
                             == ChSum(Loads(decons, i), c)
                                + if decons[i] != null && c < decons[i].chBw.Length then decons[i].chBw[c] else 0
  {
    if decons[i] != null {
      var ds := Loads(decons, i + 1);
      assert ds[..|ds| - 1] == Loads(decons, i) && ds[|ds| - 1] == decons[i].Load();
    }
  }

  method AddPorts(disp: array<nat>, decon: DeconBts)
    requires decon.chBw.Length == disp.Length && disp != decon.chBw
    modifies disp
    ensures forall c :: 0 <= c < disp.Length ==> disp[c] == old(disp[c]) + decon.chBw[c]
  {
    for j := 0 to disp.Length
      invariant forall c :: 0 <= c < disp.Length ==>
                              disp[c] == old(disp[c]) + if c < j then decon.chBw[c] else 0
    {
      if decon.chBw[j] != 0 {
        disp[j] := disp[j] + decon.chBw[j];
      }
    }
  }

  method Largest(disp: array<nat>) returns (max: nat)
    requires disp.Length > 0
    ensures forall c: nat :: c < disp.Length ==> disp[c] <= max
    ensures exists c: nat :: c < disp.Length && disp[c] == max
  {
    max := disp[0];
    for i := 1 to disp.Length
      invariant forall c: nat :: c < i ==> disp[c] <= max
      invariant exists c: nat :: c < i && disp[c] == max
    {
      max := Max(max, disp[i]);
    }
  }

  /** One DECON more in the sums. */
  method AddDecon(decons: seq<DeconBts?>, i: nat, disp: array<nat>, overlap: nat) returns (overlap': nat)
    requires i < |decons| && overlap == RtSum(Loads(decons, i))
    requires decons[i] != null ==> decons[i].chBw.Length == disp.Length
    requires forall k :: 0 <= k < |decons| && decons[k] != null ==> decons[k].chBw != disp
    requires forall c: nat :: c < disp.Length ==> disp[c] == ChSum(Loads(decons, i), c)
    modifies disp
    ensures overlap' == RtSum(Loads(decons, i + 1))
    ensures forall c: nat :: c < disp.Length ==> disp[c] == ChSum(Loads(decons, i + 1), c)
  {
    var decon := decons[i];
    overlap' := overlap;
    LoadsStep(decons, i);
    if decon != null {
      if decon.rtAvgBw != 0 {
        overlap' := overlap' + decon.rtAvgBw;
      }
      AddPorts(disp, decon);
    }
  }

  /** The loop over all DECONs. */
  method SumDecons(decons: seq<DeconBts?>, ports: nat) returns (overlap: nat, disp: array<nat>)
    requires forall i :: 0 <= i < |decons| && decons[i] != null ==> decons[i].chBw.Length == ports
    ensures overlap == RtSum(Loads(decons, |decons|))
    ensures fresh(disp) && disp.Length == ports
    ensures forall c: nat :: c < ports ==> disp[c] == ChSum(Loads(decons, |decons|), c)
  {
    overlap := 0;
    disp := new nat[ports](_ => 0);
    for i := 0 to |decons|
      invariant overlap == RtSum(Loads(decons, i))
      invariant forall c: nat :: c < ports ==> disp[c] == ChSum(Loads(decons, i), c)
    {
      overlap := AddDecon(decons, i, disp, overlap);
    }
  }

  /** Adding up all DECONs; an index that names no DECON yields nothing. */
  method SumAllDeconBw(id: nat, decons: seq<DeconBts?>, ports: nat) returns (maxOverlap: nat, maxDispCh: nat)
    requires 0 < ports
    requires forall i :: 0 <= i < |decons| && decons[i] != null ==> decons[i].chBw.Length == ports
    ensures id >= |decons| ==> maxOverlap == 0 && maxDispCh == 0
    ensures id < |decons| ==> maxOverlap == RtSum(Loads(decons, |decons|))
    ensures id < |decons| ==>
              && (forall c: nat :: c < ports ==> ChSum(Loads(decons, |decons|), c) <= maxDispCh)
              && (exists c: nat :: c < ports && ChSum(Loads(decons, |decons|), c) == maxDispCh)
  {
    if id >= |decons| {
      return 0, 0;
    }
    var disp;
    maxOverlap, disp := SumDecons(decons, ports);
    maxDispCh := Largest(disp);
  }
}
