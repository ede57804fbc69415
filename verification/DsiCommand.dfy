/**
 The DSI host's command path in command mode: batching of packets behind the
 "packet go" feature, with a running account of what is in the header and payload
 FIFOs.  The waits for an empty FIFO are taken to succeed.
 */
module DsiCommand {

  const MAX_PH_FIFO := 32
  const MAX_PL_FIFO := 2048
  const PL_FIFO_THRESHOLD := 1536     // 75 per cent of MAX_PL_FIFO

  const EINVAL := 22
  const EPERM := 1

  datatype Packet = Packet(id: nat, payload: nat)

  /** What a message asks for: nothing, something no DSI packet can carry, or a packet. */
  datatype Content = Empty | Unencodable | Carries(packet: Packet)

  datatype Msg = Msg(content: Content, queue: bool, forceBatch: bool, forceFlush: bool)

  datatype Host = Host(
    pendPh: nat,
    pendPl: nat,
    batching: bool,
    packetGo: bool,              // the hardware holds packets back
    refs: nat,                   // runtime PM references of the command path
    fifo: seq<Packet>,
    sent: seq<Packet>)

  function Align4(n: nat): (r: nat)
    ensures r % 4 == 0 && n <= r < n + 4
  {
    (n + 3) / 4 * 4
  }

  function FifoBytes(fifo: seq<Packet>): nat {
    if |fifo| == 0 then 0 else FifoBytes(fifo[..|fifo| - 1]) + Align4(fifo[|fifo| - 1].payload)
  }

  function PayloadOf(msg: Msg): nat {
    if msg.content.Carries? then msg.content.packet.payload else 0
  }

  // ---------------------------------------------------------------------
  // Specification of one transfer
  // ---------------------------------------------------------------------

  /** The two FIFO limits a message can run into. */
  predicate HeadersFull(h: Host) {
    h.pendPh >= MAX_PH_FIFO
  }

  predicate PayloadTooMuch(h: Host, msg: Msg) {
    h.pendPl + PayloadOf(msg) > MAX_PL_FIFO
  }

  predicate Rejected(h: Host, msg: Msg) {
    !msg.content.Unencodable? && !msg.forceBatch && (PayloadTooMuch(h, msg) || HeadersFull(h))
  }

  predicate Accepted(h: Host, msg: Msg) {
    msg.content.Carries? && !msg.forceBatch && !Rejected(h, msg)
  }

  /** The message completes a batch: asked for, or forced because the FIFO runs full. */
  predicate IsLast(h: Host, msg: Msg) {
    || (!msg.queue && !h.batching)
    || msg.forceFlush
    || (msg.content.Carries? && (h.pendPh + 1 >= MAX_PH_FIFO || h.pendPl + PayloadOf(msg) > PL_FIFO_THRESHOLD))
  }

  predicate Flushes(h: Host, msg: Msg) {
    !msg.content.Unencodable? && !msg.forceBatch && !Rejected(h, msg) && IsLast(h, msg)
  }

  function Queued(h: Host, packet: Packet): Host {
    h.(pendPh := h.pendPh + 1,
    pendPl := h.pendPl + Align4(packet.payload),
    packetGo := true,
    refs := if h.pendPh == 0 then h.refs + 1 else h.refs,
    fifo := h.fifo + [packet])
  }

  function Single(h: Host, packet: Packet): Host {
    h.(pendPl := Align4(packet.payload), fifo := h.fifo + [packet])
  }

  /** `dsim_write_data_locked`. */
  function Written(h: Host, msg: Msg): Host {
    if msg.content.Unencodable? then h
    else if msg.forceBatch then h.(batching := true)
    else if Rejected(h, msg) then h
    else
      var last := IsLast(h, msg);
      var g := if msg.forceFlush then h.(batching := false) else h;
      if !msg.content.Carries? then g
      else if last && g.pendPh == 0 then Single(g, msg.content.packet)
      else Queued(g, msg.content.packet)
  }

  /** `dsim_cmd_flush_locked`, the FIFOs having drained. */
  function Flushed(h: Host): Host {
    var g := h.(fifo := [], sent := h.sent + h.fifo);
    if g.pendPh > 0 then g.(packetGo := false, refs := if g.refs > 0 then g.refs - 1 else 0, pendPh := 0, pendPl := 0)
    else g
  }

  function Transferred(h: Host, msg: Msg): Host {
    if Flushes(h, msg) then Flushed(Written(h, msg)) else Written(h, msg)
  }

  function TransferResult(h: Host, msg: Msg): int {
    if Rejected(h, msg) then -EINVAL else 0
  }

  // ---------------------------------------------------------------------
  // Invariant between transfers
  // ---------------------------------------------------------------------

  /** The account covers the FIFO and leaves room above the threshold while packets pend, and packet go with
      its reference is on exactly while they do. */
  predicate Inv(h: Host) {
    && FifoBytes(h.fifo) <= h.pendPl <= MAX_PL_FIFO
    && h.pendPl % 4 == 0
    && |h.fifo| == h.pendPh < MAX_PH_FIFO
    && (h.pendPh > 0 ==> h.pendPl <= PL_FIFO_THRESHOLD)
    && (h.packetGo <==> h.pendPh > 0)
    && h.refs == (if h.pendPh > 0 then 1 else 0)
  }

  lemma FifoBytesAppend(fifo: seq<Packet>, p: Packet)
    ensures FifoBytes(fifo + [p]) == FifoBytes(fifo) + Align4(p.payload)
  {
    assert (fifo + [p])[..|fifo|] == fifo;
  }

  /** Rounding up to whole words cannot push an admitted message over the end of the FIFO. */
  lemma AdmittedStillFitsAligned(pend: nat, payload: nat)
    requires pend % 4 == 0 && pend + payload <= MAX_PL_FIFO
    ensures pend + Align4(payload) <= MAX_PL_FIFO
    ensures pend + payload <= PL_FIFO_THRESHOLD ==> pend + Align4(payload) <= PL_FIFO_THRESHOLD
  {
    assert (MAX_PL_FIFO - pend) % 4 == 0 && (PL_FIFO_THRESHOLD - pend) % 4 == 0;
  }

  /** The same between writing a packet and the flush, when the last header slot may be in use. */
  predicate Covered(g: Host) {
    && FifoBytes(g.fifo) <= g.pendPl <= MAX_PL_FIFO
    && g.pendPl % 4 == 0
    && |g.fifo| <= MAX_PH_FIFO
    && (g.pendPh > 0 ==> g.pendPh == |g.fifo|)
    && (g.packetGo <==> g.pendPh > 0)
    && g.refs == (if g.pendPh > 0 then 1 else 0)
  }

  lemma QueuedIsCovered(h: Host, packet: Packet)
    requires Inv(h) && h.pendPl + packet.payload <= MAX_PL_FIFO
    ensures Covered(Queued(h, packet))
    ensures h.pendPh + 1 < MAX_PH_FIFO && h.pendPl + packet.payload <= PL_FIFO_THRESHOLD ==> Inv(Queued(h, packet))
  {
    FifoBytesAppend(h.fifo, packet);
    AdmittedStillFitsAligned(h.pendPl, packet.payload);
  }

  lemma SingleIsCovered(h: Host, packet: Packet)
    requires Inv(h) && h.pendPh == 0 && h.pendPl + packet.payload <= MAX_PL_FIFO
    ensures Covered(Single(h, packet))
  {
    assert h.fifo == [];
    FifoBytesAppend(h.fifo, packet);
    AdmittedStillFitsAligned(0, packet.payload);
  }

  lemma EitherIsCovered(g: Host, packet: Packet, last: bool)
    requires Inv(g) && g.pendPl + packet.payload <= MAX_PL_FIFO
    requires !last ==> g.pendPh + 1 < MAX_PH_FIFO && g.pendPl + packet.payload <= PL_FIFO_THRESHOLD
    ensures var w := if last && g.pendPh == 0 then Single(g, packet) else Queued(g, packet);
            Covered(w) && (!last ==> Inv(w))
  {
    if last && g.pendPh == 0 {
      SingleIsCovered(g, packet);
    } else {
      QueuedIsCovered(g, packet);
    }
  }

  lemma AcceptedFits(h: Host, msg: Msg)
    requires Inv(h) && Accepted(h, msg)
    ensures Covered(Written(h, msg))
    ensures !Flushes(h, msg) ==> Inv(Written(h, msg))
  {
    var g := if msg.forceFlush then h.(batching := false) else h;
    EitherIsCovered(g, msg.content.packet, IsLast(h, msg));
  }

  /** At its fullest moment, before it is flushed, the FIFO holds no more than it can. */
  lemma WrittenFits(h: Host, msg: Msg)
    requires Inv(h)
    ensures Covered(Written(h, msg))
    ensures !Flushes(h, msg) ==> Inv(Written(h, msg))
  {
    if Accepted(h, msg) {
      AcceptedFits(h, msg);
    } else {
      assert Written(h, msg) == h.(batching := Written(h, msg).batching);
    }
  }

  lemma TransferKeepsInv(h: Host, msg: Msg)
    requires Inv(h)
    ensures Inv(Transferred(h, msg))
  {
    WrittenFits(h, msg);
    assert FifoBytes([]) == 0;
  }

  // ---------------------------------------------------------------------
  // Runs of transfers
  // ---------------------------------------------------------------------

  function Boot(): Host {
    Host(0, 0, false, false, 0, [], [])
  }

  function After(h: Host, msgs: seq<Msg>): Host {
    if |msgs| == 0 then h else Transferred(After(h, msgs[..|msgs| - 1]), msgs[|msgs| - 1])
  }

  /** The packets of all the messages that were neither refused nor only switched batching on. */
  function AcceptedBy(h: Host, msgs: seq<Msg>): seq<Packet> {
    if |msgs| == 0 then [] else
    var n := |msgs| - 1;
    AcceptedBy(h, msgs[..n]) + if Accepted(After(h, msgs[..n]), msgs[n]) then [msgs[n].content.packet] else []
  }

  /** Bytes in the FIFO are covered by the account, which never exceeds the FIFO; fewer than 32 headers
      pend; packet go is on with its one reference exactly when packets pend. */
  lemma {:induction false} EveryRunKeepsInv(msgs: seq<Msg>)
    ensures Inv(After(Boot(), msgs))
  {
    if |msgs| > 0 {
      EveryRunKeepsInv(msgs[..|msgs| - 1]);
      TransferKeepsInv(After(Boot(), msgs[..|msgs| - 1]), msgs[|msgs| - 1]);
    } else {
      assert FifoBytes([]) == 0;
    }
  }

  lemma TransferConserves(h: Host, msg: Msg)
    ensures var t := Transferred(h, msg);
            t.sent + t.fifo == h.sent + h.fifo + if Accepted(h, msg) then [msg.content.packet] else []
    ensures h.sent <= Transferred(h, msg).sent
  {
  }

  /** Every accepted packet goes out exactly once, in the order of acceptance. */
  lemma {:induction false} AcceptedGoOutInOrder(msgs: seq<Msg>)
    ensures var h := After(Boot(), msgs); h.sent + h.fifo == AcceptedBy(Boot(), msgs)
  {
    if |msgs| > 0 {
      var n := |msgs| - 1;
      AcceptedGoOutInOrder(msgs[..n]);
      TransferConserves(After(Boot(), msgs[..n]), msgs[n]);
    }
  }

  /** After a message that completes a batch nothing is left behind. */
  lemma {:induction false} LastMessageDrains(msgs: seq<Msg>, msg: Msg)
    requires Flushes(After(Boot(), msgs), msg)
    ensures var h := After(Boot(), msgs + [msg]);
            h.sent == AcceptedBy(Boot(), msgs + [msg]) && h.fifo == [] && h.pendPh == 0 && !h.packetGo && h.refs == 0
  {
    assert (msgs + [msg])[..|msgs|] == msgs;
    AcceptedGoOutInOrder(msgs + [msg]);
    EveryRunKeepsInv(msgs + [msg]);
    EveryRunKeepsInv(msgs);
    WrittenFits(After(Boot(), msgs), msg);
  }

  /** The header limit is never what refuses a message, a flush without a packet is never refused, and
      behind pending packets neither is one that fits above the threshold. */
  lemma {:induction false} OnlyPayloadRefuses(msgs: seq<Msg>, msg: Msg)
    ensures var h := After(Boot(), msgs);
            && !HeadersFull(h)
            && (Rejected(h, msg) <==> msg.content.Carries? && !msg.forceBatch && PayloadTooMuch(h, msg))
            && (msg.content.Empty? && msg.forceFlush && !msg.forceBatch ==> Flushes(h, msg))
            && (h.pendPh > 0 && PayloadOf(msg) <= MAX_PL_FIFO - PL_FIFO_THRESHOLD ==> !Rejected(h, msg))
  {
    EveryRunKeepsInv(msgs);
  }

  /** When an accepted packet goes out: at once, with all that pend, if it neither joins a batch nor is to wait for
      one, or a flush is asked for, or it would be the 32nd header or lead above 1536 bytes.  Otherwise nothing
      goes out and the packet pends behind packet go. */
  lemma {:induction false} GoesOutExactlyWhen(msgs: seq<Msg>, msg: Msg)
    requires Accepted(After(Boot(), msgs), msg)
    ensures var h, t := After(Boot(), msgs), Transferred(After(Boot(), msgs), msg);
            if (!msg.queue && !h.batching) || msg.forceFlush || |h.fifo| >= 31 || h.pendPl + PayloadOf(msg) > 1536
            then t.fifo == [] && t.sent == h.sent + h.fifo + [msg.content.packet]
            else t.fifo == h.fifo + [msg.content.packet] && t.sent == h.sent && t.packetGo
  {
    EveryRunKeepsInv(msgs);
  }

  /** Batching is switched on by a message that forces it, and off by one that forces a flush and is not refused. */
  lemma BatchingExactlyWhen(h: Host, msg: Msg)
    requires !msg.content.Unencodable?
    ensures Transferred(h, msg).batching <==> msg.forceBatch || (h.batching && (Rejected(h, msg) || !msg.forceFlush))
  {
  }

  /** What the caller is told: an error exactly for a message that is refused, which changes nothing. */
  lemma ResultMeans(h: Host, msg: Msg)
    ensures TransferResult(h, msg) == 0 || TransferResult(h, msg) == -22
    ensures TransferResult(h, msg) != 0 ==> Transferred(h, msg) == h
    ensures TransferResult(h, msg) == 0 && msg.content.Carries? && !msg.forceBatch ==>
              Transferred(h, msg).sent + Transferred(h, msg).fifo == h.sent + h.fifo + [msg.content.packet]
    ensures msg.content.Unencodable? ==> Transferred(h, msg) == h
  {
    TransferConserves(h, msg);
  }

  /** The flush skips the payload FIFO when the account is zero; there is then no payload in it. */
  lemma {:induction false} SkippedWaitIsSafe(msgs: seq<Msg>, msg: Msg)
    ensures var g := Written(After(Boot(), msgs), msg);
            g.pendPl == 0 ==> FifoBytes(g.fifo) == 0
  {
    EveryRunKeepsInv(msgs);
    WrittenFits(After(Boot(), msgs), msg);
  }

  // ---------------------------------------------------------------------
  // The account is only an upper bound
  // ---------------------------------------------------------------------

  /** A message written on its own, without packet go. */
  predicate WritesSingle(h: Host, msg: Msg) {
    Accepted(h, msg) && IsLast(h, msg) && h.pendPh == 0
  }

  /** What the messages leave in the account beyond the FIFO: the size of the last single write, unless
      packet go has been switched off since. */
  function Leftover(h: Host, msgs: seq<Msg>): nat {
    if |msgs| == 0 then 0 else
    var n := |msgs| - 1;
    var g := After(h, msgs[..n]);
    if WritesSingle(g, msgs[n]) then Align4(PayloadOf(msgs[n]))
    else if Flushes(g, msgs[n]) && g.pendPh > 0 then 0
    else Leftover(h, msgs[..n])
  }

  /** The account after one transfer, in terms of the FIFO and of what was left over before. */
  lemma TransferAccount(h: Host, msg: Msg, left: nat)
    requires Inv(h) && h.pendPl == left + FifoBytes(h.fifo)
    ensures var t := Transferred(h, msg);
            t.pendPl == FifoBytes(t.fifo) + if WritesSingle(h, msg) then Align4(PayloadOf(msg))
                                            else if Flushes(h, msg) && h.pendPh > 0 then 0
                                            else left
  {
    assert FifoBytes([]) == 0;
    if Accepted(h, msg) {
      FifoBytesAppend(h.fifo, msg.content.packet);
    }
  }

  /** Over every run the account is exactly the bytes in the FIFO and the leftover. */
  lemma {:induction false} AccountIsExact(msgs: seq<Msg>)
    ensures var h := After(Boot(), msgs); h.pendPl == FifoBytes(h.fifo) + Leftover(Boot(), msgs)
  {
    if |msgs| > 0 {
      var n := |msgs| - 1;
      AccountIsExact(msgs[..n]);
      EveryRunKeepsInv(msgs[..n]);
      TransferAccount(After(Boot(), msgs[..n]), msgs[n], Leftover(Boot(), msgs[..n]));
    } else {
      assert FifoBytes([]) == 0;
    }
  }

  /** After every run with an empty FIFO, exactly those fitting messages are refused that do not fit beside the
      last single write since packet go was last switched off. */
  lemma {:induction false} RefusedThoughEmpty(msgs: seq<Msg>, msg: Msg)
    requires After(Boot(), msgs).fifo == [] && msg.content.Carries? && !msg.forceBatch
    requires PayloadOf(msg) <= MAX_PL_FIFO
    ensures var h := After(Boot(), msgs);
            Rejected(h, msg) <==> Leftover(Boot(), msgs) > MAX_PL_FIFO - PayloadOf(msg)
  {
    EveryRunKeepsInv(msgs);
    AccountIsExact(msgs);
    assert FifoBytes([]) == 0;
  }

  /** The account that an empty FIFO carries over is the size of the last single write. */
  lemma StaleAccount(h: Host, packet: Packet, queue: bool)
    requires Inv(h) && h.pendPh == 0 && packet.payload <= MAX_PL_FIFO - h.pendPl
    requires !h.batching && (!queue || h.pendPl + packet.payload > PL_FIFO_THRESHOLD)
    ensures var g := Transferred(h, Msg(Carries(packet), queue, false, false));
            g.fifo == [] && g.pendPl == Align4(packet.payload) && g.sent == h.sent + [packet]
  {
    assert h.fifo == [];
  }

  /** A concrete refusal: one 4-byte command, then a 2048-byte one into an empty FIFO. */
  lemma RefusedThoughEmptyWitness()
    ensures var first := Msg(Carries(Packet(0, 4)), false, false, false);
            var second := Msg(Carries(Packet(1, 2048)), false, false, false);
            && After(Boot(), [first]).fifo == []
            && Rejected(After(Boot(), [first]), second)
            && !Rejected(Boot(), second)
  {
    var first := Msg(Carries(Packet(0, 4)), false, false, false);
    assert [first][..0] == [];
    assert After(Boot(), [first]) == Transferred(Boot(), first);
  }

  // ---------------------------------------------------------------------
  // Batches
  // ---------------------------------------------------------------------

  function AsMessages(packets: seq<Packet>): seq<Msg> {
    seq(|packets|, i requires 0 <= i < |packets| => Msg(Carries(packets[i]), false, false, false))
  }

  const SwitchBatchingOn := Msg(Empty, false, true, false)
  const FlushNow := Msg(Empty, false, false, true)

  /** While batching, packets that stay within the limits pile up and none goes out. */
  lemma {:induction false} BatchHoldsBack(h: Host, packets: seq<Packet>)
    requires Inv(h) && h.fifo == [] && h.batching
    requires |packets| < MAX_PH_FIFO && h.pendPl + FifoBytes(packets) <= PL_FIFO_THRESHOLD
    ensures var g := After(h, AsMessages(packets));
            && g.sent == h.sent && g.fifo == packets && g.batching
            && g.pendPl == h.pendPl + FifoBytes(packets) && g.pendPh == |packets| && Inv(g)
  {
    if |packets| > 0 {
      var n := |packets| - 1;
      BatchHoldsBack(h, packets[..n]);
      assert AsMessages(packets)[..n] == AsMessages(packets[..n]);
      var g := After(h, AsMessages(packets[..n]));
      TransferKeepsInv(g, AsMessages(packets)[n]);
      assert packets[..n] + [packets[n]] == packets;
    }
  }

  /** A batch within the limits goes out whole at the flush, and not before. */
  lemma {:induction false} BatchGoesOutAtOnce(h: Host, packets: seq<Packet>)
    requires Inv(h) && h.fifo == []
    requires |packets| < MAX_PH_FIFO && h.pendPl + FifoBytes(packets) <= PL_FIFO_THRESHOLD
    ensures var on := Transferred(h, SwitchBatchingOn);
            var full := After(on, AsMessages(packets));
            && full.sent == h.sent
            && Transferred(full, FlushNow).sent == h.sent + packets
            && !Transferred(full, FlushNow).batching
  {
    var on := Transferred(h, SwitchBatchingOn);
    BatchHoldsBack(on, packets);
  }

  // ---------------------------------------------------------------------
  // The driver's own form
  // ---------------------------------------------------------------------

  datatype State = HsClkEn | Ulps | Suspend | Bypass | Handover

  class Dsim {
    var state: State
    var totalPendPh: nat
    var totalPendPl: nat
    var forceBatching: bool
    var packetGo: bool
    var pmRefs: nat
    var fifo: seq<Packet>
    var sent: seq<Packet>

    constructor (state: State)
      ensures Model() == Boot() && this.state == state
    {
      this.state := state;
      totalPendPh, totalPendPl, forceBatching := 0, 0, false;
      packetGo, pmRefs, fifo, sent := false, 0, [], [];
    }

    ghost function Model(): Host
      reads this
    {
      Host(totalPendPh, totalPendPl, forceBatching, packetGo, pmRefs, fifo, sent)
    }

    method PacketGoEnable(en: bool)
      requires !en ==> pmRefs > 0
      modifies this
      ensures state == old(state)
      ensures en ==> Model() == old(Model()).(packetGo := true, refs := old(pmRefs) + 1)
      ensures !en ==> Model() == old(Model()).(packetGo := false, refs := old(pmRefs) - 1, pendPh := 0, pendPl := 0)
    {
      if en {
        pmRefs := pmRefs + 1;
      }
      packetGo := en;
      if !en {
        pmRefs := pmRefs - 1;
        totalPendPh := 0;
        totalPendPl := 0;
      }
    }

    method QueuePacket(packet: Packet)
      requires totalPendPh > 0 ==> packetGo
      modifies this
      ensures state == old(state) && Model() == Queued(old(Model()), packet)
    {
      if totalPendPh == 0 {
        PacketGoEnable(true);
      }
      totalPendPh := totalPendPh + 1;
      totalPendPl := totalPendPl + Align4(packet.payload);
      fifo := fifo + [packet];
    }

    method WriteSingle(packet: Packet)
      requires totalPendPh == 0
      modifies this
      ensures state == old(state) && Model() == Single(old(Model()), packet)
    {
      totalPendPl := Align4(packet.payload);
      fifo := fifo + [packet];
    }

    method WriteDataLocked(msg: Msg) returns (ret: int)
      requires Inv(Model())
      modifies this
      ensures state == old(state) && Model() == Written(old(Model()), msg)
      ensures ret == if Rejected(old(Model()), msg) then -EINVAL else if Flushes(old(Model()), msg) then 1 else 0
    {
      if msg.content.Unencodable? {
        return 0;
      }
      if msg.forceBatch {
        forceBatching := true;
        return 0;
      }
      if totalPendPl + PayloadOf(msg) > MAX_PL_FIFO || totalPendPh >= MAX_PH_FIFO {
        return -EINVAL;
      }
      var isLast := (!msg.queue && !forceBatching) || msg.forceFlush;
      if msg.forceFlush {
        forceBatching := false;
      }
      if !isLast && msg.content.Carries?
         && (totalPendPh + 1 >= MAX_PH_FIFO || totalPendPl + PayloadOf(msg) > PL_FIFO_THRESHOLD) {
        isLast := true;
      }
      if isLast {
        if totalPendPh > 0 {
          if msg.content.Carries? {
            QueuePacket(msg.content.packet);
          }
        } else if msg.content.Carries? {
          WriteSingle(msg.content.packet);
        }
      } else if msg.content.Carries? {
        QueuePacket(msg.content.packet);
      }
      ret := if isLast then 1 else 0;
    }

    /** The header FIFO drains; the payload FIFO is only waited for if `isLong`. */
    method WaitForCmdFifoEmpty(isLong: bool)
      requires isLong || FifoBytes(fifo) == 0
      modifies this
      ensures state == old(state)
      ensures Model() == old(Model()).(fifo := [], sent := old(sent) + old(fifo))
    {
      sent := sent + fifo;
      fifo := [];
    }

    method FlushLocked()
      requires totalPendPl == 0 ==> FifoBytes(fifo) == 0
      requires totalPendPh > 0 ==> pmRefs > 0
      modifies this
      ensures state == old(state) && Model() == Flushed(old(Model()))
    {
      WaitForCmdFifoEmpty(totalPendPl > 0);
      if totalPendPh > 0 {
        PacketGoEnable(false);
      }
    }

    /** `dsim_host_transfer` for writes; the reference it holds across the call cancels out. */
    method HostTransfer(msg: Msg) returns (ret: int)
      requires Inv(Model())
      modifies this
      ensures state == old(state) && Inv(Model())
      ensures state != HsClkEn ==> ret == -EPERM && Model() == old(Model())
      ensures state == HsClkEn ==> Model() == Transferred(old(Model()), msg) && ret == TransferResult(old(Model()), msg)
    {
      if state != HsClkEn {
        return -EPERM;
      }
      TransferKeepsInv(Model(), msg);
      WrittenFits(Model(), msg);
      ret := WriteDataLocked(msg);
      if ret == 1 {
        FlushLocked();
        ret := 0;
      }
    }

    /** Run on entry to the low power state, which runtime PM reaches only without references: the
        cleanup of pending packets there never finds any. */
    method EnterUlps()
      requires Inv(Model()) && pmRefs == 0
      modifies this
      ensures state == Ulps && Model() == old(Model()) && fifo == [] && !packetGo
    {
      assert totalPendPh == 0;
      state := Ulps;
    }
  }
}
