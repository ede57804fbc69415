/**
 The list of histogram requests waiting for an answer, and the fate of every
 request ever accepted.

 Every accepted request gets the next number.  Its fate is recorded beside the
 driver's own list.
 */
module PendingEvents {

  type Bins = int

  datatype Event =
    | ChannelEvent(id: nat, hist: nat)
    | ContextEvent(id: nat, handle: nat)

  datatype Fate = Waiting | Answered(bins: Bins) | Cancelled

  /** The pending list, and the fates by request number. */
  datatype Ledger = Ledger(pending: seq<Event>, fates: seq<Fate>)

  predicate Matches(e: Event, hist: nat, n: nat, handle: nat) {
    match e
    case ChannelEvent(_, h) => h == hist && hist < n
    case ContextEvent(_, u) => u == handle && handle != 0
  }

  /** Index of the first matching event, or the length. */
  function Find(pending: seq<Event>, hist: nat, n: nat, handle: nat): (r: nat)
    ensures r <= |pending|
    ensures r < |pending| ==> Matches(pending[r], hist, n, handle)
    ensures forall i :: 0 <= i < r ==> !Matches(pending[i], hist, n, handle)
  {
    if |pending| == 0 || Matches(pending[0], hist, n, handle) then 0
    else
      var r := Find(pending[1..], hist, n, handle);
      assert forall i :: 0 < i < r + 1 ==> pending[i] == pending[1..][i - 1];
      1 + r
  }

  function Without(pending: seq<Event>, i: nat): seq<Event>
    requires i < |pending|
  {
    pending[..i] + pending[i + 1..]
  }

  function Settled(l: Ledger, i: nat, fate: Fate): Ledger
    requires i < |l.pending|
  {
    var id := l.pending[i].id;
    Ledger(Without(l.pending, i), if id < |l.fates| then l.fates[id := fate] else l.fates)
  }

  function Accepted(l: Ledger, e: Event): Ledger {
    Ledger(l.pending + [e], l.fates + [Waiting])
  }

  /** Two events that may not wait at the same time. */
  predicate SameSlot(a: Event, b: Event) {
    || (a.ChannelEvent? && b.ChannelEvent? && a.hist == b.hist)
    || (a.ContextEvent? && b.ContextEvent? && a.handle == b.handle)
  }

  predicate Proper(e: Event, n: nat) {
    if e.ChannelEvent? then e.hist < n else e.handle != 0
  }

  predicate Listed(pending: seq<Event>, id: nat) {
    exists i :: 0 <= i < |pending| && pending[i].id == id
  }

  /** No slot twice, and the oldest request first. */
  predicate DistinctInOrder(pending: seq<Event>) {
    forall i, j :: 0 <= i < j < |pending| ==> !SameSlot(pending[i], pending[j]) && pending[i].id < pending[j].id
  }

  predicate PendingWait(pending: seq<Event>, fates: seq<Fate>, n: nat) {
    forall i :: 0 <= i < |pending| ==>
                  pending[i].id < |fates| && fates[pending[i].id] == Waiting && Proper(pending[i], n)
  }

  predicate WaitersListed(pending: seq<Event>, fates: seq<Fate>) {
    forall id :: 0 <= id < |fates| && fates[id] == Waiting ==> Listed(pending, id)
  }

  /** No two events of one channel or one handle wait, and the waiting requests are exactly those listed. */
  predicate Accounted(l: Ledger, n: nat) {
    DistinctInOrder(l.pending) && PendingWait(l.pending, l.fates, n) && WaitersListed(l.pending, l.fates)
  }

  /** Later ledgers know more requests and never change a fate once decided. */
  predicate Extends(l: Ledger, m: Ledger) {
    && |l.fates| <= |m.fates|
    && forall id :: 0 <= id < |l.fates| && l.fates[id] != Waiting ==> m.fates[id] == l.fates[id]
  }

  lemma ExtendsTrans(l: Ledger, m: Ledger, k: Ledger)
    requires Extends(l, m) && Extends(m, k)
    ensures Extends(l, k)
  {
    forall id | 0 <= id < |l.fates| && l.fates[id] != Waiting ensures k.fates[id] == l.fates[id] {
      assert m.fates[id] == l.fates[id];
    }
  }

  /** Where an element of the shortened list comes from. */
  lemma WithoutAt(pending: seq<Event>, i: nat)
    requires i < |pending|
    ensures |Without(pending, i)| == |pending| - 1
    ensures forall k :: 0 <= k < |pending| - 1 ==> Without(pending, i)[k] == pending[if k < i then k else k + 1]
  {
  }

  lemma WithoutIsDistinct(pending: seq<Event>, i: nat)
    requires i < |pending| && DistinctInOrder(pending)
    ensures DistinctInOrder(Without(pending, i))
    ensures forall k :: 0 <= k < |pending| - 1 ==> Without(pending, i)[k].id != pending[i].id
  {
    WithoutAt(pending, i);
  }

  lemma WithoutStillWaits(pending: seq<Event>, fates: seq<Fate>, n: nat, i: nat, fate: Fate)
    requires i < |pending| && DistinctInOrder(pending) && PendingWait(pending, fates, n)
    ensures PendingWait(Without(pending, i), fates[pending[i].id := fate], n)
  {
    WithoutAt(pending, i);
    WithoutIsDistinct(pending, i);
    var rest := Without(pending, i);
    forall k | 0 <= k < |rest|
      ensures rest[k].id < |fates| && fates[pending[i].id := fate][rest[k].id] == Waiting && Proper(rest[k], n)
    {
      var from := if k < i then k else k + 1;
      assert rest[k] == pending[from];
    }
  }

  lemma WithoutStillLists(pending: seq<Event>, fates: seq<Fate>, n: nat, i: nat, fate: Fate)
    requires i < |pending| && PendingWait(pending, fates, n) && WaitersListed(pending, fates) && fate != Waiting
    ensures WaitersListed(Without(pending, i), fates[pending[i].id := fate])
  {
    WithoutAt(pending, i);
    var rest := Without(pending, i);
    var decided := fates[pending[i].id := fate];
    forall d | 0 <= d < |decided| && decided[d] == Waiting ensures Listed(rest, d) {
      assert fates[d] == Waiting && Listed(pending, d);
      var k :| 0 <= k < |pending| && pending[k].id == d;
      assert rest[if k < i then k else k - 1].id == d;
    }
  }

  lemma SettleKeeps(l: Ledger, n: nat, i: nat, fate: Fate)
    requires Accounted(l, n) && i < |l.pending| && fate != Waiting
    ensures Accounted(Settled(l, i, fate), n) && Extends(l, Settled(l, i, fate))
    ensures Settled(l, i, fate).fates[l.pending[i].id] == fate
  {
    WithoutIsDistinct(l.pending, i);
    WithoutStillWaits(l.pending, l.fates, n, i, fate);
    WithoutStillLists(l.pending, l.fates, n, i, fate);
  }

  lemma AcceptKeeps(l: Ledger, n: nat, e: Event, hist: nat, handle: nat)
    requires Accounted(l, n) && e.id == |l.fates| && Proper(e, n)
    requires Find(l.pending, hist, n, handle) == |l.pending| && Matches(e, hist, n, handle)
    ensures Accounted(Accepted(l, e), n) && Extends(l, Accepted(l, e))
  {
    var m := Accepted(l, e);
    var last := |l.pending|;
    assert forall k :: 0 <= k < last ==> m.pending[k] == l.pending[k] && !Matches(l.pending[k], hist, n, handle);
    assert m.pending[last] == e;
    forall d | 0 <= d < |m.fates| && m.fates[d] == Waiting ensures Listed(m.pending, d) {
      if d < |l.fates| {
        assert Listed(l.pending, d);
        var k :| 0 <= k < last && l.pending[k].id == d;
        assert m.pending[k].id == d;
      } else {
        assert m.pending[last].id == d;
      }
    }
  }
}
