/**
 The payload codec of the DSI host: bytes go to and come from the FIFOs as
 little-endian 32-bit words.

 Words are numbers here: or-ing shifted bytes is a sum, masking with 0xff a
 remainder and shifting right by 8 a division, which ShiftIsScale, OrIsSum and
 MaskAndShift establish on 32-bit vectors.
 */
module DsiPayload {
  import opened DsiCommand

  type Byte = b: nat | b < 0x100
  type Word = w: nat | w < 0x1_0000_0000

  function Min(a: nat, b: nat): nat {
    if a < b then a else b
  }

  lemma ShiftIsScale(b: bv32)
    ensures b << 8 == b * 0x100 && b << 16 == b * 0x10000 && b << 24 == b * 0x1000000
  {
  }

  lemma OrIsSum(low: bv32, high: bv32)
    ensures low <= 0xff ==> low | (high << 8) == low + (high << 8)
    ensures low <= 0xffff ==> low | (high << 16) == low + (high << 16)
    ensures low <= 0xffffff ==> low | (high << 24) == low + (high << 24)
  {
  }

  lemma MaskAndShift(w: bv32)
    ensures w & 0xff == w % 0x100 && w >> 8 == w / 0x100
  {
  }

  /** The payload word of one to four bytes. */
  function WordOf(p: seq<Byte>): Word
    requires 1 <= |p| <= 4
  {
    if |p| == 4 then p[0] + (p[1] as int) * 0x100 + (p[2] as int) * 0x10000 + (p[3] as int) * 0x1000000
    else if |p| == 3 then p[0] + (p[1] as int) * 0x100 + (p[2] as int) * 0x10000
    else if |p| == 2 then p[0] + (p[1] as int) * 0x100
    else p[0]
  }

  function Packed(bytes: seq<Byte>): seq<Word> {
    if bytes == [] then [] else
    var n := Min(4, |bytes|);
    [WordOf(bytes[..n])] + Packed(bytes[n..])
  }

  function BytesOf(w: Word, n: nat): (r: seq<Byte>)
    requires n <= 4
    ensures |r| == n
  {
    if n == 0 then [] else [w % 0x100] + BytesOf(w / 0x100, n - 1)
  }

  function Unpacked(words: seq<Word>, size: nat): (r: seq<Byte>)
    requires size <= 4 * |words|
    ensures |r| == size
  {
    if size == 0 then [] else
    var n := Min(4, size);
    BytesOf(words[0], n) + Unpacked(words[1..], size - n)
  }

  // ---------------------------------------------------------------------
  // Round trips
  // ---------------------------------------------------------------------

  lemma {:induction false} BytesOfWord(p: seq<Byte>)
    requires 1 <= |p| <= 4
    ensures BytesOf(WordOf(p), |p|) == p
  {
    var w := WordOf(p);
    assert w % 0x100 == p[0];
    if |p| == 1 {
      assert BytesOf(w, 1) == [p[0]] + BytesOf(w / 0x100, 0);
    } else {
      assert w / 0x100 == WordOf(p[1..]);
      BytesOfWord(p[1..]);
    }
  }

  lemma {:induction false} WordOfBytes(w: Word, n: nat)
    requires 1 <= n <= 4
    requires n < 4 ==> w < 0x1000000
    requires n < 3 ==> w < 0x10000
    requires n < 2 ==> w < 0x100
    ensures WordOf(BytesOf(w, n)) == w
  {
    var b := BytesOf(w, n);
    if n > 1 {
      WordOfBytes(w / 0x100, n - 1);
      assert b[1..] == BytesOf(w / 0x100, n - 1);
      assert b[0] == w % 0x100;
    }
  }

  /** The FIFO account charges exactly the words written. */
  lemma {:induction false} WordsCharged(bytes: seq<Byte>)
    ensures 4 * |Packed(bytes)| == Align4(|bytes|)
  {
    if bytes != [] {
      WordsCharged(bytes[Min(4, |bytes|)..]);
    }
  }

  /** Reading back what was written gives the same bytes, for every length. */
  lemma {:induction false} UnpackPacked(bytes: seq<Byte>)
    ensures |bytes| <= 4 * |Packed(bytes)|
    ensures Unpacked(Packed(bytes), |bytes|) == bytes
  {
    WordsCharged(bytes);
    if bytes != [] {
      var n := Min(4, |bytes|);
      UnpackPacked(bytes[n..]);
      BytesOfWord(bytes[..n]);
      assert Packed(bytes)[1..] == Packed(bytes[n..]);
      assert bytes == bytes[..n] + bytes[n..];
    }
  }

  /** Writing back what was read in whole words gives the same words. */
  lemma {:induction false} PackUnpacked(words: seq<Word>)
    ensures Packed(Unpacked(words, 4 * |words|)) == words
  {
    if words != [] {
      PackUnpacked(words[1..]);
      var bytes := Unpacked(words, 4 * |words|);
      assert bytes[..4] == BytesOf(words[0], 4);
      assert bytes[4..] == Unpacked(words[1..], 4 * |words[1..]|);
      WordOfBytes(words[0], 4);
    }
  }

  // ---------------------------------------------------------------------
  // The loops
  // ---------------------------------------------------------------------

  lemma {:induction false} PackedAppend(done: seq<Byte>, p: seq<Byte>)
    requires |done| % 4 == 0 && 1 <= |p| <= 4
    ensures Packed(done + p) == Packed(done) + [WordOf(p)]
  {
    if done == [] {
      assert done + p == p && p[..|p|] == p && p[|p|..] == [];
    } else {
      assert (done + p)[..4] == done[..4];
      assert (done + p)[4..] == done[4..] + p;
      PackedAppend(done[4..], p);
    }
  }

  /** `dsim_write_payload`: the words written to the payload register, in order. */
  method WritePayload(buf: seq<Byte>) returns (written: seq<Word>)
    ensures written == Packed(buf)
  {
    var p := 0;
    written := [];
    while p < |buf|
      invariant 0 <= p <= |buf|
      invariant p % 4 == 0 || p == |buf|
      invariant written == Packed(buf[..p])
    {
      var size := Min(4, |buf| - p);
      var payload: Word;
      if size >= 4 {
        payload := buf[p] + (buf[p + 1] as int) * 0x100
        + (buf[p + 2] as int) * 0x10000 + (buf[p + 3] as int) * 0x1000000;
      } else if size == 3 {
        payload := buf[p] + (buf[p + 1] as int) * 0x100 + (buf[p + 2] as int) * 0x10000;
      } else if size == 2 {
        payload := buf[p] + (buf[p + 1] as int) * 0x100;
      } else {
        payload := buf[p];
      }
      assert payload == WordOf(buf[p..p + size]);
      PackedAppend(buf[..p], buf[p..p + size]);
      assert buf[..p] + buf[p..p + size] == buf[..p + size];
      written := written + [payload];
      p := p + size;
    }
    assert buf[..p] == buf;
  }

  /** The word after `n` rounds of `>>= 8`. */
  function Shifted(w: Word, n: nat): Word {
    if n == 0 then w else Shifted(w, n - 1) / 0x100
  }

  lemma {:induction false} ShiftFirst(w: Word, n: nat)
    ensures Shifted(w / 0x100, n) == Shifted(w, n + 1)
  {
    if n > 0 {
      ShiftFirst(w, n - 1);
    }
  }

  lemma {:induction false} BytesAppend(w: Word, n: nat)
    requires n < 4
    ensures BytesOf(w, n + 1) == BytesOf(w, n) + [Shifted(w, n) % 0x100]
  {
    if n > 0 {
      BytesAppend(w / 0x100, n - 1);
      ShiftFirst(w, n - 1);
    }
  }

  lemma {:induction false} UnpackedAppend(words: seq<Word>, k: nat, n: nat)
    requires k < |words| && n <= 4
    ensures Unpacked(words, 4 * k + n) == Unpacked(words, 4 * k) + BytesOf(words[k], n)
  {
    if k == 0 {
      if n > 0 {
        assert Unpacked(words[1..], 0) == [];
      }
    } else {
      UnpackedAppend(words[1..], k - 1, n);
    }
  }

  /** The inner loop: the bytes of one word into the buffer from index `i` on. */
  method StoreWord(word: Word, buf: array<Byte>, i: nat, max: nat)
    requires i <= max <= buf.Length && max - i <= 4
    modifies buf
    ensures buf[..] == old(buf[..i]) + BytesOf(word, max - i) + old(buf[max..])
  {
    var j, fifo := i, word;
    while j < max
      invariant i <= j <= max
      invariant fifo == Shifted(word, j - i)
      invariant buf[..] == old(buf[..i]) + BytesOf(word, j - i) + old(buf[j..])
    {
      BytesAppend(word, j - i);
      buf[j] := fifo % 0x100;
      j, fifo := j + 1, fifo / 0x100;
    }
  }

  /** `next` differs from `now`, which begins with `done`, by `more` after it. */
  lemma Splice(done: seq<Byte>, more: seq<Byte>, start: seq<Byte>, now: seq<Byte>, next: seq<Byte>)
    requires |done| + |more| <= |start| && now == done + start[|done|..]
    requires next == now[..|done|] + more + now[|done| + |more|..]
    ensures next == done + more + start[|done| + |more|..]
  {
    assert now[..|done|] == done;
    assert now[|done| + |more|..] == start[|done| + |more|..];
  }

  /** One word more in the buffer: `now` is the buffer before it, `next` after it, `start` at the beginning. */
  lemma OneWordMore(fifo: seq<Word>, k: nat, n: nat, start: seq<Byte>, now: seq<Byte>, next: seq<Byte>)
    requires k < |fifo| && n <= 4 && 4 * k + n <= |start|
    requires now == Unpacked(fifo, 4 * k) + start[4 * k..]
    requires next == now[..4 * k] + BytesOf(fifo[k], n) + now[4 * k + n..]
    ensures next == Unpacked(fifo, 4 * k + n) + start[4 * k + n..]
  {
    UnpackedAppend(fifo, k, n);
    Splice(Unpacked(fifo, 4 * k), BytesOf(fifo[k], n), start, now, next);
  }

  /** One round of the long-read loop: word `k` of the FIFO, of which `n` bytes are wanted. */
  method ReadWord(fifo: seq<Word>, k: nat, n: nat, buf: array<Byte>, ghost start: seq<Byte>)
    requires k < |fifo| && n <= 4 && 4 * k + n <= |start| == buf.Length
    requires buf[..] == Unpacked(fifo, 4 * k) + start[4 * k..]
    modifies buf
    ensures buf[..] == Unpacked(fifo, 4 * k + n) + start[4 * k + n..]
  {
    ghost var now := buf[..];
    StoreWord(fifo[k], buf, 4 * k, 4 * k + n);
    assert now[..4 * k] == old(buf[..4 * k]) && now[4 * k + n..] == old(buf[4 * k + n..]);
    OneWordMore(fifo, k, n, start, now, buf[..]);
  }

  /** The long-read loop of `dsim_read_data`; `fifo` holds the words the receive FIFO delivers. */
  method LongRead(fifo: seq<Word>, size: nat, buf: array<Byte>) returns (words: nat)
    requires size <= buf.Length && size <= 4 * |fifo|
    modifies buf
    ensures buf[..] == Unpacked(fifo, size) + old(buf[size..])
    ensures 4 * words == Align4(size)
  {
    var i := 0;
    words := 0;
    ghost var start := buf[..];
    while i < size
      invariant i <= size && words <= |fifo|
      invariant i <= 4 * words < i + 4 && (i < size ==> i == 4 * words)
      invariant buf[..] == Unpacked(fifo, i) + start[i..]
    {
      var max := Min(size, i + 4);
      ReadWord(fifo, words, max - i, buf, start);
      i, words := max, words + 1;
    }
  }
}
