/** Byte buffers as the image metadata strippers use them (src/modules/discounts/evidence.ts). */
module ImageBytes {
  type Byte = b: int | 0 <= b < 0x100

  /** `Buffer.subarray`: bounds past the end are clipped. */
  function Sub(buf: seq<Byte>, from: nat, to: nat): seq<Byte> {
    var hi := if to < |buf| then to else |buf|;
    if from < hi then buf[from..hi] else []
  }

  /** What is left of the buffer from `offset` on. */
  function From(buf: seq<Byte>, offset: nat): (r: seq<Byte>)
    ensures offset <= |buf| ==> r == buf[offset..]
  {
    Sub(buf, offset, |buf|)
  }

  /** Slices of the remainder are slices of the buffer. */
  lemma SubFrom(buf: seq<Byte>, offset: nat, n: nat)
    requires offset <= |buf| && n <= |buf| - offset
    ensures buf[offset..][..n] == Sub(buf, offset, offset + n)
    ensures buf[offset..][n..] == From(buf, offset + n)
  {
  }

  /** `Buffer.concat`. */
  function Concat(chunks: seq<seq<Byte>>): seq<Byte> {
    if chunks == [] then [] else Concat(chunks[..|chunks| - 1]) + chunks[|chunks| - 1]
  }

  lemma ConcatPush(chunks: seq<seq<Byte>>, c: seq<Byte>)
    ensures Concat(chunks + [c]) == Concat(chunks) + c
  {
    assert (chunks + [c])[..|chunks|] == chunks;
  }

  lemma ConcatOne(c: seq<Byte>)
    ensures Concat([c]) == c
  {
    ConcatPush([], c);
    assert [] + [c] == [c];
  }

  lemma {:induction false} ConcatAppend(a: seq<seq<Byte>>, b: seq<seq<Byte>>)
    ensures Concat(a + b) == Concat(a) + Concat(b)
  {
    if b == [] {
      assert a + b == a;
    } else {
      var n := |b| - 1;
      ConcatAppend(a, b[..n]);
      assert (a + b)[..|a| + n] == a + b[..n];
    }
  }

  /** Pushing two chunks is pushing their concatenation. */
  lemma ConcatSplit(chunks: seq<seq<Byte>>, a: seq<Byte>, b: seq<Byte>)
    ensures Concat(chunks + [a] + [b]) == Concat(chunks + [a + b])
  {
    ConcatPush(chunks, a);
    ConcatPush(chunks + [a], b);
    ConcatPush(chunks, a + b);
    assert Concat(chunks) + a + b == Concat(chunks) + (a + b);
  }

  function Be16(hi: Byte, lo: Byte): nat { 0x100 * (hi as int) + lo }

  /** Four bytes, most significant first. */
  function Be32(s: seq<Byte>): nat
    requires |s| == 4
  {
    0x100_0000 * (s[0] as int) + 0x1_0000 * (s[1] as int) + 0x100 * (s[2] as int) + s[3]
  }

  /** Four bytes, least significant first. */
  function Le32(s: seq<Byte>): nat
    requires |s| == 4
  {
    Be32([s[3], s[2], s[1], s[0]])
  }

  /** `writeUInt32LE`; the caller checks the range. */
  function PutLe32(n: nat): (s: seq<Byte>)
    requires n < 0x1_0000_0000
    ensures |s| == 4 && Le32(s) == n
  {
    var q1: int, b0: int := n / 0x100, n % 0x100;
    var q2: int, b1: int := q1 / 0x100, q1 % 0x100;
    var b3: int, b2: int := q2 / 0x100, q2 % 0x100;
    [b0, b1, b2, b3]
  }
}
