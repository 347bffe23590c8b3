/** The byte-level primitives the record layer gets from Node's `Buffer`:
    big-endian 32-bit integers, the 'ascii' string encoding and `slice`. */
module Bytes {

  newtype byte = x: int | 0 <= x < 256

  const TWO_32: int := 0x1_0000_0000

  function Min(a: int, b: int): int { if a < b then a else b }

  function Max(a: int, b: int): int { if a < b then b else a }

  /** `writeUInt32BE`: bytes are taken from the least significant end, each
      shifted out in turn, and stored most significant first. */
  function EncodeU32BE(n: nat): (r: seq<byte>)
    requires n < TWO_32
    ensures |r| == 4
  {
    var n2 := n / 0x100;
    var n1 := n2 / 0x100;
    [(n1 / 0x100) as byte, (n1 % 0x100) as byte, (n2 % 0x100) as byte, (n % 0x100) as byte]
  }

  /** `readUInt32BE` on four bytes. */
  function DecodeU32BE(b: seq<byte>): (n: nat)
    requires |b| == 4
    ensures n < TWO_32
  {
    ((b[0] as int * 0x100 + b[1] as int) * 0x100 + b[2] as int) * 0x100 + b[3] as int
  }

  /** Decoding undoes encoding on the whole 32-bit range. */
  lemma {:induction false} DecodeEncodeU32(n: nat)
    requires n < TWO_32
    ensures DecodeU32BE(EncodeU32BE(n)) == n
  {
    var n2 := n / 0x100;
    var n1 := n2 / 0x100;
    assert n1 == (n1 / 0x100) * 0x100 + n1 % 0x100;
    assert n2 == n1 * 0x100 + n2 % 0x100;
    assert n == n2 * 0x100 + n % 0x100;
  }

  /** Encoding undoes decoding: every four bytes are the encoding of one number. */
  lemma {:induction false} EncodeDecodeU32(b: seq<byte>)
    requires |b| == 4
    ensures EncodeU32BE(DecodeU32BE(b)) == b
  {
    var x0, x1, x2, x3 := b[0] as int, b[1] as int, b[2] as int, b[3] as int;
    var n1 := x0 * 0x100 + x1;
    var n2 := n1 * 0x100 + x2;
    var n := n2 * 0x100 + x3;
    assert n == DecodeU32BE(b);
    DivModUnique(n, n2, x3, 0x100);
    DivModUnique(n2, n1, x2, 0x100);
    DivModUnique(n1, x0, x1, 0x100);
  }

  /** Division and remainder are determined by a quotient and an in-range remainder. */
  lemma DivModUnique(n: int, q: int, r: int, d: int)
    requires 0 < d && 0 <= r < d && n == q * d + r
    ensures n / d == q && n % d == r
  {
    var q0, r0 := n / d, n % d;
    assert (q - q0) * d == r0 - r;
    if q > q0 {
      MulAtLeast(q - q0, d);
    } else if q < q0 {
      MulAtLeast(q0 - q, d);
    }
  }

  lemma MulAtLeast(k: int, d: int)
    requires 1 <= k && 0 < d
    ensures k * d >= d
  {
  }

  /** A character as the 'ascii' (in fact latin1) writer stores it: its low byte. */
  function WriteChar(c: char): byte
  {
    (c as int % 0x100) as byte
  }

  /** A byte as the 'ascii' reader decodes it: with the high bit cleared. */
  function ReadChar(b: byte): char
  {
    (b as int % 0x80) as char
  }

  predicate IsSevenBit(c: char) { c as int < 0x80 }

  /** `write(s, 0, 4, 'ascii')` into four zeroed bytes: at most four characters are
      written, and the bytes after a shorter string stay zero. */
  function WriteAscii4(s: string): (r: seq<byte>)
    ensures |r| == 4
    ensures forall i :: 0 <= i < |s| && i < 4 && IsSevenBit(s[i]) ==> ReadChar(r[i]) == s[i]
    ensures forall i :: |s| <= i < 4 ==> r[i] == 0
  {
    seq(4, i requires 0 <= i < 4 => if i < |s| then WriteChar(s[i]) else 0)
  }

  /** `toString('ascii')`: one character per byte. */
  function ReadAscii(b: seq<byte>): (s: string)
    ensures |s| == |b|
    ensures forall i :: 0 <= i < |s| ==> IsSevenBit(s[i])
  {
    seq(|b|, i requires 0 <= i < |b| => ReadChar(b[i]))
  }

  /** Four seven-bit characters survive a write and a read. */
  lemma AsciiRoundTrip(s: string)
    requires |s| == 4 && forall i :: 0 <= i < 4 ==> IsSevenBit(s[i])
    ensures ReadAscii(WriteAscii4(s)) == s
  {
  }

  /** Four seven-bit bytes survive a read and a write. */
  lemma AsciiBytesRoundTrip(b: seq<byte>)
    requires |b| == 4 && forall i :: 0 <= i < 4 ==> b[i] < 0x80
    ensures WriteAscii4(ReadAscii(b)) == b
  {
  }

  /** `Buffer.slice(start, end)`: both ends are clamped to the buffer, and an end
      before the start gives nothing. */
  function Slice(s: seq<byte>, start: nat, end: nat): (r: seq<byte>)
    ensures |r| == Max(0, Min(end, |s|) - Min(start, |s|))
    ensures start <= |s| ==> r <= s[start..]
  {
    var lo := Min(start, |s|);
    s[lo..Max(lo, Min(end, |s|))]
  }
}
