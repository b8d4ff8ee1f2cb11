/** Bytes, little-endian 32-bit lengths, and the byte order of Go strings. */
module Bytes {

  newtype byte = x: int | 0 <= x < 256

  type Str = seq<byte>

  const TWO_32: int := 0x1_0000_0000

  // binary.LittleEndian.PutUint32(uint32(n)): lengths wrap at 2^32.
  function LE32(n: nat): (r: seq<byte>)
    ensures |r| == 4
  {
    [(n % 256) as byte, (n / 256 % 256) as byte, (n / 65536 % 256) as byte, (n / 16777216 % 256) as byte]
  }

  function FromLE32(b: seq<byte>): (n: nat)
    requires |b| == 4
    ensures n < TWO_32
  {
    b[0] as nat + 256 * b[1] as nat + 65536 * b[2] as nat + 16777216 * b[3] as nat
  }

  lemma LE32RoundTrip(n: nat)
    ensures FromLE32(LE32(n)) == n % TWO_32
  {
    SplitByte(n);
    SplitByte(n / 256);
    SplitByte(n / 65536);
    SplitByte(n / 16777216);
    var top := n / 16777216 / 256;
    assert n == FromLE32(LE32(n)) + TWO_32 * top;
    assert n % TWO_32 == FromLE32(LE32(n)) by { RemainderIs(n, top, FromLE32(LE32(n))); }
  }

  lemma SplitByte(n: nat)
    ensures n == 256 * (n / 256) + n % 256 && n / 256 / 256 == n / 65536 && n / 65536 / 256 == n / 16777216
  {
  }

  lemma RemainderIs(n: nat, q: nat, r: nat)
    requires n == r + TWO_32 * q && r < TWO_32
    ensures n % TWO_32 == r
  {
  }

  lemma LE32OfDecoded(b: seq<byte>)
    requires |b| == 4
    ensures LE32(FromLE32(b)) == b
  {
    var b0, b1, b2, b3 := b[0] as nat, b[1] as nat, b[2] as nat, b[3] as nat;
    var n := FromLE32(b);
    assert n / 256 == b1 + 256 * b2 + 65536 * b3;
    assert n / 65536 == b2 + 256 * b3;
    assert n / 16777216 == b3;
    assert b == [b[0], b[1], b[2], b[3]];
  }

  // ---- the order of keys ----

  predicate Less(a: seq<byte>, b: seq<byte>)
    decreases |a|
  {
    b != [] && (a == [] || a[0] < b[0] || (a[0] == b[0] && Less(a[1..], b[1..])))
  }

  lemma {:induction false} LessTotal(a: seq<byte>, b: seq<byte>)
    ensures Less(a, b) || a == b || Less(b, a)
    ensures !(Less(a, b) && Less(b, a)) && !(a == b && Less(a, b))
    decreases |a|
  {
    if a != [] && b != [] {
      LessTotal(a[1..], b[1..]);
      assert a == [a[0]] + a[1..] && b == [b[0]] + b[1..];
    }
  }

  lemma {:induction false} LessTransitive(a: seq<byte>, b: seq<byte>, c: seq<byte>)
    requires Less(a, b) && Less(b, c)
    ensures Less(a, c)
    decreases |a|
  {
    if a != [] && a[0] == b[0] == c[0] {
      LessTransitive(a[1..], b[1..], c[1..]);
    }
  }

  // Bytewise order: a is a proper part from the front, or has the smaller byte
  // where the two first differ.
  lemma {:induction false} LessIff(a: Str, b: Str)
    ensures Less(a, b) <==> Precedes(a, b)
    decreases |a|
  {
    if a != [] && b != [] && a[0] == b[0] {
      LessIff(a[1..], b[1..]);
      if i :| FirstDiffers(a[1..], b[1..], i) {
        assert a[..i + 1] == [a[0]] + a[1..][..i] && b[..i + 1] == [b[0]] + b[1..][..i];
        assert FirstDiffers(a, b, i + 1);
      }
      if i :| FirstDiffers(a, b, i) {
        assert i > 0;
        assert a[1..][..i - 1] == a[..i][1..] && b[1..][..i - 1] == b[..i][1..];
        assert FirstDiffers(a[1..], b[1..], i - 1);
      }
    } else {
      if Less(a, b) { assert FirstDiffers(a, b, 0); }
      if i :| FirstDiffers(a, b, i) { SharedHead(a, b, i); }
    }
  }

  lemma SharedHead(a: Str, b: Str, i: int)
    requires FirstDiffers(a, b, i)
    ensures i > 0 ==> a != [] && b != [] && a[0] == b[0]
  {
    if i > 0 { assert a[0] == a[..i][0] && b[0] == b[..i][0]; }
  }

  ghost predicate Precedes(a: Str, b: Str)
  {
    exists i :: FirstDiffers(a, b, i)
  }

  ghost predicate FirstDiffers(a: Str, b: Str, i: int)
  {
    0 <= i <= |a| && i < |b| && a[..i] == b[..i] && (i == |a| || a[i] < b[i])
  }
}
