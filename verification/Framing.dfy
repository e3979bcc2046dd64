/** Bytes, big-endian counts and length-prefixed frames, as fed to SHA-256. */
module Framing {
  type Byte = b: int | 0 <= b < 256
  type Bytes = seq<Byte>

  const TWO64: nat := 0x1_0000_0000_0000_0000

  /** A 32-byte digest. */
  type Digest = d: Bytes | |d| == 32 witness seq(32, _ => 0)

  /** The hash takes no two of these messages to the same digest. */
  ghost predicate CollisionFree(hash: Bytes -> Digest, messages: set<Bytes>) {
    forall x, y :: x in messages && y in messages && hash(x) == hash(y) ==> x == y
  }

  function Ascii(text: string): (r: Bytes)
    ensures |r| == |text|
  {
    seq(|text|, i requires 0 <= i < |text| => text[i] as int % 256)
  }

  function Power256(width: nat): nat {
    if width == 0 then 1 else 256 * Power256(width - 1)
  }

  function BigEndian(n: nat, width: nat): (r: Bytes)
    ensures |r| == width
  {
    if width == 0 then [] else BigEndian(n / 256, width - 1) + [n % 256]
  }

  lemma {:induction false} BigEndianInjective(n: nat, m: nat, width: nat)
    requires n < Power256(width) && m < Power256(width) && BigEndian(n, width) == BigEndian(m, width)
    ensures n == m
  {
    if width > 0 {
      var left, right := BigEndian(n, width), BigEndian(m, width);
      assert left[..width - 1] == BigEndian(n / 256, width - 1);
      assert right[..width - 1] == BigEndian(m / 256, width - 1);
      assert left[width - 1] == n % 256 && right[width - 1] == m % 256;
      BigEndianInjective(n / 256, m / 256, width - 1);
    }
  }

  /** binary.BigEndian.PutUint64. */
  function U64(n: nat): (r: Bytes)
    requires n < TWO64
    ensures |r| == 8
  {
    BigEndian(n, 8)
  }

  lemma U64Injective(n: nat, m: nat)
    requires n < TWO64 && m < TWO64 && U64(n) == U64(m)
    ensures n == m
  {
    assert Power256(4) == 0x1_0000_0000;
    assert Power256(8) == 256 * (256 * (256 * (256 * Power256(4))));
    BigEndianInjective(n, m, 8);
  }

  lemma SplitEqual(a: Bytes, x: Bytes, b: Bytes, y: Bytes)
    requires |a| == |b| && a + x == b + y
    ensures a == b && x == y
  {
    assert (a + x)[..|a|] == a && (b + y)[..|b|] == b;
    assert (a + x)[|a|..] == x && (b + y)[|b|..] == y;
  }

  /** A raw count at the front of a message can be read back. */
  lemma U64Prefix(n: nat, x: Bytes, m: nat, y: Bytes)
    requires n < TWO64 && m < TWO64 && U64(n) + x == U64(m) + y
    ensures n == m && x == y
  {
    SplitEqual(U64(n), x, U64(m), y);
    U64Injective(n, m);
  }

  /** A length-prefixed value. */
  function Frame(value: Bytes): Bytes
    requires |value| < TWO64
  {
    U64(|value|) + value
  }

  /** A frame at the front of a message can be read back, whatever follows. */
  lemma FramePrefix(a: Bytes, x: Bytes, b: Bytes, y: Bytes)
    requires |a| < TWO64 && |b| < TWO64 && Frame(a) + x == Frame(b) + y
    ensures a == b && x == y
  {
    assert Frame(a) + x == U64(|a|) + (a + x);
    assert Frame(b) + y == U64(|b|) + (b + y);
    U64Prefix(|a|, a + x, |b|, b + y);
    SplitEqual(a, x, b, y);
  }

  ghost predicate Framable(values: seq<Bytes>) {
    forall i :: 0 <= i < |values| ==> |values[i]| < TWO64
  }

  function Frames(values: seq<Bytes>): Bytes
    requires Framable(values)
  {
    if values == [] then [] else Frame(values[0]) + Frames(values[1..])
  }

  /** A list of frames determines its values, even when one message has more of them than the other. */
  lemma {:induction false} FramesInjective(a: seq<Bytes>, b: seq<Bytes>)
    requires Framable(a) && Framable(b) && Frames(a) == Frames(b)
    ensures a == b
    decreases |a|
  {
    if a != [] && b != [] {
      FramePrefix(a[0], Frames(a[1..]), b[0], Frames(b[1..]));
      FramesInjective(a[1..], b[1..]);
    }
  }
}
