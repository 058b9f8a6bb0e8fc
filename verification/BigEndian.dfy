/**
 Fixed-width big-endian numbers (libdevcore/CommonData.h:87-108; htonl and ntohl in the channel messages).
 */
module BigEndian {

  type byte = x: int | 0 <= x < 256

  function Pow(k: nat): (p: nat)
    ensures p > 0
  {
    if k == 0 then 1 else 256 * Pow(k - 1)
  }

  /** The last `k` bytes of a number, highest first; what does not fit is cut off. */
  function ToBytes(v: nat, k: nat): (s: seq<byte>)
    ensures |s| == k
  {
    if k == 0 then [] else ToBytes(v / 256, k - 1) + [v % 256]
  }

  function FromBytes(s: seq<byte>): nat {
    if s == [] then 0 else 256 * FromBytes(s[..|s| - 1]) + s[|s| - 1]
  }

  lemma {:induction false} ReadBack(v: nat, k: nat)
    ensures FromBytes(ToBytes(v, k)) == v % Pow(k)
  {
    if k > 0 {
      ReadBack(v / 256, k - 1);
      var s := ToBytes(v, k);
      assert s[..k - 1] == ToBytes(v / 256, k - 1);
      ModStep(v, Pow(k - 1));
    }
  }

  lemma DivStep(v: nat, p: nat)
    requires p > 0
    ensures 256 * p > 0 && v / 256 / p == v / (256 * p)
  {
    var q, r := v / 256 / p, v / 256 % p;
    assert v == 256 * (q * p + r) + v % 256;
    assert v == q * (256 * p) + (256 * r + v % 256);
    QuotientUnique(v, 256 * p, q, 256 * r + v % 256);
  }

  lemma QuotientUnique(v: nat, m: nat, q: nat, r: nat)
    requires 0 < m && r < m && v == q * m + r
    ensures v / m == q
  {
    ModUnique(v, m, q, r);
    Distributes(v / m, q, m);
    Distributes(q, v / m, m);
    if v / m > q { AtLeast(v / m - q, m); } else if v / m < q { AtLeast(q - v / m, m); }
  }

  /** Byte `i` of `k` counts 256^(k-1-i)s: the first is the most significant. */
  lemma {:induction false} Digits(v: nat, k: nat, i: nat)
    requires i < k
    ensures ToBytes(v, k)[i] == v / Pow(k - 1 - i) % 256
  {
    if i < k - 1 {
      Digits(v / 256, k - 1, i);
      DivStep(v, Pow(k - 2 - i));
    }
  }

  /** The first byte read weighs most. */
  lemma {:induction false} FirstWeighs(b: byte, s: seq<byte>)
    ensures FromBytes([b] + s) == b * Pow(|s|) + FromBytes(s)
  {
    if s == [] {
      assert [b] + s == [b] && [b][..0] == [];
    } else {
      var n := |s| - 1;
      assert ([b] + s)[..n + 1] == [b] + s[..n];
      FirstWeighs(b, s[..n]);
      assert 256 * (b * Pow(n)) == b * (256 * Pow(n));
    }
  }

  /** A number that fits comes back whole. */
  lemma Exact(v: nat, k: nat)
    requires v < Pow(k)
    ensures FromBytes(ToBytes(v, k)) == v
  {
    ReadBack(v, k);
  }

  lemma ModStep(v: nat, p: nat)
    requires p > 0
    ensures 256 * p > 0 && 256 * (v / 256 % p) + v % 256 == v % (256 * p)
  {
    var q, r := v / 256 / p, v / 256 % p;
    assert v == 256 * (q * p + r) + v % 256;
    assert v == q * (256 * p) + (256 * r + v % 256);
    ModUnique(v, 256 * p, q, 256 * r + v % 256);
  }

  lemma ModUnique(v: nat, m: nat, q: nat, r: nat)
    requires 0 < m && r < m && v == q * m + r
    ensures v % m == r
  {
    var d, r' := v / m - q, v % m;
    Distributes(v / m, q, m);
    assert d * m == r - r';
    if d > 0 { AtLeast(d, m); } else if d < 0 { AtLeast(-d, m); }
  }

  lemma Distributes(x: int, y: int, m: int)
    ensures (x - y) * m == x * m - y * m
  {
  }

  lemma AtLeast(d: int, m: int)
    requires d >= 1 && m > 0
    ensures d * m >= m && -d * m == -(d * m)
  {
  }

  lemma Assoc(x: seq<byte>, y: seq<byte>, z: seq<byte>)
    ensures (x + y) + z == x + (y + z)
  {
  }

  /** The middle of three pieces. */
  lemma Slice(pre: seq<byte>, mid: seq<byte>, post: seq<byte>)
    ensures (pre + mid + post)[|pre|..|pre| + |mid|] == mid
  {
  }

  lemma {:induction false} WriteBack(s: seq<byte>)
    ensures FromBytes(s) < Pow(|s|) && ToBytes(FromBytes(s), |s|) == s
  {
    if s != [] { WriteBack(s[..|s| - 1]); }
  }

  lemma {:induction false} PowSplit(j: nat, k: nat)
    ensures Pow(j + k) == Pow(j) * Pow(k)
  {
    if j > 0 { PowSplit(j - 1, k); }
  }

  lemma PowValues()
    ensures Pow(2) == 0x1_0000 && Pow(4) == 0x1_0000_0000
    ensures Pow(20) == 0x1_0000000000_0000000000_0000000000_0000000000
    ensures Pow(32) == 0x1_0000000000000000_0000000000000000_0000000000000000_0000000000000000
  {
    assert Pow(4) == 0x1_0000_0000;
    assert Pow(8) == Pow(4) * Pow(4) by { PowSplit(4, 4); }
    assert Pow(16) == Pow(8) * Pow(8) by { PowSplit(8, 8); }
    assert Pow(20) == Pow(16) * Pow(4) by { PowSplit(16, 4); }
    assert Pow(32) == Pow(16) * Pow(16) by { PowSplit(16, 16); }
  }
}
