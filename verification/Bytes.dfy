/** Fixed-width integers as byte strings, in the two byte orders the wire uses. */
module Bytes {
  type byte = b: int | 0 <= b < 256
  type Blob = seq<byte>

  function Pow256(k: nat): (p: nat)
    ensures p > 0
  {
    if k == 0 then 1 else 256 * Pow256(k - 1)
  }

  /** QDataStream's default order: most significant byte first. */
  function ToBE(n: nat, k: nat): (bs: Blob)
    requires n < Pow256(k)
    ensures |bs| == k
  {
    if k == 0 then [] else ToBE(n / 256, k - 1) + [n % 256]
  }

  function FromBE(bs: Blob): (n: nat)
    ensures n < Pow256(|bs|)
  {
    if bs == [] then 0 else 256 * FromBE(bs[..|bs| - 1]) + bs[|bs| - 1]
  }

  /** The order of an integer copied out of memory on the little-endian machines the program runs on. */
  function ToLE(n: nat, k: nat): (bs: Blob)
    requires n < Pow256(k)
    ensures |bs| == k
  {
    if k == 0 then [] else [n % 256] + ToLE(n / 256, k - 1)
  }

  function FromLE(bs: Blob): (n: nat)
    ensures n < Pow256(|bs|)
  {
    if bs == [] then 0 else bs[0] + 256 * FromLE(bs[1..])
  }

  lemma {:induction false} FromToBE(n: nat, k: nat)
    requires n < Pow256(k)
    ensures FromBE(ToBE(n, k)) == n
  {
    if k > 0 {
      FromToBE(n / 256, k - 1);
      assert ToBE(n, k)[..k - 1] == ToBE(n / 256, k - 1);
    }
  }

  lemma {:induction false} FromToLE(n: nat, k: nat)
    requires n < Pow256(k)
    ensures FromLE(ToLE(n, k)) == n
  {
    if k > 0 {
      FromToLE(n / 256, k - 1);
      assert ToLE(n, k)[1..] == ToLE(n / 256, k - 1);
    }
  }

  /** A little-endian number whose last byte is 0xFF lies in the upper half of its range. */
  lemma {:induction false} TopByteLE(bs: Blob)
    requires bs != [] && bs[|bs| - 1] == 255
    ensures FromLE(bs) >= 255 * Pow256(|bs| - 1)
  {
    if |bs| > 1 {
      TopByteLE(bs[1..]);
    }
  }

  lemma Quotient(n: nat, p: nat, q: nat, r: nat)
    requires 0 < p && n == p * q + r && r < p
    ensures n / p == q
  {
    var d := n / p - q;
    assert n == p * (n / p) + n % p;
    assert p * d == r - n % p;
    assert (d > 0 ==> p * d >= p) && (d < 0 ==> p * d + p <= 0);
  }

  lemma DivideTwice(n: nat, p: nat)
    requires p > 0
    ensures n / 256 / p == n / (256 * p)
  {
    var m := n / 256;
    var q, r := m / p, m % p;
    assert m == p * q + r;
    assert n == 256 * m + n % 256;
    assert n == (256 * p) * q + (256 * r + n % 256);
    Quotient(n, 256 * p, q, 256 * r + n % 256);
  }

  /** The digits themselves: byte i of a number, from the end where its order starts. */
  lemma {:induction false} DigitLE(n: nat, k: nat, i: nat)
    requires n < Pow256(k) && i < k
    ensures ToLE(n, k)[i] == n / Pow256(i) % 256
  {
    if i > 0 {
      DigitLE(n / 256, k - 1, i - 1);
      DivideTwice(n, Pow256(i - 1));
    }
  }

  lemma {:induction false} DigitBE(n: nat, k: nat, i: nat)
    requires n < Pow256(k) && i < k
    ensures ToBE(n, k)[k - 1 - i] == n / Pow256(i) % 256
  {
    if i > 0 {
      DigitBE(n / 256, k - 1, i - 1);
      DivideTwice(n, Pow256(i - 1));
    }
  }
}
