/** Fixed-width big-endian byte strings, as `to_be_bytes` writes them. */
module BigEndian {

  type Byte = x: nat | x < 256

  function Pow256(width: nat): (p: nat)
    ensures p >= 1
  {
    if width == 0 then 1 else 256 * Pow256(width - 1)
  }

  function ToBytes(v: nat, width: nat): (bytes: seq<Byte>)
    ensures |bytes| == width
  {
    if width == 0 then [] else ToBytes(v / 256, width - 1) + [v % 256]
  }

  function FromBytes(bytes: seq<Byte>): (v: nat)
    ensures v < Pow256(|bytes|)
  {
    if bytes == [] then 0 else FromBytes(bytes[..|bytes| - 1]) * 256 + bytes[|bytes| - 1]
  }

  lemma {:induction false} ToFromBytes(bytes: seq<Byte>)
    ensures ToBytes(FromBytes(bytes), |bytes|) == bytes
  {
    if bytes == [] {
    } else {
      ToFromBytes(bytes[..|bytes| - 1]);
    }
  }

  lemma {:induction false} FromToBytes(v: nat, width: nat)
    requires v < Pow256(width)
    ensures FromBytes(ToBytes(v, width)) == v
  {
    if width == 0 {
    } else {
      FromToBytes(v / 256, width - 1);
      assert ToBytes(v, width)[..width - 1] == ToBytes(v / 256, width - 1);
    }
  }

  /** The last bytes of a number do not depend on how many are written in front of them. */
  lemma {:induction false} LowBytes(v: nat, width: nat, low: nat)
    requires low <= width
    ensures ToBytes(v, width)[width - low..] == ToBytes(v, low)
  {
    if low == 0 {
    } else {
      LowBytes(v / 256, width - 1, low - 1);
      assert ToBytes(v, width)[width - low..] == ToBytes(v / 256, width - 1)[width - low..] + [v % 256];
    }
  }

  /** Writing a number in fewer bytes keeps its remainder. */
  lemma {:induction false} TruncatedBytes(v: nat, width: nat)
    ensures FromBytes(ToBytes(v, width)) == v % Pow256(width)
  {
    var q := Quotient(v, width);
    UniqueRemainder(v, q, Pow256(width), FromBytes(ToBytes(v, width)));
  }

  /** Reading back one byte more. */
  lemma LastByte(v: nat, width: nat)
    requires width > 0
    ensures FromBytes(ToBytes(v, width)) == FromBytes(ToBytes(v / 256, width - 1)) * 256 + v % 256
    ensures Pow256(width) == 256 * Pow256(width - 1)
  {
    assert ToBytes(v, width)[..width - 1] == ToBytes(v / 256, width - 1);
  }

  lemma {:induction false} Quotient(v: nat, width: nat) returns (q: nat)
    ensures v == q * Pow256(width) + FromBytes(ToBytes(v, width))
  {
    if width == 0 {
      q := v;
    } else {
      q := Quotient(v / 256, width - 1);
      LastByte(v, width);
      hide Pow256, FromBytes, ToBytes;
      Shift(v, q, Pow256(width - 1), FromBytes(ToBytes(v / 256, width - 1)));
    }
  }

  lemma Shift(v: nat, q: nat, p: nat, low: nat)
    requires v / 256 == q * p + low
    ensures v == q * (256 * p) + (low * 256 + v % 256)
  {
    assert q * (256 * p) == 256 * (q * p);
  }

  lemma UniqueRemainder(v: nat, q: nat, m: nat, r: nat)
    requires v == q * m + r && r < m
    ensures v % m == r
  {
    Euclid(v, m);
    MultiplesApart(q, v / m, m, r - v % m);
  }

  lemma Euclid(v: nat, m: nat)
    requires m > 0
    ensures v == v / m * m + v % m && v % m < m
  {
  }

  lemma MultiplesApart(q: int, k: int, m: int, d: int)
    requires k * m - q * m == d && -m < d < m
    ensures q == k
  {
    if k > q {
      assert (k - q) * m == d;
      AtLeastOnce(k - q, m);
    } else if k < q {
      assert (q - k) * m == -d;
      AtLeastOnce(q - k, m);
    }
  }

  lemma AtLeastOnce(n: int, m: nat)
    requires n >= 1
    ensures n * m >= m
  {
  }
}
