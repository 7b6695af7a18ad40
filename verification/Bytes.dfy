/** Octets, options and the big-endian fixed-width integer encoding
    (I2OSP and OS2IP, sections 4.1 and 4.2 of RFC 8017). */
module Bytes {
  import opened NumberTheory

  type byte = x: int | 0 <= x < 256

  function Min(a: int, b: int): int {
    if a < b then a else b
  }

  datatype Option<+T> = None | Some(value: T)

  /** The last `size` base-256 digits of value, most significant first. */
  function BigEndian(value: nat, size: nat): (r: seq<byte>)
    ensures |r| == size
    decreases size
  {
    if size == 0 then [] else BigEndian(value / 256, size - 1) + [value % 256]
  }

  /** int.from_bytes(bs, "big") */
  function FromBigEndian(bs: seq<byte>): nat {
    if bs == [] then 0
    else FromBigEndian(bs[..|bs| - 1]) * 256 + bs[|bs| - 1]
  }

  /** value.to_bytes(size, "big"); None is the OverflowError for a value that needs more room. */
  function Width(value: nat, size: nat): Option<seq<byte>> {
    if value < Pow(256, size) then Some(BigEndian(value, size)) else None
  }

  lemma {:induction false} FromBigEndianBound(bs: seq<byte>)
    ensures FromBigEndian(bs) < Pow(256, |bs|)
  {
    if bs != [] {
      FromBigEndianBound(bs[..|bs| - 1]);
    }
  }

  lemma {:induction false} BigEndianInverse(value: nat, size: nat)
    requires value < Pow(256, size)
    ensures FromBigEndian(BigEndian(value, size)) == value
    decreases size
  {
    if size > 0 {
      assert value / 256 < Pow(256, size - 1);
      BigEndianInverse(value / 256, size - 1);
      var r := BigEndian(value, size);
      assert r[..size - 1] == BigEndian(value / 256, size - 1);
    }
  }

  lemma {:induction false} FromBigEndianInverse(bs: seq<byte>)
    ensures BigEndian(FromBigEndian(bs), |bs|) == bs
  {
    if bs != [] {
      var init, last := bs[..|bs| - 1], bs[|bs| - 1];
      FromBigEndianInverse(init);
      var v := FromBigEndian(bs);
      assert v / 256 == FromBigEndian(init) && v % 256 == last;
      assert bs == init + [last];
    }
  }

  /** Byte i of the encoding is the digit of weight 256^(size - 1 - i). */
  lemma {:induction false} BigEndianAt(value: nat, size: nat, i: nat)
    requires i < size
    ensures 0 < Pow(256, size - 1 - i)
    ensures BigEndian(value, size)[i] == value / Pow(256, size - 1 - i) % 256
    decreases size
  {
    if i < size - 1 {
      BigEndianAt(value / 256, size - 1, i);
      PowPositive(256, size - 2 - i);
      DivideTwice(value, 256, Pow(256, size - 2 - i));
    }
  }

  lemma DivideTwice(x: nat, a: nat, b: nat)
    requires 1 <= a && 1 <= b
    ensures 1 <= a * b && x / a / b == x / (a * b)
  {
    ProductForm(x, a, b, x / a, x % a, x / a / b, x / a % b);
    QuotientUnique(x, a * b, x / a / b, a * (x / a % b) + x % a);
  }

  lemma ProductForm(x: int, a: int, b: int, y: int, s: int, q: int, r: int)
    requires 1 <= a && 1 <= b && x == a * y + s && y == b * q + r && 0 <= s < a && 0 <= r < b
    ensures x == q * (a * b) + (a * r + s) && 0 <= a * r + s < a * b
  {
    SumOfProducts(a, b, q, r);
    ProductBelow(a, b, r);
  }

  lemma SumOfProducts(a: int, b: int, q: int, r: int)
    ensures a * (b * q + r) == q * (a * b) + a * r
  {
    assert a * (b * q) == q * (a * b);
  }

  lemma ProductBelow(a: int, b: int, r: int)
    requires 1 <= a && 0 <= r < b
    ensures 0 <= a * r <= a * b - a
  {
    var d := b - 1 - r;
    assert a * (r + d + 1) == a * r + a * d + a;
    assert 0 <= a * d;
  }

  lemma QuotientUnique(x: int, n: int, q: int, r: int)
    requires 0 < n && x == q * n + r && 0 <= r < n
    ensures x / n == q && x % n == r
  {
    var d := x / n - q;
    assert d * n == r - x % n;
    DividesIntro(d, n, r - x % n);
    DividesBound(n, r - x % n);
    assert d * n == 0;
  }

  /** So the value of a byte string has exactly its bytes as digits, the first one weighing most. */
  lemma FromBigEndianAt(bs: seq<byte>, i: nat)
    requires i < |bs|
    ensures 0 < Pow(256, |bs| - 1 - i)
    ensures FromBigEndian(bs) / Pow(256, |bs| - 1 - i) % 256 == bs[i]
    ensures FromBigEndian(bs) < Pow(256, |bs|)
  {
    FromBigEndianBound(bs);
    FromBigEndianInverse(bs);
    BigEndianAt(FromBigEndian(bs), |bs|, i);
  }

  /** Fixed-width encoding is a bijection between the byte strings of one length and the
      values below 256^size: it fails on exactly the larger values, decoding undoes it, and
      every string of that length is the encoding of its own value. */
  lemma WidthBijective(value: nat, size: nat, bs: seq<byte>)
    ensures Width(value, size).Some? <==> value < Pow(256, size)
    ensures Width(value, size).Some? ==>
              |Width(value, size).value| == size && FromBigEndian(Width(value, size).value) == value
    ensures Width(FromBigEndian(bs), |bs|) == Some(bs)
  {
    if value < Pow(256, size) {
      BigEndianInverse(value, size);
    }
    FromBigEndianBound(bs);
    FromBigEndianInverse(bs);
  }

  /** int.bit_length() */
  function BitLength(n: nat): nat {
    if n == 0 then 0 else 1 + BitLength(n / 2)
  }

  lemma {:induction false} BitLengthBounds(n: nat)
    ensures n < Pow(2, BitLength(n))
    ensures n > 0 ==> Pow(2, BitLength(n) - 1) <= n
  {
    if n > 0 {
      BitLengthBounds(n / 2);
    }
  }

  /** (n.bit_length() + 7) // 8 */
  function ByteLength(n: nat): nat {
    (BitLength(n) + 7) / 8
  }

  lemma {:induction false} PowMonotone(b: int, e: nat, f: nat)
    requires 1 <= b && e <= f
    ensures Pow(b, e) <= Pow(b, f)
    decreases f
  {
    if e < f {
      PowMonotone(b, e, f - 1);
      PowPositive(b, f - 1);
      assert (b - 1) * Pow(b, f - 1) >= 0;
    }
  }

  /** The byte length is the smallest width that holds the number. */
  lemma ByteLengthIsLeastWidth(n: nat, size: nat)
    ensures Width(n, size).Some? <==> ByteLength(n) <= size
  {
    PowOfPow(2, 8, size);
    assert Pow(2, 8) == 256;
    BitLengthBounds(n);
    if ByteLength(n) <= size {
      PowMonotone(2, BitLength(n), 8 * size);
    } else {
      PowMonotone(2, 8 * size, BitLength(n) - 1);
    }
  }
}
