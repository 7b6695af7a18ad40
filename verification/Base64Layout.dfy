/** The two base64 encodings character by character, against the tables of RFC 4648. */
module Base64Layout {
  import opened Bytes
  import opened Base64

  /** The alphabets, as tabulated in RFC 4648. */
  function Table(a: Alphabet): (t: string)
    ensures |t| == 64
  {
    "ABCDEFGHIJKLMNOPQRSTUVWXYZ" + "abcdefghijklmnopqrstuvwxyz" + "0123456789" + (if a.Standard? then "+/" else "-_")
  }

  /** Byte n of a string, zero behind the end. */
  function ByteAt(bs: seq<byte>, n: nat): byte {
    if n < |bs| then bs[n] else 0
  }

  /** The g-th group of three bytes as one number of 24 bits. */
  function Group24(bs: seq<byte>, g: nat): nat {
    65536 * ByteAt(bs, 3 * g) + 256 * ByteAt(bs, 3 * g + 1) + ByteAt(bs, 3 * g + 2)
  }

  /** The j-th six bits of a number of 24 bits. */
  function SixBits(v: nat, j: nat): (d: nat)
    requires j < 4
    ensures d < 64
  {
    match j
    case 0 => v / 262144 % 64
    case 1 => v / 4096 % 64
    case 2 => v / 64 % 64
    case _ => v % 64
  }

  lemma UpperCase(x: nat)
    requires x < 26
    ensures "ABCDEFGHIJKLMNOPQRSTUVWXYZ"[x] as int == 'A' as int + x
  {
  }

  lemma LowerCase(x: nat)
    requires x < 26
    ensures "abcdefghijklmnopqrstuvwxyz"[x] as int == 'a' as int + x
  {
  }

  lemma Numerals(x: nat)
    requires x < 10
    ensures "0123456789"[x] as int == '0' as int + x
  {
  }

  lemma DigitFromTable(a: Alphabet, x: sextet)
    ensures Digit(a, x) == Table(a)[x]
  {
    if x < 26 {
      UpperCase(x);
    } else if x < 52 {
      LowerCase(x - 26);
    } else if x < 62 {
      Numerals(x - 52);
    }
  }

  lemma FirstSix(x: byte, y: byte, z: byte, v: nat)
    requires v == 65536 * x + 256 * y + z
    ensures SixBits(v, 0) == Digit0(x)
  {
    QuotientUnique(v, 262144, x / 4, 65536 * (x % 4) + 256 * y + z);
  }

  lemma SecondSix(x: byte, y: byte, z: byte, v: nat)
    requires v == 65536 * x + 256 * y + z
    ensures SixBits(v, 1) == Digit1(x, y)
  {
    QuotientUnique(v, 4096, 16 * x + y / 16, 256 * (y % 16) + z);
    QuotientUnique(16 * x + y / 16, 64, x / 4, x % 4 * 16 + y / 16);
  }

  lemma ThirdSix(x: byte, y: byte, z: byte, v: nat)
    requires v == 65536 * x + 256 * y + z
    ensures SixBits(v, 2) == Digit2(y, z)
  {
    QuotientUnique(v, 64, 1024 * x + 4 * y + z / 64, z % 64);
    QuotientUnique(1024 * x + 4 * y + z / 64, 64, 16 * x + y / 16, y % 16 * 4 + z / 64);
  }

  lemma FourthSix(x: byte, y: byte, z: byte, v: nat)
    requires v == 65536 * x + 256 * y + z
    ensures SixBits(v, 3) == Digit3(z)
  {
    QuotientUnique(v, 64, 1024 * x + 4 * y + z / 64, z % 64);
  }

  lemma FirstGroup(bs: seq<byte>, j: nat)
    requires j < |Regroup(bs)| && j < 4
    ensures Regroup(bs)[j] == SixBits(Group24(bs, 0), j)
  {
    var x, y, z := ByteAt(bs, 0), ByteAt(bs, 1), ByteAt(bs, 2);
    FirstSix(x, y, z, Group24(bs, 0));
    SecondSix(x, y, z, Group24(bs, 0));
    ThirdSix(x, y, z, Group24(bs, 0));
    FourthSix(x, y, z, Group24(bs, 0));
  }

  lemma GroupShift(bs: seq<byte>, g: nat)
    requires 3 <= |bs|
    ensures Group24(bs[3..], g) == Group24(bs, g + 1)
  {
  }

  /** Digit j of group g is made of the j-th six bits of the group. */
  lemma {:induction false} RegroupAt(bs: seq<byte>, g: nat, j: nat)
    requires j < 4 && 4 * g + j < |Regroup(bs)|
    ensures Regroup(bs)[4 * g + j] == SixBits(Group24(bs, g), j)
    decreases g
  {
    if g == 0 {
      FirstGroup(bs, j);
    } else {
      RegroupAt(bs[3..], g - 1, j);
      GroupShift(bs, g - 1);
    }
  }

  /** Character 4g + j of an encoding is the table entry for the j-th six bits of the g-th group of three
      bytes, the last group filled up with zeros; there are just enough characters to hold all bits, and
      the standard encoding is filled up to a multiple of four with '='. */
  lemma EncodingAt(bs: seq<byte>, g: nat, j: nat)
    requires j < 4
    ensures |EncodeUrl(bs)| == (8 * |bs| + 5) / 6 && |Encode(bs)| == (|bs| + 2) / 3 * 4
    ensures
      var i, digit := 4 * g + j, SixBits(Group24(bs, g), j);
      && (i < |EncodeUrl(bs)| ==> EncodeUrl(bs)[i] == Table(UrlSafe)[digit] && Encode(bs)[i] == Table(Standard)[digit])
      && (|EncodeUrl(bs)| <= i < |Encode(bs)| ==> Encode(bs)[i] == '=')
  {
    EncodingLength(bs);
    if 4 * g + j < |Regroup(bs)| {
      RegroupAt(bs, g, j);
      DigitFromTable(UrlSafe, Regroup(bs)[4 * g + j]);
      DigitFromTable(Standard, Regroup(bs)[4 * g + j]);
    }
  }

  lemma EncodingLength(bs: seq<byte>)
    ensures |EncodeUrl(bs)| == |Regroup(bs)| == (8 * |bs| + 5) / 6
    ensures |Encode(bs)| == (|bs| + 2) / 3 * 4
    ensures forall i :: |Regroup(bs)| <= i < |Encode(bs)| ==> Encode(bs)[i] == '='
  {
    RegroupLength(bs);
    PaddedLength(|bs|, |bs| / 3, |bs| % 3);
  }

  lemma PaddedLength(n: nat, q: nat, r: nat)
    requires n == 3 * q + r && r < 3
    ensures (4 * n + 2) / 3 == (8 * n + 5) / 6 == 4 * q + (if r == 0 then 0 else r + 1)
    ensures (4 * n + 2) / 3 + |Padding((4 * n + 2) / 3)| == (n + 2) / 3 * 4
  {
    var d := 4 * q + if r == 0 then 0 else r + 1;
    assert d % 4 == if r == 0 then 0 else r + 1;
  }
}
