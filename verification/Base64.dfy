/** Base64 with the standard and the URL-safe alphabet (sections 4 and 5 of RFC 4648). */
module Base64 {
  import opened Bytes

  type sextet = x: int | 0 <= x < 64

  datatype Alphabet = Standard | UrlSafe

  function Digit(a: Alphabet, x: sextet): char {
    if x < 26 then ('A' as int + x) as char
    else if x < 52 then ('a' as int + x - 26) as char
    else if x < 62 then ('0' as int + x - 52) as char
    else if x == 62 then (if a.Standard? then '+' else '-')
    else (if a.Standard? then '/' else '_')
  }

  function DigitValue(a: Alphabet, c: char): Option<sextet> {
    if 'A' <= c <= 'Z' then Some(c as int - 'A' as int)
    else if 'a' <= c <= 'z' then Some(c as int - 'a' as int + 26)
    else if '0' <= c <= '9' then Some(c as int - '0' as int + 52)
    else if c == (if a.Standard? then '+' else '-') then Some(62)
    else if c == (if a.Standard? then '/' else '_') then Some(63)
    else None
  }

  // Digits of a three-byte group, and back.

  function Digit0(x: int): int { x / 4 }
  function Digit1(x: int, y: int): int { x % 4 * 16 + y / 16 }
  function Digit2(y: int, z: int): int { y % 16 * 4 + z / 64 }
  function Digit3(z: int): int { z % 64 }

  function Byte0(i: int, j: int): int { i * 4 + j / 16 }
  function Byte1(j: int, k: int): int { j % 16 * 16 + k / 4 }
  function Byte2(k: int, l: int): int { k % 4 * 64 + l }

  /** Regroups bytes into six-bit digits; a final group of one or two bytes is zero-filled. */
  function Regroup(bs: seq<byte>): seq<sextet> {
    if |bs| == 0 then []
    else if |bs| == 1 then [Digit0(bs[0]), Digit1(bs[0], 0)]
    else if |bs| == 2 then [Digit0(bs[0]), Digit1(bs[0], bs[1]), Digit2(bs[1], 0)]
    else [Digit0(bs[0]), Digit1(bs[0], bs[1]), Digit2(bs[1], bs[2]), Digit3(bs[2])] + Regroup(bs[3..])
  }

  /** The bytes behind a digit string; None for an impossible length or non-zero fill bits. */
  function Ungroup(ds: seq<sextet>): Option<seq<byte>> {
    if |ds| == 0 then Some([])
    else if |ds| == 1 then None
    else if |ds| == 2 then
      if ds[1] % 16 == 0 then Some([Byte0(ds[0], ds[1])]) else None
    else if |ds| == 3 then
      if ds[2] % 4 == 0 then Some([Byte0(ds[0], ds[1]), Byte1(ds[1], ds[2])]) else None
    else
      match Ungroup(ds[4..])
      case None => None
      case Some(rest) => Some([Byte0(ds[0], ds[1]), Byte1(ds[1], ds[2]), Byte2(ds[2], ds[3])] + rest)
  }

  lemma BytesOfDigits(x: byte, y: byte, z: byte)
    ensures Byte0(Digit0(x), Digit1(x, y)) == x
    ensures Byte1(Digit1(x, y), Digit2(y, z)) == y
    ensures Byte2(Digit2(y, z), Digit3(z)) == z
  {
  }

  lemma DigitsOfBytes(i: sextet, j: sextet, k: sextet, l: sextet)
    ensures Digit0(Byte0(i, j)) == i
    ensures Digit1(Byte0(i, j), Byte1(j, k)) == j
    ensures Digit2(Byte1(j, k), Byte2(k, l)) == k
    ensures Digit3(Byte2(k, l)) == l
  {
  }

  lemma DigitsOfOne(x: byte) returns (i: sextet, j: sextet)
    ensures Regroup([x]) == [i, j] && j % 16 == 0 && Byte0(i, j) == x
  {
    i, j := Digit0(x), Digit1(x, 0);
  }

  lemma DigitsOfTwo(x: byte, y: byte) returns (i: sextet, j: sextet, k: sextet)
    ensures Regroup([x, y]) == [i, j, k] && k % 4 == 0 && Byte0(i, j) == x && Byte1(j, k) == y
  {
    i, j, k := Digit0(x), Digit1(x, y), Digit2(y, 0);
  }

  lemma {:induction false} UngroupInvertsRegroup(bs: seq<byte>)
    ensures Ungroup(Regroup(bs)) == Some(bs)
  {
    if |bs| == 1 {
      assert bs == [bs[0]];
      var i, j := DigitsOfOne(bs[0]);
    } else if |bs| == 2 {
      assert bs == [bs[0], bs[1]];
      var i, j, k := DigitsOfTwo(bs[0], bs[1]);
    } else if |bs| >= 3 {
      BytesOfDigits(bs[0], bs[1], bs[2]);
      UngroupInvertsRegroup(bs[3..]);
      assert Regroup(bs)[4..] == Regroup(bs[3..]);
      assert bs == [bs[0], bs[1], bs[2]] + bs[3..];
    }
  }

  lemma BytesOfTwo(i: sextet, j: sextet) returns (x: byte)
    requires j % 16 == 0
    ensures Ungroup([i, j]) == Some([x]) && Digit0(x) == i && Digit1(x, 0) == j
  {
    x := Byte0(i, j);
  }

  lemma BytesOfThree(i: sextet, j: sextet, k: sextet) returns (x: byte, y: byte)
    requires k % 4 == 0
    ensures Ungroup([i, j, k]) == Some([x, y]) && Digit0(x) == i && Digit1(x, y) == j && Digit2(y, 0) == k
  {
    x, y := Byte0(i, j), Byte1(j, k);
  }

  lemma {:induction false} RegroupInvertsUngroup(ds: seq<sextet>)
    requires Ungroup(ds).Some?
    ensures Regroup(Ungroup(ds).value) == ds
  {
    if |ds| == 2 {
      assert ds == [ds[0], ds[1]];
      var x := BytesOfTwo(ds[0], ds[1]);
    } else if |ds| == 3 {
      assert ds == [ds[0], ds[1], ds[2]];
      var x, y := BytesOfThree(ds[0], ds[1], ds[2]);
    } else if |ds| >= 4 {
      DigitsOfBytes(ds[0], ds[1], ds[2], ds[3]);
      RegroupInvertsUngroup(ds[4..]);
      var r := Ungroup(ds).value;
      assert r[3..] == Ungroup(ds[4..]).value;
      assert ds == [ds[0], ds[1], ds[2], ds[3]] + ds[4..];
    }
  }

  /** Every third byte costs one digit more. */
  lemma {:induction false} RegroupLength(bs: seq<byte>)
    ensures |Regroup(bs)| == (4 * |bs| + 2) / 3
  {
    if |bs| >= 3 {
      RegroupLength(bs[3..]);
    }
  }

  function Spell(a: Alphabet, ds: seq<sextet>): (r: string)
    ensures |r| == |ds|
    ensures forall i :: 0 <= i < |r| ==> r[i] == Digit(a, ds[i])
  {
    if ds == [] then [] else [Digit(a, ds[0])] + Spell(a, ds[1..])
  }

  function Read(a: Alphabet, s: string): Option<seq<sextet>> {
    if s == [] then Some([])
    else
      match (DigitValue(a, s[0]), Read(a, s[1..]))
      case (Some(d), Some(rest)) => Some([d] + rest)
      case _ => None
  }

  lemma {:induction false} ReadInvertsSpell(a: Alphabet, ds: seq<sextet>)
    ensures Read(a, Spell(a, ds)) == Some(ds)
  {
    if ds != [] {
      DigitIsPlain(a, ds[0]);
      ReadInvertsSpell(a, ds[1..]);
      assert Spell(a, ds)[1..] == Spell(a, ds[1..]);
      assert ds == [ds[0]] + ds[1..];
    }
  }

  lemma {:induction false} SpellInvertsRead(a: Alphabet, s: string)
    requires Read(a, s).Some?
    ensures Spell(a, Read(a, s).value) == s
  {
    if s != [] {
      SpellInvertsRead(a, s[1..]);
      assert Digit(a, DigitValue(a, s[0]).value) == s[0];
      var ds := Read(a, s).value;
      assert ds[1..] == Read(a, s[1..]).value;
    }
  }

  /** base64.urlsafe_b64encode(bs).rstrip(b"=") */
  function EncodeUrl(bs: seq<byte>): string {
    Spell(UrlSafe, Regroup(bs))
  }

  function DecodeUrl(s: string): Option<seq<byte>> {
    match Read(UrlSafe, s)
    case None => None
    case Some(ds) => Ungroup(ds)
  }

  /** The unpadded URL-safe decoder accepts a text exactly when it is the encoding of what it returns. */
  lemma UrlRoundTrip(bs: seq<byte>, s: string)
    ensures DecodeUrl(s) == Some(bs) <==> s == EncodeUrl(bs)
  {
    UngroupInvertsRegroup(bs);
    ReadInvertsSpell(UrlSafe, Regroup(bs));
    if DecodeUrl(s).Some? {
      SpellInvertsRead(UrlSafe, s);
      RegroupInvertsUngroup(Read(UrlSafe, s).value);
    }
  }

  function Padding(digits: nat): string {
    if digits % 4 == 2 then "==" else if digits % 4 == 3 then "=" else ""
  }

  /** The engine `STANDARD`: standard alphabet, padded to a multiple of four. */
  function Encode(bs: seq<byte>): string {
    Spell(Standard, Regroup(bs)) + Padding(|Regroup(bs)|)
  }

  function Unpadded(s: string): string {
    if |s| >= 2 && s[|s| - 2..] == "==" then s[..|s| - 2]
    else if |s| >= 1 && s[|s| - 1] == '=' then s[..|s| - 1]
    else s
  }

  /** Strict decoder: the padding must be exactly what the number of digits calls for. */
  function Decode(s: string): Option<seq<byte>> {
    var body := Unpadded(s);
    if s != body + Padding(|body|) then None
    else
      match Read(Standard, body)
      case None => None
      case Some(ds) => Ungroup(ds)
  }

  lemma DigitIsPlain(a: Alphabet, x: sextet)
    ensures Digit(a, x) != '=' && Digit(a, x) != '"' && Digit(a, x) != '\\' && ' ' < Digit(a, x) < '\U{7F}'
    ensures DigitValue(a, Digit(a, x)) == Some(x)
  {
  }

  lemma UnpaddedBody(body: string)
    requires body != [] ==> body[|body| - 1] != '='
    ensures Unpadded(body + Padding(|body|)) == body
  {
    var s := body + Padding(|body|);
    if |body| % 4 == 2 {
      assert s[|s| - 2..] == "==" && s[..|s| - 2] == body;
    } else if |body| % 4 == 3 {
      assert s[|s| - 2..][0] == body[|body| - 1] && s[..|s| - 1] == body;
    } else if |body| >= 2 {
      assert s[|s| - 2..][1] == body[|body| - 1];
    }
  }

  lemma UnpaddedSpell(ds: seq<sextet>)
    ensures Unpadded(Spell(Standard, ds) + Padding(|ds|)) == Spell(Standard, ds)
  {
    if |ds| > 0 {
      DigitIsPlain(Standard, ds[|ds| - 1]);
    }
    UnpaddedBody(Spell(Standard, ds));
  }

  /** The strict decoder accepts a text exactly when it is the encoding of what it returns. */
  lemma RoundTrip(bs: seq<byte>, s: string)
    ensures Decode(s) == Some(bs) <==> s == Encode(bs)
  {
    UngroupInvertsRegroup(bs);
    ReadInvertsSpell(Standard, Regroup(bs));
    UnpaddedSpell(Regroup(bs));
    if Decode(s).Some? {
      SpellInvertsRead(Standard, Unpadded(s));
      RegroupInvertsUngroup(Read(Standard, Unpadded(s)).value);
    }
  }
}
