/** The hand-built JSON result of a group-message decryption, its buffers, and the way back. */
module MegolmJson {
  import opened Bytes
  import opened Decimal
  import Base64

  // ---------------------------------------------------------------- buffers

  /** A growable text buffer. `copies` counts the times it had to move to a larger allocation,
      leaving its old contents behind unerased. */
  class TextBuffer {
    var text: string
    var capacity: nat
    var copies: nat

    constructor (capacity: nat)
      ensures text == [] && this.capacity == capacity && copies == 0
    {
      text, this.capacity, copies := [], capacity, 0;
    }

    method Push(s: string)
      modifies this
      ensures text == old(text) + s
      ensures |text| <= capacity || s == []
      ensures |text| <= old(capacity) ==> capacity == old(capacity) && copies == old(copies)
      ensures |text| > old(capacity) ==> copies == old(copies) + 1
    {
      if |text| + |s| > capacity {
        capacity := |text| + |s|;
        copies := copies + 1;
      }
      text := text + s;
    }
  }

  const OPENING := "{\"plaintext\":\""
  const MIDDLE := "\",\"messageIndex\":"
  const CLOSING := "}"
  const RESERVED := 32

  function Render(plaintext: seq<byte>, index: u32): string {
    OPENING + Base64.Encode(plaintext) + MIDDLE + Print(index) + CLOSING
  }

  /** Assembles the result in a buffer of the reserved capacity. It ends up exactly full and is never
      moved, so no unerased copy of the plaintext is left behind. */
  method BuildJson(plaintext: seq<byte>, messageIndex: u32) returns (json: string, copies: nat)
    ensures json == Render(plaintext, messageIndex) && copies == 0
    ensures |json| == |Base64.Encode(plaintext)| + |Print(messageIndex)| + RESERVED
  {
    var encoded := Base64.Encode(plaintext);
    var index := Print(messageIndex);
    json, copies := PushAll(|encoded| + |index| + RESERVED, OPENING, encoded, MIDDLE, index, CLOSING);
  }

  /** The successive pushes; the buffer is moved only if the reservation is too small. */
  method PushAll(capacity: nat, opening: string, encoded: string, middle: string, index: string, closing: string)
    returns (text: string, copies: nat)
    ensures text == opening + encoded + middle + index + closing
    ensures |text| <= capacity ==> copies == 0
  {
    var buffer := new TextBuffer(capacity);
    buffer.Push(opening);
    buffer.Push(encoded);
    buffer.Push(middle);
    buffer.Push(index);
    buffer.Push(closing);
    return buffer.text, buffer.copies;
  }

  /** to_c_string: None is the null pointer for a text with an inner NUL. Room for the terminator is
      reserved from the start, so this buffer is not moved either. */
  method ToCString(value: string) returns (r: Option<string>, copies: nat)
    ensures r.None? <==> '\0' in value
    ensures r.Some? ==> r.value == value + ['\0']
    ensures copies == 0
  {
    if '\0' in value {
      return None, 0;
    }
    var bytes := new TextBuffer(|value| + 1);
    bytes.Push(value);
    bytes.Push(['\0']);
    return Some(bytes.text), bytes.copies;
  }

  predicate IsPlain(c: char) {
    ' ' < c < '\U{7F}' && c != '"' && c != '\\'
  }

  ghost predicate AllPlain(s: string) {
    forall i :: 0 <= i < |s| ==> IsPlain(s[i])
  }

  lemma EncodePlain(bs: seq<byte>)
    ensures AllPlain(Base64.Encode(bs))
  {
  }

  ghost predicate NoNul(s: string) {
    forall i :: 0 <= i < |s| ==> s[i] != '\0'
  }

  /** The result never contains a NUL, so handing it to C never fails. */
  lemma RenderHasNoNul(plaintext: seq<byte>, index: u32)
    ensures '\0' !in Render(plaintext, index)
  {
    EncodePlain(plaintext);
    PrintSpec(index);
  }

  // ---------------------------------------------------------------- a reader

  datatype Value = Text(s: string) | Number(n: nat)

  datatype Parsed<T> = Bad | Good(value: T, rest: string)

  /** Reads up to the closing quote; escapes are not used by this format. */
  function ParseBody(s: string): (r: Parsed<string>)
    ensures r.Good? ==> |r.rest| < |s|
  {
    if s == [] || s[0] == '\\' then Bad
    else if s[0] == '"' then Good([], s[1..])
    else
      match ParseBody(s[1..])
      case Bad => Bad
      case Good(body, rest) => Good([s[0]] + body, rest)
  }

  function ParseString(s: string): (r: Parsed<string>)
    ensures r.Good? ==> |r.rest| < |s|
  {
    if s != [] && s[0] == '"' then ParseBody(s[1..]) else Bad
  }

  function DigitRun(s: string): (n: nat)
    ensures n <= |s| && AllDigits(s[..n])
  {
    if s == [] || !IsDigit(s[0]) then 0
    else
      var k := DigitRun(s[1..]);
      assert s[..k + 1] == [s[0]] + s[1..][..k];
      1 + k
  }

  /** A JSON integer: digits without a superfluous leading zero. */
  function ParseNumber(s: string): (r: Parsed<nat>)
    ensures r.Good? ==> |r.rest| < |s|
  {
    var n := DigitRun(s);
    if n == 0 || (n > 1 && s[0] == '0') then Bad else Good(Decimal.Value(s[..n]), s[n..])
  }

  function ParseValue(s: string): (r: Parsed<Value>)
    ensures r.Good? ==> |r.rest| < |s|
  {
    if s != [] && s[0] == '"' then
      match ParseString(s)
      case Bad => Bad
      case Good(body, rest) => Good(Text(body), rest)
    else
      match ParseNumber(s)
      case Bad => Bad
      case Good(n, rest) => Good(Number(n), rest)
  }

  /** key : value */
  function ParseMember(s: string): (r: Parsed<(string, Value)>)
    ensures r.Good? ==> |r.rest| < |s|
  {
    match ParseString(s)
    case Bad => Bad
    case Good(key, rest) =>
      if rest == [] || rest[0] != ':' then Bad
      else
        match ParseValue(rest[1..])
        case Bad => Bad
        case Good(v, rest') => Good((key, v), rest')
  }

  /** Members separated by commas up to the closing brace, which must end the text. */
  function ParseMembers(s: string): Option<seq<(string, Value)>>
    decreases |s|
  {
    match ParseMember(s)
    case Bad => None
    case Good(m, rest) =>
      if rest == "}" then Some([m])
      else if rest != [] && rest[0] == ',' then
        match ParseMembers(rest[1..])
        case None => None
        case Some(ms) => Some([m] + ms)
      else None
  }

  function ParseObject(s: string): Option<seq<(string, Value)>> {
    if s != [] && s[0] == '{' then ParseMembers(s[1..]) else None
  }

  /** What the application does with the result: parse, pick the two fields, decode. */
  function ReadResult(s: string): Option<(seq<byte>, u32)> {
    match ParseObject(s)
    case None => None
    case Some(ms) =>
      if |ms| == 2 && ms[0].0 == "plaintext" && ms[0].1.Text? && ms[1].0 == "messageIndex" && ms[1].1.Number?
         && ms[1].1.n < U32_LIMIT && Base64.Decode(ms[0].1.s).Some?
      then Some((Base64.Decode(ms[0].1.s).value, ms[1].1.n))
      else None
  }

  // ---------------------------------------------------------------- round trip

  lemma {:induction false} ParseBodySpec(body: string, rest: string)
    requires AllPlain(body)
    ensures ParseBody(body + "\"" + rest) == Good(body, rest)
  {
    var s := body + "\"" + rest;
    if body == [] {
      assert s[1..] == rest;
    } else {
      ParseBodySpec(body[1..], rest);
      assert s[1..] == body[1..] + "\"" + rest;
      assert body == [body[0]] + body[1..];
    }
  }

  lemma ParseStringSpec(body: string, rest: string)
    requires AllPlain(body)
    ensures ParseString("\"" + body + "\"" + rest) == Good(body, rest)
  {
    ParseBodySpec(body, rest);
    assert ("\"" + body + "\"" + rest)[1..] == body + "\"" + rest;
  }

  lemma {:induction false} DigitRunSpec(digits: string, rest: string)
    requires AllDigits(digits) && (rest == [] || !IsDigit(rest[0]))
    ensures DigitRun(digits + rest) == |digits|
  {
    if digits == [] {
      assert digits + rest == rest;
    } else {
      DigitRunSpec(digits[1..], rest);
      assert (digits + rest)[1..] == digits[1..] + rest;
    }
  }

  lemma {:induction false} NoLeadingZero(n: nat)
    ensures |Print(n)| > 1 ==> Print(n)[0] != '0'
  {
    if n >= 10 {
      NoLeadingZero(n / 10);
      if n / 10 < 10 {
        assert Print(n / 10) == [DigitChar(n / 10)];
      }
    }
  }

  lemma ParseNumberSpec(n: nat, rest: string)
    requires rest == [] || !IsDigit(rest[0])
    ensures ParseNumber(Print(n) + rest) == Good(n, rest)
  {
    PrintSpec(n);
    NoLeadingZero(n);
    var s := Print(n) + rest;
    DigitRunSpec(Print(n), rest);
    assert s[..|Print(n)|] == Print(n) && s[|Print(n)|..] == rest;
    assert s[0] == Print(n)[0];
  }

  lemma TextMember(key: string, body: string, rest: string)
    requires AllPlain(key) && AllPlain(body)
    ensures ParseMember("\"" + key + "\"" + (":" + ("\"" + body + "\"" + rest))) == Good((key, Text(body)), rest)
  {
    var v := "\"" + body + "\"" + rest;
    ParseStringSpec(key, ":" + v);
    ParseStringSpec(body, rest);
    assert (":" + v)[1..] == v;
  }

  lemma NumberValue(n: nat, rest: string)
    requires rest == [] || !IsDigit(rest[0])
    ensures ParseValue(Print(n) + rest) == Good(Number(n), rest)
  {
    ParseNumberSpec(n, rest);
    PrintSpec(n);
    assert (Print(n) + rest)[0] == Print(n)[0];
  }

  lemma NumberMember(key: string, n: nat, rest: string)
    requires AllPlain(key) && (rest == [] || !IsDigit(rest[0]))
    ensures ParseMember("\"" + key + "\"" + (":" + (Print(n) + rest))) == Good((key, Number(n)), rest)
  {
    var v := Print(n) + rest;
    ParseStringSpec(key, ":" + v);
    NumberValue(n, rest);
    assert (":" + v)[1..] == v;
  }

  lemma LiteralShapes()
    ensures OPENING == "{" + ("\"" + "plaintext" + "\"" + ":" + "\"")
    ensures MIDDLE == "\"" + "," + ("\"" + "messageIndex" + "\"") + ":"
  {
  }

  /** The rendered text as two members inside braces. */
  lemma RenderShape(encoded: string, index: string)
    ensures
      var second := "\"" + "messageIndex" + "\"" + (":" + (index + "}"));
      var first := "\"" + "plaintext" + "\"" + (":" + ("\"" + encoded + "\"" + ("," + second)));
      OPENING + encoded + MIDDLE + index + CLOSING == "{" + first
  {
    var name := "\"" + "messageIndex" + "\"";
    var second := name + (":" + (index + "}"));
    LiteralShapes();
  }

  /** The rendered text parses to exactly its two members. */
  lemma ParseRendered(plaintext: seq<byte>, index: u32)
    ensures ParseObject(Render(plaintext, index))
            == Some([("plaintext", Text(Base64.Encode(plaintext))), ("messageIndex", Number(index))])
  {
    var encoded := Base64.Encode(plaintext);
    EncodePlain(plaintext);
    var second := "\"" + "messageIndex" + "\"" + (":" + (Print(index) + "}"));
    var first := "\"" + "plaintext" + "\"" + (":" + ("\"" + encoded + "\"" + ("," + second)));
    TextMember("plaintext", encoded, "," + second);
    NumberMember("messageIndex", index, "}");
    RenderShape(encoded, Print(index));
    Braced(first, second, ("plaintext", Text(encoded)), ("messageIndex", Number(index)));
  }

  lemma Braced(first: string, second: string, m1: (string, Value), m2: (string, Value))
    requires ParseMember(first) == Good(m1, "," + second) && ParseMember(second) == Good(m2, "}")
    ensures ParseObject("{" + first) == Some([m1, m2])
  {
    assert ("{" + first)[1..] == first;
    assert ("," + second)[0] == ',' && ("," + second)[1..] == second;
    assert ParseMembers(second) == Some([m2]);
    assert [m1] + [m2] == [m1, m2];
  }

  /** For every plaintext and every index, reading the result gives both back. */
  lemma ResultRoundTrip(plaintext: seq<byte>, index: u32)
    ensures ReadResult(Render(plaintext, index)) == Some((plaintext, index))
  {
    ParseRendered(plaintext, index);
    Base64.RoundTrip(plaintext, Base64.Encode(plaintext));
  }

  /** sc_session_encrypt publishes base64 bodies that sc_session_decrypt decodes; secret_to_c_string
      likewise yields a text that always reaches C and decodes to the secret. */
  lemma SecretSurvives(secret: seq<byte>)
    ensures '\0' !in Base64.Encode(secret) && Base64.Decode(Base64.Encode(secret)) == Some(secret)
  {
    EncodePlain(secret);
    Base64.RoundTrip(secret, Base64.Encode(secret));
  }
}
