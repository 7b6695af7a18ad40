/** Phone number normalisation to E.164 form and its display format. */
module PhoneNumbers {
  import opened Bytes
  import opened Decimal

  /** Removes everything but the digits 0-9. */
  function DigitsOf(s: string): (r: string)
    ensures AllDigits(r)
  {
    if s == [] then [] else if IsDigit(s[0]) then [s[0]] + DigitsOf(s[1..]) else DigitsOf(s[1..])
  }

  predicate HasPrefix(s: string, p: string) {
    |p| <= |s| && s[..|p|] == p
  }

  /** Adds the country code to national forms. */
  function NormalizeDigits(code: string, digits: string): string {
    if |digits| == 11 && HasPrefix(digits, "0") then code + digits[1..]
    else if |digits| == 10 && HasPrefix(digits, "5") then code + digits
    else digits
  }

  /** The accepted Turkish mobile ranges: 50x, 53x, 54x, 55x and 56x. */
  predicate IsTurkishMobile(digits: string) {
    |digits| == 12 && digits[2] == '5' && digits[3] in {'0', '3', '4', '5', '6'} && IsDigit(digits[4])
  }

  predicate IsValid(digits: string) {
    && 7 <= |digits| <= 15
    && AllDigits(digits)
    && (|digits| == 12 && HasPrefix(digits, "90") ==> IsTurkishMobile(digits))
  }

  predicate IsBlank(s: string) {
    forall i :: 0 <= i < |s| ==> s[i] in {' ', '\t', '\n', '\r'}
  }

  function NormalizeToE164(code: string, input: string): Option<string> {
    if IsBlank(input) then None
    else
      var digits := DigitsOf(input);
      if digits == [] then None
      else
        var normalized := NormalizeDigits(code, digits);
        if IsValid(normalized) then Some("+" + normalized) else None
  }

  function NormalizeToUserId(code: string, input: string): Option<string> {
    match NormalizeToE164(code, input)
    case None => None
    case Some(e164) => Some(e164[1..])
  }

  function FormatForDisplay(userId: string): string {
    if |userId| == 12 && HasPrefix(userId, "90") then
      "+90 " + userId[2..5] + " " + userId[5..8] + " " + userId[8..10] + " " + userId[10..12]
    else "+" + userId
  }

  // ---------------------------------------------------------------- digits

  lemma {:induction false} DigitsOfDigits(s: string)
    requires AllDigits(s)
    ensures DigitsOf(s) == s
  {
    if s != [] {
      DigitsOfDigits(s[1..]);
    }
  }

  lemma {:induction false} DigitsOfAppend(a: string, b: string)
    ensures DigitsOf(a + b) == DigitsOf(a) + DigitsOf(b)
  {
    if a == [] {
      assert a + b == b;
    } else {
      DigitsOfAppend(a[1..], b);
      assert (a + b)[1..] == a[1..] + b;
    }
  }

  lemma {:induction false} BlankHasNoDigits(s: string)
    requires IsBlank(s)
    ensures DigitsOf(s) == []
  {
    if s != [] {
      BlankHasNoDigits(s[1..]);
    }
  }

  /** The result depends on nothing but the digits of the input. */
  lemma DependsOnDigitsOnly(code: string, x: string, y: string)
    requires DigitsOf(x) == DigitsOf(y)
    ensures NormalizeToE164(code, x) == NormalizeToE164(code, y)
  {
  }

  // ---------------------------------------------------------------- laws

  lemma NormalizeTwice(code: string, digits: string)
    ensures NormalizeDigits(code, NormalizeDigits(code, digits)) == NormalizeDigits(code, digits)
  {
    var once := NormalizeDigits(code, digits);
    if once != digits {
      assert |once| == |code| + 10;
      if |once| == 11 && HasPrefix(once, "0") {
        assert code == [once[0]] && once[0] == '0';
        assert code + once[1..] == once;
      } else if |once| == 10 && HasPrefix(once, "5") {
        assert code + once == once;
      }
    }
  }

  /** Idempotence, for every country code: what normalisation produced it leaves alone. */
  lemma NormalisationIdempotent(code: string, input: string)
    requires NormalizeToE164(code, input).Some?
    ensures
      var e164 := NormalizeToE164(code, input).value;
      && NormalizeToE164(code, e164) == Some(e164)
      && NormalizeToE164(code, e164[1..]) == Some(e164)
  {
    var digits := DigitsOf(input);
    var id := NormalizeDigits(code, digits);
    var e164 := "+" + id;
    assert NormalizeToE164(code, input).value == e164 && e164[1..] == id;
    DigitsOfDigits(id);
    DigitsOfAppend("+", id);
    assert DigitsOf("+") == DigitsOf([]);
    NormalizeTwice(code, digits);
    NotBlank(id);
    DependsOnDigitsOnly(code, e164, id);
  }

  lemma NotBlank(id: string)
    requires id != [] && AllDigits(id)
    ensures !IsBlank(id)
  {
    assert IsDigit(id[0]);
  }

  lemma SpaceJoin(x: string, space: string, y: string)
    requires DigitsOf(space) == [] && AllDigits(y)
    ensures DigitsOf(x + space + y) == DigitsOf(x) + y
  {
    DigitsOfAppend(x, space);
    DigitsOfAppend(x + space, y);
    DigitsOfDigits(y);
    assert DigitsOf(x) + [] == DigitsOf(x);
  }

  /** Four groups behind a prefix, separated by spaces. */
  lemma FourGroups(prefix: string, space: string, a: string, b: string, c: string, d: string)
    requires DigitsOf(space) == [] && AllDigits(a) && AllDigits(b) && AllDigits(c) && AllDigits(d)
    ensures DigitsOf(prefix + a + space + b + space + c + space + d) == DigitsOf(prefix) + a + b + c + d
  {
    DigitsOfAppend(prefix, a);
    DigitsOfDigits(a);
    SpaceJoin(prefix + a, space, b);
    SpaceJoin(prefix + a + space + b, space, c);
    SpaceJoin(prefix + a + space + b + space + c, space, d);
  }

  lemma Regroup(s: string)
    requires |s| == 12
    ensures s[..2] + s[2..5] + s[5..8] + s[8..10] + s[10..12] == s
  {
  }

  /** The display format adds no digit and moves none. */
  lemma DisplayKeepsDigits(id: string)
    requires AllDigits(id)
    ensures DigitsOf(FormatForDisplay(id)) == id
  {
    if |id| == 12 && HasPrefix(id, "90") {
      FourGroups("+90 ", " ", id[2..5], id[5..8], id[8..10], id[10..12]);
      Regroup(id);
    } else {
      DigitsOfDigits(id);
      DigitsOfAppend("+", id);
      assert DigitsOf("+") == DigitsOf([]);
    }
  }

  /** Normalising a displayed id gives the id back, for every id that normalisation produces. */
  lemma NormalisationUndoesDisplay(code: string, input: string)
    requires NormalizeToUserId(code, input).Some?
    ensures
      var id := NormalizeToUserId(code, input).value;
      NormalizeToUserId(code, FormatForDisplay(id)) == Some(id)
  {
    var id := NormalizeToUserId(code, input).value;
    NormalisationIdempotent(code, input);
    DisplayKeepsDigits(id);
    DigitsOfDigits(id);
    DependsOnDigitsOnly(code, FormatForDisplay(id), id);
  }

  /** The three ways to write one valid Turkish mobile number normalise to the same number. */
  lemma TurkishFormsAgree(n: string)
    requires |n| == 10 && AllDigits(n) && n[0] == '5' && IsTurkishMobile("90" + n)
    ensures NormalizeToE164("90", n) == Some("+90" + n)
    ensures NormalizeToE164("90", "0" + n) == Some("+90" + n)
    ensures NormalizeToE164("90", "90" + n) == Some("+90" + n)
  {
    DigitsOfDigits(n);
    DigitsOfDigits("0" + n);
    DigitsOfDigits("90" + n);
    assert n[..1] == "5" && ("0" + n)[..1] == "0" && ("0" + n)[1..] == n && ("90" + n)[..2] == "90";
    NotBlank(n);
    NotBlank("0" + n);
    NotBlank("90" + n);
    assert "+" + ("90" + n) == "+90" + n;
  }

  // ---------------------------------------------------------------- which numbers, and how they look

  /** The digits from position i on begin a Turkish mobile number: 50, 53, 54, 55 or 56. */
  predicate MobileAt(digits: string, i: nat) {
    i + 1 < |digits| && digits[i] == '5' && digits[i + 1] in {'0', '3', '4', '5', '6'}
  }

  /** With the country code 90, by the number of digits and how they begin: the national forms and the
      full Turkish form are accepted exactly for mobile numbers, everything else exactly with 7 to 15
      digits, as it is. */
  lemma AcceptedExactly(input: string)
    ensures
      var digits := DigitsOf(input);
      var n := |digits|;
      NormalizeToE164("90", input) ==
        if n == 11 && digits[0] == '0' then (if MobileAt(digits, 1) then Some("+90" + digits[1..]) else None)
        else if n == 10 && digits[0] == '5' then (if MobileAt(digits, 0) then Some("+90" + digits) else None)
        else if n == 12 && digits[0] == '9' && digits[1] == '0' then
          (if MobileAt(digits, 2) then Some("+" + digits) else None)
        else if 7 <= n <= 15 then Some("+" + digits)
        else None
  {
    var digits := DigitsOf(input);
    if IsBlank(input) {
      BlankHasNoDigits(input);
    } else if digits != [] {
      NationalForm(digits);
      PrefixIs(digits);
      assert "+" + ("90" + digits) == "+90" + digits && "+" + ("90" + digits[1..]) == "+90" + digits[1..];
    }
  }

  lemma PrefixIs(s: string)
    requires s != []
    ensures HasPrefix(s, "0") <==> s[0] == '0'
    ensures HasPrefix(s, "5") <==> s[0] == '5'
    ensures HasPrefix(s, "90") <==> |s| >= 2 && s[0] == '9' && s[1] == '0'
  {
    assert s[..1] == [s[0]];
    if |s| >= 2 {
      assert s[..2] == [s[0], s[1]];
    }
  }

  /** A national form with the country code in front is a full Turkish form. */
  lemma NationalForm(digits: string)
    requires AllDigits(digits) && digits != []
    ensures |digits| == 11 ==> (IsValid("90" + digits[1..]) <==> MobileAt(digits, 1))
    ensures |digits| == 10 ==> (IsValid("90" + digits) <==> MobileAt(digits, 0))
  {
    assert ("90" + digits)[..2] == "90" && ("90" + digits[1..])[..2] == "90";
  }

  /** A Turkish number is displayed in groups of three, three, two and two digits; others with a plus sign. */
  lemma DisplayLayout(id: string, i: nat)
    ensures
      var text := FormatForDisplay(id);
      if |id| == 12 && id[0] == '9' && id[1] == '0' then
        && |text| == 17 && text[0] == '+'
        && (1 <= i <= 2 ==> text[i] == id[i - 1])
        && (i == 3 || i == 7 || i == 11 || i == 14 ==> text[i] == ' ')
        && (4 <= i <= 6 ==> text[i] == id[i - 2]) && (8 <= i <= 10 ==> text[i] == id[i - 3])
        && (12 <= i <= 13 ==> text[i] == id[i - 4]) && (15 <= i <= 16 ==> text[i] == id[i - 5])
      else text == "+" + id
  {
    if id != [] {
      PrefixIs(id);
    }
  }

  /** A character is kept exactly when it is one of the digits 0 to 9. */
  lemma KeptExactly(c: char)
    ensures DigitsOf([c]) == if c in "0123456789" then [c] else []
  {
    assert [c][1..] == [];
    assert DigitsOf([c][1..]) == [];
    assert c in "0123456789" <==> '0' <= c <= '9';
  }
}
