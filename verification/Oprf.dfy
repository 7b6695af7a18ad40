/** The RSA oblivious pseudo-random function behind private contact discovery: hash to the
    group, blind, evaluate, unblind and encode. SHA-256 is a parameter that yields 32 bytes. */
module Oprf {
  import opened NumberTheory
  import opened Bytes
  import Base64

  type Digest = s: seq<byte> | |s| == 32 witness seq(32, _ => 0)

  type Hash = seq<byte> -> Digest

  // ---------------------------------------------------------------- key and protocol arithmetic

  /** A two-prime RSA key (section 3.2 of RFC 8017). */
  datatype RsaKey = RsaKey(p: nat, q: nat, e: nat, d: nat) {
    function Modulus(): nat {
      p * q
    }

    ghost predicate Valid() {
      && IsPrime(p) && IsPrime(q) && p != q
      && 1 <= e && 1 <= d
      && Cong(e * d, 1, Lcm(p - 1, q - 1))
    }
  }

  function Blind(point: nat, factor: nat, e: nat, n: nat): nat
    requires 1 < n
  {
    point * (Pow(factor, e) % n) % n
  }

  function Evaluate(x: nat, d: nat, n: nat): nat
    requires 1 < n
  {
    Pow(x, d) % n
  }

  function Unblind(evaluated: nat, factor: nat, n: nat): nat
    requires 1 < n && Coprime(factor, n)
  {
    evaluated * ModInverse(factor, n) % n
  }

  lemma DividesTransitive(k: int, l: int, j: int, r: int)
    requires l == j * r
    ensures Divides(r, k * l)
  {
    assert k * (j * r) == (k * j) * r;
    DividesIntro(k * j, r, k * l);
  }

  lemma ExponentCoversPrime(key: RsaKey, r: nat, m: nat)
    requires key.Valid() && (r == key.p || r == key.q) && m == key.e * key.d
    ensures 1 <= m && Divides(r - 1, m - 1)
  {
    var l := Lcm(key.p - 1, key.q - 1);
    LcmIsCommonMultiple(key.p - 1, key.q - 1);
    var k := DividesElim(l, m - 1);
    var j := DividesElim(r - 1, l);
    DividesTransitive(k, l, j, r - 1);
  }

  /** The key equation: raising to e and then d is the identity on every residue, coprime or not. */
  lemma KeyEquation(key: RsaKey, x: nat)
    requires key.Valid()
    ensures Cong(Pow(x, key.e * key.d), x, key.Modulus())
  {
    var m := key.e * key.d;
    ExponentCoversPrime(key, key.p, m);
    ExponentCoversPrime(key, key.q, m);
    PowIdentityModPrime(x, m, key.p);
    PowIdentityModPrime(x, m, key.q);
    DistinctPrimesDivide(key.p, key.q, Pow(x, m) - x);
  }

  lemma BlindCong(point: nat, factor: nat, e: nat, n: nat)
    requires 1 < n
    ensures Cong(Blind(point, factor, e, n), point * Pow(factor, e), n)
  {
    var f := Pow(factor, e);
    CongMod(f, n);
    CongRefl(point, n);
    CongMul(point, point, f % n, f, n);
    CongMod(point * (f % n), n);
    CongTrans(Blind(point, factor, e, n), point * (f % n), point * f, n);
  }

  /** A blinded value evaluates to the evaluated point times the bare factor. */
  lemma EvaluatedBlindCong(key: RsaKey, point: nat, factor: nat, n: nat)
    requires key.Valid() && n == key.Modulus() && 1 < n
    ensures Cong(Evaluate(Blind(point, factor, key.e, n), key.d, n), Pow(point, key.d) * factor, n)
  {
    var b, f, d := Blind(point, factor, key.e, n), Pow(factor, key.e), key.d;
    BlindCong(point, factor, key.e, n);
    CongPow(b, point * f, d, n);
    PowOfProduct(point, f, d);
    PowOfPow(factor, key.e, d);
    KeyEquation(key, factor);
    CongRefl(Pow(point, d), n);
    CongMul(Pow(point, d), Pow(point, d), Pow(f, d), factor, n);
    CongTrans(Pow(b, d), Pow(point, d) * Pow(f, d), Pow(point, d) * factor, n);
    CongMod(Pow(b, d), n);
    CongTrans(Pow(b, d) % n, Pow(b, d), Pow(point, d) * factor, n);
  }

  lemma CancelFactor(w: int, x: int, factor: int, inverse: int, n: int)
    requires Cong(w, x * factor, n) && Cong(factor * inverse, 1, n)
    ensures Cong(w * inverse, x, n)
  {
    CongRefl(inverse, n);
    CongMul(w, x * factor, inverse, inverse, n);
    CongRefl(x, n);
    CongMul(x, x, factor * inverse, 1, n);
    assert (x * factor) * inverse == x * (factor * inverse);
    CongTrans(w * inverse, x * (factor * inverse), x, n);
  }

  /** The protocol law: for every key, every point and every factor coprime to the modulus,
      the unblinded value is the directly evaluated point, whatever the factor was. */
  lemma UnblindedEqualsDirect(key: RsaKey, point: nat, factor: nat, n: nat)
    requires key.Valid() && n == key.Modulus() && 1 < n && Coprime(factor, n)
    ensures Unblind(Evaluate(Blind(point, factor, key.e, n), key.d, n), factor, n) == Evaluate(point, key.d, n)
  {
    var w := Evaluate(Blind(point, factor, key.e, n), key.d, n);
    EvaluatedBlindCong(key, point, factor, n);
    CancelFactor(w, Pow(point, key.d), factor, ModInverse(factor, n), n);
    CongIffModEq(w * ModInverse(factor, n), Pow(point, key.d), n);
  }

  // ---------------------------------------------------------------- the units as a permutation group

  predicate IsUnit(x: nat, n: nat) {
    x < n && Coprime(x, n)
  }

  lemma ResidueOfUnit(x: nat, y: int, n: nat)
    requires 1 < n && Cong(x * y, 1, n)
    ensures IsUnit(x % n, n)
  {
    CongMod(x, n);
    CongRefl(y, n);
    CongMul(x % n, x, y, y, n);
    CongTrans(x % n * y, x * y, 1, n);
    InvertibleIsCoprime(x % n, y, n);
  }

  lemma UnitProduct(a: nat, b: nat, n: nat)
    requires 1 < n && Coprime(a, n) && Coprime(b, n)
    ensures IsUnit(a * b % n, n)
  {
    var i: int, j: int := ModInverse(a, n), ModInverse(b, n);
    CongMul(a * i, 1, b * j, 1, n);
    NumberTheory.Regroup(a, i, b, j);
    ResidueOfUnit(a * b, i * j, n);
  }

  lemma UnitPower(a: nat, e: nat, n: nat)
    requires 1 < n && Coprime(a, n)
    ensures Pow(a, e) >= 0 && IsUnit(Pow(a, e) % n, n)
  {
    var i := ModInverse(a, n);
    PowNonNegative(a, e);
    CongPow(a * i, 1, e, n);
    PowOfProduct(a, i, e);
    PowOfOne(e);
    ResidueOfUnit(Pow(a, e), Pow(i, e), n);
  }

  lemma {:induction false} PowNonNegative(b: nat, e: nat)
    ensures 0 <= Pow(b, e)
  {
    if e > 0 {
      PowNonNegative(b, e - 1);
    }
  }

  /** Evaluating with d and with e are inverse bijections of the residues. */
  lemma EvaluationInverse(key: RsaKey, x: nat, n: nat)
    requires key.Valid() && n == key.Modulus() && 1 < n && x < n
    ensures Evaluate(Evaluate(x, key.d, n), key.e, n) == x
    ensures Evaluate(Evaluate(x, key.e, n), key.d, n) == x
  {
    KeyEquation(key, x);
    assert key.e * key.d == key.d * key.e;
    EvaluateTwice(x, key.d, key.e, n);
    EvaluateTwice(x, key.e, key.d, n);
  }

  lemma EvaluateTwice(x: nat, d: nat, e: nat, n: nat)
    requires 1 < n && x < n && Cong(Pow(x, d * e), x, n)
    ensures Evaluate(Evaluate(x, d, n), e, n) == x
  {
    var y := Pow(x, d);
    PowNonNegative(x, d);
    CongMod(y, n);
    CongPow(y % n, y, e, n);
    PowOfPow(x, d, e);
    CongTrans(Pow(y % n, e), Pow(x, d * e), x, n);
    PowNonNegative(y % n, e);
    CongMod(Pow(y % n, e), n);
    CongTrans(Pow(y % n, e) % n, Pow(y % n, e), x, n);
    CongUnique(Evaluate(Evaluate(x, d, n), e, n), x, n);
  }

  /** Blinding hides the point perfectly: for every unit point and every blinded unit there is
      exactly one unit factor that takes the one to the other. */
  lemma ExactlyOneFactor(key: RsaKey, point: nat, blinded: nat, n: nat) returns (factor: nat)
    requires key.Valid() && n == key.Modulus() && 1 < n && IsUnit(point, n) && IsUnit(blinded, n)
    ensures IsUnit(factor, n) && Blind(point, factor, key.e, n) == blinded
    ensures forall g: nat :: IsUnit(g, n) && Blind(point, g, key.e, n) == blinded ==> g == factor
  {
    var h := blinded * ModInverse(point, n) % n;
    QuotientUnit(blinded, point, n);
    factor := Evaluate(h, key.d, n);
    UnitPower(h, key.d, n);
    EvaluationInverse(key, h, n);
    BlindExplained(point, factor, key.e, h, blinded, n);
    forall g: nat | IsUnit(g, n) && Blind(point, g, key.e, n) == blinded
      ensures g == factor
    {
      FactorPowerUnique(point, factor, g, key.e, n);
      EvaluationInverse(key, factor, n);
      EvaluationInverse(key, g, n);
    }
  }

  /** The inverse of a unit is a unit, so a quotient of units is one, and it multiplies back. */
  lemma QuotientUnit(b: nat, a: nat, n: nat)
    requires 1 < n && IsUnit(b, n) && IsUnit(a, n)
    ensures IsUnit(b * ModInverse(a, n) % n, n)
    ensures Cong(a * (b * ModInverse(a, n) % n), b, n)
  {
    var i := ModInverse(a, n);
    InvertibleIsCoprime(i, a, n);
    UnitProduct(b, i, n);
    CongMod(b * i, n);
    CongRefl(a, n);
    CongMul(a, a, b * i % n, b * i, n);
    CongRefl(b, n);
    CongMul(b, b, a * i, 1, n);
    Exchange(a, b, i);
    CongTrans(a * (b * i % n), b * (a * i), b, n);
  }

  lemma BlindExplained(point: nat, factor: nat, e: nat, h: nat, blinded: nat, n: nat)
    requires 1 < n && blinded < n && Evaluate(factor, e, n) == h && Cong(point * h, blinded, n)
    ensures Blind(point, factor, e, n) == blinded
  {
    CongMod(point * h, n);
    CongTrans(point * h % n, point * h, blinded, n);
    CongUnique(point * h % n, blinded, n);
  }

  lemma FactorPowerUnique(point: nat, f: nat, g: nat, e: nat, n: nat)
    requires 1 < n && IsUnit(point, n) && Blind(point, f, e, n) == Blind(point, g, e, n)
    ensures Evaluate(f, e, n) == Evaluate(g, e, n)
  {
    var x, y := Pow(f, e) % n, Pow(g, e) % n;
    CongIffModEq(point * x, point * y, n);
    assert point * x - point * y == point * (x - y);
    CoprimeCancel(point, x - y, n);
    CongUnique(x, y, n);
  }

  /** What the token hash is applied to: the fixed-width unblinded value. */
  function TokenInput(key: RsaKey, point: nat, factor: nat): Option<seq<byte>>
    requires 1 < key.Modulus() && Coprime(factor, key.Modulus())
  {
    var n := key.Modulus();
    Width(Unblind(Evaluate(Blind(point, factor, key.e, n), key.d, n), factor, n), ByteLength(n))
  }

  lemma TokenInputEncodes(key: RsaKey, point: nat, factor: nat, n: nat)
    requires key.Valid() && n == key.Modulus() && 1 < n && Coprime(factor, n)
    ensures TokenInput(key, point, factor).Some?
    ensures FromBigEndian(TokenInput(key, point, factor).value) == Evaluate(point, key.d, n)
  {
    UnblindedEqualsDirect(key, point, factor, n);
    ByteLengthIsLeastWidth(n, ByteLength(n));
    WidthBijective(Evaluate(point, key.d, n), ByteLength(n), []);
  }

  /** Two runs reach the same fixed-width bytes exactly when they started from the same point,
      whatever factors blinded them. */
  lemma TokenInputIdentifiesPoint(key: RsaKey, x: nat, f: nat, y: nat, g: nat, n: nat)
    requires key.Valid() && n == key.Modulus() && 1 < n
    requires x < n && y < n && Coprime(f, n) && Coprime(g, n)
    ensures TokenInput(key, x, f).Some?
    ensures TokenInput(key, x, f) == TokenInput(key, y, g) <==> x == y
  {
    TokenInputEncodes(key, x, f, n);
    TokenInputEncodes(key, y, g, n);
    EvaluationInverse(key, x, n);
    EvaluationInverse(key, y, n);
    if x == y {
      var a, b := TokenInput(key, x, f).value, TokenInput(key, y, g).value;
      FromBigEndianInverse(a);
      FromBigEndianInverse(b);
    }
  }

  /** A text is the published field of a number exactly when it decodes to as many bytes as the modulus
      has, and these spell the number. */
  lemma FieldRoundTrip(value: nat, n: nat, field: string)
    requires value <= n
    ensures Width(value, ByteLength(n)).Some?
    ensures field == Base64.EncodeUrl(Width(value, ByteLength(n)).value) <==> Spells(field, value, ByteLength(n))
  {
    ByteLengthIsLeastWidth(n, ByteLength(n));
    WidthBijective(value, ByteLength(n), []);
    var bytes := Width(value, ByteLength(n)).value;
    Base64.UrlRoundTrip(bytes, field);
    if Spells(field, value, ByteLength(n)) {
      SameBytes(bytes, Base64.DecodeUrl(field).value);
    }
  }

  predicate Spells(field: string, value: nat, size: nat) {
    var bytes := Base64.DecodeUrl(field);
    bytes.Some? && |bytes.value| == size && FromBigEndian(bytes.value) == value
  }

  // ---------------------------------------------------------------- hashing to the group

  predicate IsAscii(s: string) {
    forall i :: 0 <= i < |s| ==> s[i] as int < 128
  }

  function Ascii(s: string): (r: seq<byte>)
    requires IsAscii(s)
    ensures |r| == |s| && forall i :: 0 <= i < |s| ==> r[i] == s[i] as int
  {
    seq(|s|, i requires 0 <= i < |s| => s[i] as int)
  }

  function PhoneDomain(): seq<byte> {
    Ascii("elcim-directory-phone-v1") + [0]
  }

  function TokenDomain(): seq<byte> {
    Ascii("elcim-directory-token-v1") + [0]
  }

  const PACK_WIDTH: nat := 4
  const PACK_LIMIT := 0x1_0000_0000

  /** struct.pack(">I", v) for v below PACK_LIMIT */
  function Pack(v: nat): seq<byte> {
    BigEndian(v, PACK_WIDTH)
  }

  /** Four bytes hold exactly the values below the limit. */
  lemma PackIsExact(v: nat)
    ensures Width(v, PACK_WIDTH).Some? <==> v < PACK_LIMIT
  {
  }

  /** How many digests it takes to fill `size` bytes. */
  function Blocks(size: nat): (r: nat)
    ensures size <= 32 * r < size + 32
  {
    (size + 31) / 32
  }

  /** The counter of the last digest still has 32 bits. */
  predicate CounterFits(size: nat) {
    size <= 32 * PACK_LIMIT
  }

  /** The first `blocks` digests of seed || counter. */
  function Expansion(h: Hash, seed: seq<byte>, blocks: nat): (r: seq<byte>)
    ensures |r| == 32 * blocks
  {
    if blocks == 0 then []
    else Expansion(h, seed, blocks - 1) + h(seed + Pack(blocks - 1))
  }

  function Seed(h: Hash, phone: seq<byte>, attempt: nat): Digest {
    h(PhoneDomain() + phone + Pack(attempt))
  }

  /** The expanded bytes as a number in [1, modulus - 1]. */
  function Reduced(expanded: seq<byte>, modulus: nat): (r: nat)
    requires 2 <= modulus
    ensures 1 <= r < modulus
  {
    FromBigEndian(expanded) % (modulus - 1) + 1
  }

  /** The candidate of one attempt. */
  function Candidate(h: Hash, phone: seq<byte>, attempt: nat, modulus: nat, modulusBytes: nat): (r: nat)
    requires 2 <= modulus
    ensures 1 <= r < modulus
  {
    Reduced(Expansion(h, Seed(h, phone, attempt), Blocks(modulusBytes + 16)), modulus)
  }

  predicate Accepted(candidate: nat, modulus: nat) {
    candidate > 1 && Coprime(candidate, modulus)
  }

  const ATTEMPTS: nat := 256

  /** No attempt below k yields an accepted candidate. */
  ghost predicate NoneAcceptedBelow(h: Hash, phone: seq<byte>, k: nat, modulus: nat, modulusBytes: nat)
    requires 2 <= modulus
  {
    forall j: nat :: j < k ==> !Accepted(Candidate(h, phone, j, modulus, modulusBytes), modulus)
  }

  datatype PointResult = Point(value: nat, attempt: nat) | HashToGroupFailed | NotAscii | CounterOverflow

  // What is hashed, byte by byte.

  /** x begins with the label, in ASCII, and a NUL. */
  ghost predicate Labelled(x: seq<byte>, domain: string) {
    && |domain| < |x| && x[|domain|] == 0
    && forall i :: 0 <= i < |domain| ==> x[i] == domain[i] as int
  }

  /** The input of the seed: label, the characters of the phone hash, and the attempt in four bytes. */
  ghost predicate IsSeedInput(x: seq<byte>, phoneHash: string, attempt: nat) {
    && |x| == 25 + |phoneHash| + 4
    && Labelled(x, "elcim-directory-phone-v1")
    && (forall i :: 0 <= i < |phoneHash| ==> x[25 + i] == phoneHash[i] as int)
    && FromBigEndian(x[25 + |phoneHash|..]) == attempt
  }

  /** The input of block c of the expansion: the seed and the counter in four bytes. */
  ghost predicate IsBlockInput(x: seq<byte>, seed: Digest, c: nat) {
    |x| == 36 && x[..32] == seed && FromBigEndian(x[32..]) == c
  }

  ghost predicate IsBlock(h: Hash, seed: Digest, expanded: seq<byte>, c: nat) {
    32 * c + 32 <= |expanded| && exists x :: IsBlockInput(x, seed, c) && BlockOf(expanded, c) == h(x)
  }

  /** As many blocks as it takes to have `size` bytes, numbered from 0. */
  ghost predicate IsExpansion(h: Hash, seed: Digest, size: nat, expanded: seq<byte>) {
    && size <= |expanded| < size + 32
    && forall c: nat :: 32 * c < |expanded| ==> IsBlock(h, seed, expanded, c)
  }

  /** v is what the attempt yields for the phone hash: in [1, n-1], and v - 1 congruent modulo n - 1 to
      the number whose bytes are the expansion of the seed to 16 bytes more than the modulus has. */
  ghost predicate Yields(h: Hash, phoneHash: string, attempt: nat, n: nat, modulusBytes: nat, v: nat) {
    && 1 <= v < n
    && exists x: seq<byte>, expanded: seq<byte> ::
         IsSeedInput(x, phoneHash, attempt)
         && IsExpansion(h, h(x), modulusBytes + 16, expanded)
         && Cong(v - 1, FromBigEndian(expanded), n - 1)
  }

  /** The attempt yields a value that is 1 or shares a factor with the modulus. */
  ghost predicate Refused(h: Hash, phoneHash: string, attempt: nat, n: nat, modulusBytes: nat) {
    exists v: nat :: Yields(h, phoneHash, attempt, n, modulusBytes, v) && (v == 1 || !Coprime(v, n))
  }

  lemma PackValue(v: nat)
    requires v < PACK_LIMIT
    ensures |Pack(v)| == 4 && FromBigEndian(Pack(v)) == v
  {
    PackIsExact(v);
    WidthBijective(v, PACK_WIDTH, []);
  }

  lemma SeedInputIs(phoneHash: string, attempt: nat)
    requires IsAscii(phoneHash) && attempt < PACK_LIMIT
    ensures IsSeedInput(PhoneDomain() + Ascii(phoneHash) + Pack(attempt), phoneHash, attempt)
  {
    PackValue(attempt);
    var x := PhoneDomain() + Ascii(phoneHash) + Pack(attempt);
    assert x[25 + |phoneHash|..] == Pack(attempt);
  }

  /** Bytes 32 c to 32 c + 31. */
  function BlockOf(e: seq<byte>, c: nat): seq<byte>
    requires 32 * c + 32 <= |e|
  {
    e[32 * c..32 * c + 32]
  }

  lemma LastBlock(init: seq<byte>, last: seq<byte>, c: nat)
    requires |init| == 32 * c && |last| == 32
    ensures BlockOf(init + last, c) == last
  {
  }

  lemma EarlierBlock(init: seq<byte>, last: seq<byte>, c: nat)
    requires 32 * c + 32 <= |init|
    ensures BlockOf(init + last, c) == BlockOf(init, c)
  {
  }

  lemma {:induction false} ExpansionBlock(h: Hash, seed: seq<byte>, blocks: nat, c: nat)
    requires c < blocks
    ensures BlockOf(Expansion(h, seed, blocks), c) == h(seed + Pack(c))
  {
    var init, last := Expansion(h, seed, blocks - 1), h(seed + Pack(blocks - 1));
    if c == blocks - 1 {
      LastBlock(init, last, c);
    } else {
      ExpansionBlock(h, seed, blocks - 1, c);
      EarlierBlock(init, last, c);
    }
  }

  lemma BlockInputIs(seed: Digest, c: nat)
    requires c < PACK_LIMIT
    ensures IsBlockInput(seed + Pack(c), seed, c)
  {
    PackValue(c);
    assert (seed + Pack(c))[..32] == seed && (seed + Pack(c))[32..] == Pack(c);
  }

  lemma ExpansionIs(h: Hash, seed: Digest, size: nat)
    requires CounterFits(size)
    ensures IsExpansion(h, seed, size, Expansion(h, seed, Blocks(size)))
  {
    var blocks := Blocks(size);
    forall c: nat | 32 * c < 32 * blocks
      ensures IsBlock(h, seed, Expansion(h, seed, blocks), c)
    {
      ExpansionBlock(h, seed, blocks, c);
      BlockInputIs(seed, c);
    }
  }

  lemma CandidateYields(h: Hash, phoneHash: string, attempt: nat, n: nat, modulusBytes: nat)
    requires IsAscii(phoneHash) && attempt < PACK_LIMIT && 2 <= n && CounterFits(modulusBytes + 16)
    ensures Yields(h, phoneHash, attempt, n, modulusBytes, Candidate(h, Ascii(phoneHash), attempt, n, modulusBytes))
  {
    var x := PhoneDomain() + Ascii(phoneHash) + Pack(attempt);
    SeedInputIs(phoneHash, attempt);
    var expanded := Expansion(h, h(x), Blocks(modulusBytes + 16));
    ExpansionIs(h, h(x), modulusBytes + 16);
    ReducedIs(expanded, n);
  }

  lemma ReducedIs(expanded: seq<byte>, n: nat)
    requires 2 <= n
    ensures Cong(Reduced(expanded, n) - 1, FromBigEndian(expanded), n - 1)
  {
    CongMod(FromBigEndian(expanded), n - 1);
  }

  /** The input of the seed belongs to one phone hash and one attempt, and is determined by them. */
  lemma SeedInputUnique(x: seq<byte>, p: string, a: nat, y: seq<byte>, q: string, b: nat)
    requires IsSeedInput(x, p, a) && IsSeedInput(y, q, b)
    ensures x == y <==> p == q && a == b
  {
    if x == y {
      forall i | 0 <= i < |p|
        ensures p[i] == q[i]
      {
        assert x[25 + i] == p[i] as int && y[25 + i] == q[i] as int;
      }
      assert p == q;
    }
    if p == q && a == b {
      SameBytes(x[25 + |p|..], y[25 + |p|..]);
      forall i | 0 <= i < |x|
        ensures x[i] == y[i]
      {
        if 25 <= i < 25 + |p| {
          assert x[25 + (i - 25)] == p[i - 25] as int;
          assert y[25 + (i - 25)] == q[i - 25] as int;
        } else if 25 + |p| <= i {
          assert x[i] == x[25 + |p|..][i - 25 - |p|] && y[i] == y[25 + |p|..][i - 25 - |p|];
        }
      }
    }
  }

  lemma SameBytes(a: seq<byte>, b: seq<byte>)
    requires |a| == |b| && FromBigEndian(a) == FromBigEndian(b)
    ensures a == b
  {
    FromBigEndianInverse(a);
    FromBigEndianInverse(b);
  }

  /** With a hash without collisions, different phone hashes or attempts never share a seed. */
  lemma SeedsDistinct(h: Hash, x: seq<byte>, p: string, a: nat, y: seq<byte>, q: string, b: nat)
    requires (forall u, v :: h(u) == h(v) ==> u == v) && IsSeedInput(x, p, a) && IsSeedInput(y, q, b)
    ensures h(x) == h(y) <==> p == q && a == b
  {
    SeedInputUnique(x, p, a, y, q, b);
  }

  lemma BlockUnique(h: Hash, seed: Digest, e: seq<byte>, f: seq<byte>, c: nat)
    requires IsBlock(h, seed, e, c) && IsBlock(h, seed, f, c)
    ensures BlockOf(e, c) == BlockOf(f, c)
  {
    var x :| IsBlockInput(x, seed, c) && BlockOf(e, c) == h(x);
    var y :| IsBlockInput(y, seed, c) && BlockOf(f, c) == h(y);
    SameBytes(x[32..], y[32..]);
    assert x == x[..32] + x[32..] && y == y[..32] + y[32..];
  }

  /** The expanded length is the least multiple of 32 that is enough. */
  lemma ExpansionLength(h: Hash, seed: Digest, size: nat, e: seq<byte>)
    requires IsExpansion(h, seed, size, e)
    ensures |e| == 32 * Blocks(size)
  {
    var c := |e| / 32;
    assert 32 * c < |e| ==> IsBlock(h, seed, e, c);
  }

  lemma ExpansionUnique(h: Hash, seed: Digest, size: nat, e: seq<byte>, f: seq<byte>)
    requires IsExpansion(h, seed, size, e) && IsExpansion(h, seed, size, f)
    ensures e == f
  {
    ExpansionLength(h, seed, size, e);
    ExpansionLength(h, seed, size, f);
    forall i | 0 <= i < |e|
      ensures e[i] == f[i]
    {
      var c := i / 32;
      BlockUnique(h, seed, e, f, c);
    }
  }

  /** An attempt yields one value. */
  lemma YieldsOne(h: Hash, phoneHash: string, attempt: nat, n: nat, modulusBytes: nat, v: nat, w: nat)
    requires Yields(h, phoneHash, attempt, n, modulusBytes, v) && Yields(h, phoneHash, attempt, n, modulusBytes, w)
    ensures v == w
  {
    var x, e :| IsSeedInput(x, phoneHash, attempt) && IsExpansion(h, h(x), modulusBytes + 16, e)
                && Cong(v - 1, FromBigEndian(e), n - 1);
    var y, f :| IsSeedInput(y, phoneHash, attempt) && IsExpansion(h, h(y), modulusBytes + 16, f)
                && Cong(w - 1, FromBigEndian(f), n - 1);
    SeedInputUnique(x, phoneHash, attempt, y, phoneHash, attempt);
    ExpansionUnique(h, h(x), modulusBytes + 16, e, f);
    CongSym(w - 1, FromBigEndian(f), n - 1);
    CongTrans(v - 1, FromBigEndian(e), w - 1, n - 1);
    CongUnique(v - 1, w - 1, n - 1);
  }

  lemma RefusedIs(h: Hash, phoneHash: string, attempt: nat, n: nat, modulusBytes: nat)
    requires IsAscii(phoneHash) && attempt < PACK_LIMIT && 2 <= n && CounterFits(modulusBytes + 16)
    ensures Refused(h, phoneHash, attempt, n, modulusBytes)
            <==> !Accepted(Candidate(h, Ascii(phoneHash), attempt, n, modulusBytes), n)
  {
    var c := Candidate(h, Ascii(phoneHash), attempt, n, modulusBytes);
    CandidateYields(h, phoneHash, attempt, n, modulusBytes);
    if v: nat :| Yields(h, phoneHash, attempt, n, modulusBytes, v) && (v == 1 || !Coprime(v, n)) {
      YieldsOne(h, phoneHash, attempt, n, modulusBytes, v, c);
    }
  }

  /** Grows the buffer block by block; None is the struct.error of a counter beyond 32 bits. */
  method Expand(h: Hash, seed: Digest, size: nat) returns (r: Option<seq<byte>>)
    ensures r.Some? <==> size <= 32 * 0x1_0000_0000
    ensures r.Some? ==> r.value == Expansion(h, seed, Blocks(size))
    ensures r.Some? ==> IsExpansion(h, seed, size, r.value)
  {
    var expanded: seq<byte> := [];
    var counter := 0;
    while |expanded| < size
      invariant counter <= PACK_LIMIT
      invariant expanded == Expansion(h, seed, counter)
      invariant 32 * counter < size + 32
      decreases size + 32 - 32 * counter
    {
      if counter == PACK_LIMIT {
        return None;
      }
      expanded := expanded + h(seed + Pack(counter));
      counter := counter + 1;
    }
    assert counter == Blocks(size);
    ExpansionIs(h, seed, size);
    return Some(expanded);
  }

  /** One attempt; None is the counter overflow. */
  method Attempt(h: Hash, phoneHash: string, attempt: nat, modulus: nat, modulusBytes: nat) returns (r: Option<nat>)
    requires 2 <= modulus && IsAscii(phoneHash) && attempt < PACK_LIMIT
    ensures r.Some? <==> modulusBytes + 16 <= 32 * 0x1_0000_0000
    ensures r.Some? ==> r.value == Candidate(h, Ascii(phoneHash), attempt, modulus, modulusBytes)
    ensures r.Some? ==> Yields(h, phoneHash, attempt, modulus, modulusBytes, r.value)
  {
    var seed := Seed(h, Ascii(phoneHash), attempt);
    var expanded := Expand(h, seed, modulusBytes + 16);
    if expanded.None? {
      return None;
    }
    CandidateYields(h, phoneHash, attempt, modulus, modulusBytes);
    return Some(Reduced(expanded.value, modulus));
  }

  lemma NoneAcceptedStep(h: Hash, phone: seq<byte>, k: nat, modulus: nat, modulusBytes: nat)
    requires 2 <= modulus && NoneAcceptedBelow(h, phone, k, modulus, modulusBytes)
    ensures Accepted(Candidate(h, phone, k, modulus, modulusBytes), modulus) ==>
              forall n: nat :: k < n ==> !NoneAcceptedBelow(h, phone, n, modulus, modulusBytes)
    ensures !Accepted(Candidate(h, phone, k, modulus, modulusBytes), modulus) ==>
              NoneAcceptedBelow(h, phone, k + 1, modulus, modulusBytes)
  {
  }

  /** The loop over the attempts. */
  method SearchPoint(h: Hash, phoneHash: string, modulus: nat, modulusBytes: nat) returns (r: PointResult)
    requires 2 <= modulus && IsAscii(phoneHash)
    ensures r != NotAscii
    ensures r.CounterOverflow? <==> !CounterFits(modulusBytes + 16)
    ensures r.Point? ==> r.attempt < ATTEMPTS && Accepted(r.value, modulus)
    ensures r.Point? ==> r.value == Candidate(h, Ascii(phoneHash), r.attempt, modulus, modulusBytes)
    ensures r.Point? ==> NoneAcceptedBelow(h, Ascii(phoneHash), r.attempt, modulus, modulusBytes)
    ensures r.HashToGroupFailed? ==> NoneAcceptedBelow(h, Ascii(phoneHash), ATTEMPTS, modulus, modulusBytes)
  {
    for attempt := 0 to ATTEMPTS
      invariant attempt > 0 ==> CounterFits(modulusBytes + 16)
      invariant NoneAcceptedBelow(h, Ascii(phoneHash), attempt, modulus, modulusBytes)
    {
      var candidate := Attempt(h, phoneHash, attempt, modulus, modulusBytes);
      if candidate.None? {
        return CounterOverflow;
      }
      if Accepted(candidate.value, modulus) {
        return Point(candidate.value, attempt);
      }
      NoneAcceptedStep(h, Ascii(phoneHash), attempt, modulus, modulusBytes);
    }
    return HashToGroupFailed;
  }

  /** Returns the candidate of the first accepted attempt out of 256, and which attempt it was. */
  method FullDomainPoint(h: Hash, phoneHash: string, modulus: nat, modulusBytes: nat) returns (r: PointResult)
    requires 2 <= modulus
    ensures r.NotAscii? <==> NonAscii(phoneHash)
    ensures r.CounterOverflow? <==> !NonAscii(phoneHash) && modulusBytes + 16 > 32 * 0x1_0000_0000
    ensures r.Point? ==> 2 <= r.value < modulus && Coprime(r.value, modulus)
    ensures r.Point? ==> FirstYielded(h, phoneHash, modulus, modulusBytes, r.value, r.attempt)
    ensures r.HashToGroupFailed? <==>
              && !NonAscii(phoneHash) && modulusBytes + 16 <= 32 * 0x1_0000_0000
              && RefusedBelow(h, phoneHash, 256, modulus, modulusBytes)
  {
    if !IsAscii(phoneHash) {
      return NotAscii;
    }
    r := SearchPoint(h, phoneHash, modulus, modulusBytes);
    if CounterFits(modulusBytes + 16) {
      SearchIsSpecified(h, phoneHash, modulus, modulusBytes, r);
    }
  }

  ghost predicate NonAscii(s: string) {
    exists i :: 0 <= i < |s| && s[i] as int >= 128
  }

  ghost predicate RefusedBelow(h: Hash, phoneHash: string, k: nat, n: nat, modulusBytes: nat) {
    forall j: nat :: j < k ==> Refused(h, phoneHash, j, n, modulusBytes)
  }

  /** v is what the given attempt yields, one of the 256, and all attempts before it are refused. */
  ghost predicate FirstYielded(h: Hash, phoneHash: string, n: nat, modulusBytes: nat, v: nat, attempt: nat) {
    && attempt < 256 && Yields(h, phoneHash, attempt, n, modulusBytes, v)
    && RefusedBelow(h, phoneHash, attempt, n, modulusBytes)
  }

  lemma RefusedBelowIs(h: Hash, phoneHash: string, k: nat, n: nat, modulusBytes: nat)
    requires IsAscii(phoneHash) && k <= PACK_LIMIT && 2 <= n && CounterFits(modulusBytes + 16)
    ensures RefusedBelow(h, phoneHash, k, n, modulusBytes)
            <==> NoneAcceptedBelow(h, Ascii(phoneHash), k, n, modulusBytes)
  {
    forall j: nat | j < k
      ensures Refused(h, phoneHash, j, n, modulusBytes)
              <==> !Accepted(Candidate(h, Ascii(phoneHash), j, n, modulusBytes), n)
    {
      RefusedIs(h, phoneHash, j, n, modulusBytes);
    }
  }

  lemma SearchIsSpecified(h: Hash, phoneHash: string, n: nat, modulusBytes: nat, r: PointResult)
    requires IsAscii(phoneHash) && 2 <= n && CounterFits(modulusBytes + 16) && (r.Point? || r.HashToGroupFailed?)
    requires r.Point? ==>
               && r.attempt < ATTEMPTS && Accepted(r.value, n)
               && r.value == Candidate(h, Ascii(phoneHash), r.attempt, n, modulusBytes)
               && NoneAcceptedBelow(h, Ascii(phoneHash), r.attempt, n, modulusBytes)
    requires r.HashToGroupFailed? ==> NoneAcceptedBelow(h, Ascii(phoneHash), ATTEMPTS, n, modulusBytes)
    ensures r.Point? ==> FirstYielded(h, phoneHash, n, modulusBytes, r.value, r.attempt)
    ensures r.HashToGroupFailed? <==> RefusedBelow(h, phoneHash, 256, n, modulusBytes)
  {
    RefusedBelowIs(h, phoneHash, ATTEMPTS, n, modulusBytes);
    if r.Point? {
      CandidateYields(h, phoneHash, r.attempt, n, modulusBytes);
      RefusedBelowIs(h, phoneHash, r.attempt, n, modulusBytes);
      NoneAcceptedStep(h, Ascii(phoneHash), r.attempt, n, modulusBytes);
    }
  }

  /** Searches upwards for a blinding factor. It always ends, because modulus - 1 is coprime. */
  method FindFactor(seed: nat, modulus: nat) returns (factor: nat)
    requires 4 <= modulus
    ensures seed % (modulus - 3) + 2 <= factor < modulus && Coprime(factor, modulus)
    ensures forall g: nat :: seed % (modulus - 3) + 2 <= g < factor ==> !Coprime(g, modulus)
  {
    factor := seed % (modulus - 3) + 2;
    PredecessorCoprime(modulus);
    while !Coprime(factor, modulus)
      invariant seed % (modulus - 3) + 2 <= factor < modulus
      invariant forall g: nat :: seed % (modulus - 3) + 2 <= g < factor ==> !Coprime(g, modulus)
      decreases modulus - factor
    {
      factor := factor + 1;
    }
  }

  datatype Vector = Vector(point: nat, factor: nat, blinded: nat, evaluated: nat, unblinded: nat, token: Digest)

  /** What a verifier of the published vector relies on: only `blinded` and `evaluated` involve the
      factor; the unblinded value and the token are those of the point itself. */
  ghost predicate Consistent(h: Hash, key: RsaKey, v: Vector)
    requires 1 < key.Modulus()
  {
    var n := key.Modulus();
    && v.blinded == Blind(v.point, v.factor, key.e, n)
    && v.evaluated == Evaluate(v.blinded, key.d, n)
    && v.unblinded == Evaluate(v.point, key.d, n)
    && exists x :: IsTokenInput(x, v.unblinded, n) && v.token == h(x)
  }

  /** The input of the token: its own label and the number in as few bytes as the modulus needs. */
  ghost predicate IsTokenInput(x: seq<byte>, value: nat, n: nat) {
    && |x| == 25 + ByteLength(n)
    && Labelled(x, "elcim-directory-token-v1")
    && FromBigEndian(x[25..]) == value
  }

  /** The token of one number is never hashed from the input of a seed. */
  lemma DomainsApart(x: seq<byte>, phoneHash: string, attempt: nat, y: seq<byte>, value: nat, n: nat)
    requires IsSeedInput(x, phoneHash, attempt) && IsTokenInput(y, value, n)
    ensures x != y
  {
    assert "elcim-directory-phone-v1"[16] == 'p' && "elcim-directory-token-v1"[16] == 't';
    assert x[16] == 'p' as int && y[16] == 't' as int;
  }

  lemma TokenInputIs(value: nat, n: nat)
    requires value <= n
    ensures Width(value, ByteLength(n)).Some?
    ensures IsTokenInput(TokenDomain() + Width(value, ByteLength(n)).value, value, n)
  {
    ByteLengthIsLeastWidth(n, ByteLength(n));
    WidthBijective(value, ByteLength(n), []);
    ByteLengthIsLeastWidth(value, ByteLength(n));
    var bytes := Width(value, ByteLength(n)).value;
    assert (TokenDomain() + bytes)[25..] == bytes;
  }

  /** The body of the generator after key generation. The script's own assertion never fails, and
      the token depends on the point alone. */
  method DeriveVector(h: Hash, factorSeed: seq<byte>, key: RsaKey, phoneHash: string) returns (r: Option<Vector>)
    requires key.Valid()
    ensures
      var n := key.Modulus();
      r.None? <==> NonAscii(phoneHash) || ByteLength(n) + 16 > 32 * 0x1_0000_0000
                   || RefusedBelow(h, phoneHash, 256, n, ByteLength(n))
    ensures
      var n := key.Modulus();
      r.Some? ==> exists k :: FirstYielded(h, phoneHash, n, ByteLength(n), r.value.point, k)
    ensures
      var n := key.Modulus();
      var start := FromBigEndian(factorSeed) % (n - 3) + 2;
      r.Some? ==> start <= r.value.factor && forall g: nat :: start <= g < r.value.factor ==> !Coprime(g, n)
    ensures r.Some? ==>
              && 2 <= r.value.point < key.Modulus() && Coprime(r.value.point, key.Modulus())
              && 2 <= r.value.factor < key.Modulus() && Coprime(r.value.factor, key.Modulus())
              && Consistent(h, key, r.value)
  {
    var modulus := key.Modulus();
    var found := FullDomainPoint(h, phoneHash, modulus, ByteLength(modulus));
    if !found.Point? {
      return None;
    }
    var point := found.value;
    var factor := FindFactor(FromBigEndian(factorSeed), modulus);
    var blinded := Blind(point, factor, key.e, modulus);
    var evaluated := Evaluate(blinded, key.d, modulus);
    var unblinded := Unblind(evaluated, factor, modulus);
    UnblindedEqualsDirect(key, point, factor, modulus);
    var direct := Evaluate(point, key.d, modulus);
    assert unblinded == direct;
    TokenInputIs(unblinded, modulus);
    var token := h(TokenDomain() + Width(unblinded, ByteLength(modulus)).value);
    return Some(Vector(point, factor, blinded, evaluated, unblinded, token));
  }
}
