/** The stored form of the owner's PIN: how a hash is printed, read back and checked.
    The hash functions themselves are parameters. */
module Pin {
  import opened Text
  import opened Base64

  const ARGON_TIME := 3
  const ARGON_MEMORY := 65536
  const ARGON_THREADS := 4
  const SALT_LEN := 16
  const KEY_LEN := 32

  /** Memory in KiB, passes, lanes. */
  datatype Costs = Costs(m: int, t: int, p: int)

  /** The second option RFC 9106 recommends, in section 4. */
  const TODAY := Costs(ARGON_MEMORY, ARGON_TIME, ARGON_THREADS)

  /** Argon2id and PBKDF2, as far as this code can see them. */
  type Argon = (string, seq<Byte>, Costs) -> seq<Byte>
  type Pbkdf2 = (string, seq<Byte>, int) -> seq<Byte>

  datatype PinError = ShortSalt | Malformed

  /** What a check says: the PIN is right, and the hash is weaker than a new one. */
  datatype Answer = Answer(ok: bool, stale: bool)

  // Printing.

  function CostsText(c: Costs): string
    requires c.m >= 0 && c.t >= 0 && c.p >= 0
  {
    "m=" + Decimal(c.m) + ",t=" + Decimal(c.t) + ",p=" + Decimal(c.p)
  }

  function Printed(c: Costs, salt: seq<Byte>, key: seq<Byte>): string
    requires c.m >= 0 && c.t >= 0 && c.p >= 0
  {
    Join(["argon2id", "v=19", CostsText(c), Encode(salt), Encode(key)], "$")
  }

  function PrintedOld(iter: nat, salt: seq<Byte>, key: seq<Byte>): string {
    Join(["pbkdf2-sha256", Decimal(iter), Encode(salt), Encode(key)], "$")
  }

  function Hash(argon: Argon, pin: string, salt: seq<Byte>): Result<string, PinError> {
    if |salt| < SALT_LEN then Err(ShortSalt) else Ok(Printed(TODAY, salt, argon(pin, salt, TODAY)))
  }

  // Reading.

  function DigitRun(s: string): (n: nat)
    ensures n <= |s| && AllDigits(s[..n])
    ensures n < |s| ==> !IsDigit(s[n])
  {
    if s == "" || !IsDigit(s[0]) then 0
    else
      var n := DigitRun(s[1..]);
      assert s[..n + 1] == [s[0]] + s[1..][..n];
      n + 1
  }

  /** A number as fmt's scanner reads one: after blanks, with an optional sign, as many
      digits as there are. The rest is left. */
  function ScanInt(s: string): Option<(int, string)>
    decreases |s|
  {
    if s == "" then None
    else if s[0] in {' ', '\t', '\r'} || s[0] as int in {11, 12} then ScanInt(s[1..])
    else
      var minus := s[0] == '-';
      var t := if s[0] in {'+', '-'} then s[1..] else s;
      var n := DigitRun(t);
      if n == 0 then None
      else
        var v: int := NumberOf(t[..n]);
        if minus then (if v > MAX_INT + 1 then None else Some((-v, t[n..])))
        else (if v > MAX_INT then None else Some((v, t[n..])))
  }

  function After(literal: string, s: string): Option<string> {
    if literal <= s then Some(s[|literal|..]) else None
  }

  /** The literal, then a number. */
  function Field(literal: string, s: string): Option<(int, string)> {
    match After(literal, s) case None => None case Some(rest) => ScanInt(rest)
  }

  /** The three costs; what comes after the last is not looked at. */
  function ScanCosts(s: string): Option<Costs> {
    match Field("m=", s)
    case None => None
    case Some((m, rest)) =>
      match Field(",t=", rest)
      case None => None
      case Some((t, rest2)) =>
        match Field(",p=", rest2)
        case None => None
        case Some((p, _)) => Some(Costs(m, t, p))
  }

  predicate InBounds(c: Costs) {
    8 * 1024 <= c.m <= 4 * 1024 * 1024 && 1 <= c.t <= 100 && 1 <= c.p <= 255
  }

  predicate Weaker(c: Costs) { c.m < ARGON_MEMORY || c.t < ARGON_TIME || c.p < ARGON_THREADS }

  datatype Stored = Stored(costs: Costs, salt: seq<Byte>, key: seq<Byte>)

  /** An Argon2id hash taken apart, if it is one this code reads. */
  function Parsed(encoded: string): Option<Stored> {
    var parts := Split(encoded, '$');
    if |parts| != 5 || parts[1] != "v=19" then None
    else
      match (ScanCosts(parts[2]), Decode(parts[3]), Decode(parts[4]))
      case (Some(c), Some(salt), Some(key)) =>
        if InBounds(c) && |salt| >= SALT_LEN && |key| == KEY_LEN then Some(Stored(c, salt, key)) else None
      case _ => None
  }

  function ParsedOld(encoded: string): Option<(int, seq<Byte>, seq<Byte>)> {
    var parts := Split(encoded, '$');
    if |parts| != 4 then None
    else
      match (SignedAtoi(parts[1]), Decode(parts[2]), Decode(parts[3]))
      case (Some(iter), Some(salt), Some(key)) =>
        if 1 <= iter <= 10_000_000 && |salt| >= SALT_LEN && |key| == KEY_LEN then Some((iter, salt, key)) else None
      case _ => None
  }

  function Verify(argon: Argon, pbkdf2: Pbkdf2, encoded: string, pin: string): Result<Answer, PinError> {
    if "argon2id$" <= encoded then
      match Parsed(encoded)
      case None => Err(Malformed)
      case Some(h) => Ok(Answer(argon(pin, h.salt, h.costs) == h.key, Weaker(h.costs)))
    else if "pbkdf2-sha256$" <= encoded then
      match ParsedOld(encoded)
      case None => Err(Malformed)
      case Some((iter, salt, key)) => Ok(Answer(pbkdf2(pin, salt, iter) == key, true))
    else Err(Malformed)
  }

  // Reading back what was printed.

  lemma {:induction false} DigitRunOf(d: string, rest: string)
    requires AllDigits(d) && (rest == "" || !IsDigit(rest[0]))
    ensures DigitRun(d + rest) == |d|
  {
    if d == "" {
      assert d + rest == rest;
    } else {
      DigitRunOf(d[1..], rest);
      assert (d + rest)[1..] == d[1..] + rest;
    }
  }

  lemma ScanDecimal(n: nat, rest: string)
    requires rest == "" || !IsDigit(rest[0])
    ensures ScanInt(Decimal(n) + rest) == if n > MAX_INT then None else Some((n as int, rest))
  {
    var d := Decimal(n);
    NumberOfDecimal(n);
    DigitRunOf(d, rest);
    assert (d + rest)[0] == d[0] && (d + rest)[..|d|] == d && (d + rest)[|d|..] == rest;
  }

  lemma FieldOf(literal: string, n: nat, rest: string)
    requires rest == "" || !IsDigit(rest[0])
    ensures Field(literal, literal + Decimal(n) + rest) == if n > MAX_INT then None else Some((n as int, rest))
  {
    assert (literal + Decimal(n) + rest)[|literal|..] == Decimal(n) + rest;
    assert literal <= literal + Decimal(n) + rest;
    ScanDecimal(n, rest);
  }

  /** Costs are read back as printed, unless one is too large for a number. */
  lemma CostsReadBack(c: Costs)
    requires c.m >= 0 && c.t >= 0 && c.p >= 0
    ensures ScanCosts(CostsText(c)) == if c.m > MAX_INT || c.t > MAX_INT || c.p > MAX_INT then None else Some(c)
  {
    var third := ",p=" + Decimal(c.p) + "";
    var second := ",t=" + Decimal(c.t) + third;
    var first := "m=" + Decimal(c.m) + second;
    assert first == CostsText(c);
    FieldOf("m=", c.m, second);
    FieldOf(",t=", c.t, third);
    FieldOf(",p=", c.p, "");
  }

  lemma NoDollar(c: Costs)
    requires c.m >= 0 && c.t >= 0 && c.p >= 0
    ensures '$' !in CostsText(c)
  {
    assert '$' !in Decimal(c.m) && '$' !in Decimal(c.t) && '$' !in Decimal(c.p);
  }

  /** A printed hash is read back as the same costs, salt and key exactly when the costs
      are within bounds, the salt is long enough and the key has its length. */
  lemma PrintedReadsBack(c: Costs, salt: seq<Byte>, key: seq<Byte>)
    requires c.m >= 0 && c.t >= 0 && c.p >= 0
    ensures Parsed(Printed(c, salt, key)) ==
            if 8192 <= c.m <= 4194304 && 1 <= c.t <= 100 && 1 <= c.p <= 255 && |salt| >= 16 && |key| == 32
            then Some(Stored(c, salt, key)) else None
  {
    var parts := ["argon2id", "v=19", CostsText(c), Encode(salt), Encode(key)];
    NoDollar(c);
    SymbolsOfEncode(salt);
    SymbolsOfEncode(key);
    SymbolsPlain(Encode(salt));
    SymbolsPlain(Encode(key));
    SplitJoin(parts, '$');
    CostsReadBack(c);
    RoundTrip(salt);
    RoundTrip(key);
  }

  lemma DigitsNoDollar(n: nat)
    ensures '$' !in Decimal(n) && SignedAtoi(Decimal(n)) == if n > MAX_INT then None else Some(n as int)
  {
    NumberOfDecimal(n);
    assert IsDigit(Decimal(n)[0]);
  }

  lemma OldReadsBack(iter: nat, salt: seq<Byte>, key: seq<Byte>)
    ensures ParsedOld(PrintedOld(iter, salt, key)) ==
            if 1 <= iter <= 10_000_000 && |salt| >= 16 && |key| == 32 then Some((iter as int, salt, key)) else None
  {
    DigitsNoDollar(iter);
    OldParts(iter, salt, key);
    RoundTrip(salt);
    RoundTrip(key);
  }

  lemma OldParts(iter: nat, salt: seq<Byte>, key: seq<Byte>)
    ensures Split(PrintedOld(iter, salt, key), '$') == ["pbkdf2-sha256", Decimal(iter), Encode(salt), Encode(key)]
  {
    DigitsNoDollar(iter);
    SymbolsOfEncode(salt);
    SymbolsOfEncode(key);
    SymbolsPlain(Encode(salt));
    SymbolsPlain(Encode(key));
    SplitJoin(["pbkdf2-sha256", Decimal(iter), Encode(salt), Encode(key)], '$');
  }

  lemma JoinStarts(first: string, rest: seq<string>)
    requires rest != []
    ensures first + "$" <= Join([first] + rest, "$")
  {
    assert ([first] + rest)[1..] == rest;
  }

  /** A PIN checked against any hash that can be read back says whether its derived key is
      the one printed, and calls the hash weak exactly when one of its costs is below
      today's. */
  lemma PrintedVerifies(argon: Argon, pbkdf2: Pbkdf2, c: Costs, salt: seq<Byte>, key: seq<Byte>, q: string)
    requires InBounds(c) && |salt| >= SALT_LEN && |key| == KEY_LEN
    ensures Verify(argon, pbkdf2, Printed(c, salt, key), q)
            == Ok(Answer(argon(q, salt, c) == key, !(c.m >= 65536 && c.t >= 3 && c.p >= 4)))
  {
    PrintedReadsBack(c, salt, key);
    JoinStarts("argon2id", ["v=19", CostsText(c), Encode(salt), Encode(key)]);
    assert ["argon2id"] + ["v=19", CostsText(c), Encode(salt), Encode(key)]
        == ["argon2id", "v=19", CostsText(c), Encode(salt), Encode(key)];
    assert "argon2id" + "$" == "argon2id$";
  }

  /** Nothing is checked against a text that is not of one of the two forms. */
  lemma VerifiedForm(argon: Argon, pbkdf2: Pbkdf2, encoded: string, q: string)
    requires Verify(argon, pbkdf2, encoded, q).Ok?
    ensures var parts := Split(encoded, '$');
            (parts[0] == "argon2id" && |parts| == 5 && parts[1] == "v=19") || (parts[0] == "pbkdf2-sha256" && |parts| == 4)
  {
    if "argon2id$" <= encoded { FirstPart("argon2id", encoded); } else { FirstPart("pbkdf2-sha256", encoded); }
  }

  lemma FirstPart(name: string, encoded: string)
    requires '$' !in name && name + "$" <= encoded
    ensures Split(encoded, '$')[0] == name
  {
    var rest := encoded[|name| + 1..];
    assert encoded == name + ['$'] + rest;
    SplitAt(name, '$', rest);
  }

  /** A PIN checked against the hash of another says whether their derived keys are the
      same, never that the hash is weak, and never fails. */
  lemma HashThenVerify(argon: Argon, pbkdf2: Pbkdf2, p: string, salt: seq<Byte>, q: string)
    requires |argon(p, salt, TODAY)| == KEY_LEN
    ensures Hash(argon, p, salt).Ok? <==> |salt| >= SALT_LEN
    ensures |salt| >= SALT_LEN ==>
              Verify(argon, pbkdf2, Hash(argon, p, salt).value, q)
              == Ok(Answer(argon(q, salt, TODAY) == argon(p, salt, TODAY), false))
  {
    if |salt| >= SALT_LEN { PrintedVerifies(argon, pbkdf2, TODAY, salt, argon(p, salt, TODAY), q); }
  }

  /** The same for a hash an earlier release made, which is always weak. */
  lemma OldThenVerify(argon: Argon, pbkdf2: Pbkdf2, p: string, salt: seq<Byte>, iter: nat, q: string)
    requires |pbkdf2(p, salt, iter)| == KEY_LEN && |salt| >= SALT_LEN && 1 <= iter <= 10_000_000
    ensures Verify(argon, pbkdf2, PrintedOld(iter, salt, pbkdf2(p, salt, iter)), q)
            == Ok(Answer(pbkdf2(q, salt, iter) == pbkdf2(p, salt, iter), true))
  {
    var key := pbkdf2(p, salt, iter);
    OldReadsBack(iter, salt, key);
    JoinStarts("pbkdf2-sha256", [Decimal(iter), Encode(salt), Encode(key)]);
    assert ["pbkdf2-sha256"] + [Decimal(iter), Encode(salt), Encode(key)]
        == ["pbkdf2-sha256", Decimal(iter), Encode(salt), Encode(key)];
    assert "pbkdf2-sha256" + "$" == "pbkdf2-sha256$";
    assert !("argon2id$" <= PrintedOld(iter, salt, key)) by { assert PrintedOld(iter, salt, key)[0] == 'p'; }
  }

  /** Each character is `d` from the one before it. */
  predicate Steps(p: string, d: int) {
    forall i :: 0 < i < |p| ==> p[i] as int == p[i - 1] as int + d
  }

  /** An ascending or descending run. */
  method Sequential(p: string) returns (run: bool)
    ensures run == (Steps(p, 1) || Steps(p, -1))
  {
    var up, down := true, true;
    var i := 1;
    while i < |p|
      invariant 1 <= i && (|p| > 0 ==> i <= |p|)
      invariant |p| > 0 ==> up == Steps(p[..i], 1) && down == Steps(p[..i], -1)
      invariant |p| == 0 ==> up && down
    {
      up := up && p[i] as int == p[i - 1] as int + 1;
      down := down && p[i] as int == p[i - 1] as int - 1;
      assert forall j :: 0 < j < i ==> p[..i + 1][j] == p[..i][j];
      assert p[..i + 1][i] == p[i] && p[..i + 1][i - 1] == p[i - 1];
      assert forall d :: Steps(p[..i + 1], d) ==> Steps(p[..i], d);
      i := i + 1;
    }
    assert p == "" || p[..i] == p;
    run := up || down;
  }
}
