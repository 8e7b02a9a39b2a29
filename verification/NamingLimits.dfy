/** Templates the check lets through although an alias made by them can be read
    two ways. */
module NamingLimits {
  import opened Text
  import opened Template
  import opened Pattern
  import opened Unambiguous
  import opened Naming
  import opened Alias
  import opened Generate
  import opened Preference
  import opened Rivals

  /** When a first optional part can be there, the engine reads it as there: it is
      tried first. */
  lemma PresentFirst(p: Pattern, r: Reading)
    requires p.Group? && p.optional && Fits(p, r) && r.value.Some?
    ensures Match(p, Spell(p, r)).Some?
    ensures Match(p, Spell(p, r)).value.Read? && Match(p, Spell(p, r)).value.value.Some?
  {
    var v := r.value.value;
    var s := Spell(p, r);
    var behind := p.after + Spell(p.next, r.rest);
    assert s == p.before + (v + behind);
    assert s[|p.before|..] == v + behind;
    FirstFitComplete(p, v + behind, Candidates(p.kind, v + behind), v, r.rest);
    FirstFitSound(p, v + behind, Candidates(p.kind, v + behind));
  }

  lemma {:induction false} PartsNotEmpty(p: Pattern, r: Reading)
    requires Fits(p, r)
    ensures forall n :: n in PartsOf(p, r) ==> PartsOf(p, r)[n] != ""
  {
    if p.Group? { PartsNotEmpty(p.next, r.rest); }
  }

  /** So an alias that could have its first, optional part is read as having it. */
  lemma FirstPartRead(r: Rules, vals: map<string, string>)
    requires r.envs == [] && r.roles == [] && AliasFault(r.AliasTemplate()).None?
    requires var p := Scan(r.AliasTemplate());
             p.Part? && p.tok.optional && Suits(p, vals) && Val(vals, p.tok.name) != ""
    ensures var alias := Render(Scan(r.AliasTemplate()), vals);
            Parse(r, alias).Some? && Val(Parse(r, alias).value, Scan(r.AliasTemplate()).tok.name) != ""
  {
    var p := Scan(r.AliasTemplate());
    var q, alias := PatternOf(p, map[]), Render(p, vals);
    CheckAliasExact(r.AliasTemplate());
    NoRow(p);
    ReadingForFits(p, vals);
    RenderIsSpell(p, map[], ReadingFor(q, vals), vals);
    PresentFirst(q, ReadingFor(q, vals));
    SameWithoutLists(p, r.Lists());
    MatchSound(q, alias);
    ScanWidths(r.AliasTemplate());
    var found := Match(q, alias).value;
    FitsWithoutEmpty(p, map[], found);
    PartsNotEmpty(q, found);
    assert PartsOf(q, found) == map[q.name := found.value.value] + PartsOf(q.next, found.rest);
  }

  /** "{code?}-{env}-{role?}-{nn}". */
  function TwoOptional(): Parsed {
    Part("", Token("code", 0, true), Part("-", Token("env", 0, false),
    Part("-", Token("role", 0, true), Part("-", Token("nn", 2, false), Last("")))))
  }

  lemma TwoOptionalText()
    ensures Written(TwoOptional()) == "{code?}-{env}-{role?}-{nn}"
  {
    var nn := Part("-", Token("nn", 2, false), Last(""));
    assert NameText(nn.tok) == ['n', 'n'];
    assert TokenText(nn.tok) == "{nn}";
  }

  lemma TwoOptionalPlain()
    ensures Plain(TwoOptional())
  {
    assert !IsNumberName("code") by { assert "code"[0] == 'c'; }
    assert !IsNumberName("env") by { assert "env"[0] == 'e'; }
    assert !IsNumberName("role") by { assert "role"[0] == 'r'; }
    var nn := Part("-", Token("nn", 2, false), Last(""));
    assert Plain(nn);
    var role := Part("-", Token("role", 0, true), nn);
    assert Plain(role);
    var env := Part("-", Token("env", 0, false), role);
    assert Plain(env);
  }

  /** The rules with that template and nothing listed. */
  function TwoOptionalRules(): Rules { Rules(Written(TwoOptional()), "", [], [], 0) }

  lemma TwoOptionalParts()
    ensures Lits(TwoOptional()) == ["", "-", "-", "-", ""]
    ensures Toks(TwoOptional()) == [Token("code", 0, true), Token("env", 0, false), Token("role", 0, true), Token("nn", 2, false)]
  {
  }

  lemma AcceptedParts(lits: seq<string>, toks: seq<Token>)
    requires lits == ["", "-", "-", "-", ""]
    requires toks == [Token("code", 0, true), Token("env", 0, false), Token("role", 0, true), Token("nn", 2, false)]
    ensures WellFormed(lits, toks)
  {
    assert toks[3].name == "nn";
    assert "code"[0] == 'c' && "env"[0] == 'e' && "role"[0] == 'r' && "nn"[0] == 'n';
  }

  lemma TwoOptionalScan()
    ensures TwoOptionalRules().AliasTemplate() == Written(TwoOptional())
    ensures Scan(Written(TwoOptional())) == TwoOptional()
    ensures AliasFault(Written(TwoOptional())).None?
  {
    var tpl := Written(TwoOptional());
    TwoOptionalText();
    TwoOptionalPlain();
    WrittenScans(TwoOptional());
    TwoOptionalParts();
    AcceptedParts(Lits(Scan(tpl)), Toks(Scan(tpl)));
    CheckAliasExact(tpl);
  }

  function EnvRole(): map<string, string> { map["env" := "a", "role" := "b"] }

  function CodeEnv(): map<string, string> { map["code" := "a", "env" := "b", "nn" := "00"] }

  lemma SameText()
    ensures Render(TwoOptional(), EnvRole()["nn" := "00"]) == "a-b-00" == Render(TwoOptional(), CodeEnv())
  {
    var nn := Part("-", Token("nn", 2, false), Last(""));
    var role := Part("-", Token("role", 0, true), nn);
    var env := Part("-", Token("env", 0, false), role);
    var a, b := EnvRole()["nn" := "00"], CodeEnv();
    assert Render(nn, a) == "-00" == Render(nn, b);
    assert Render(role, a) == "-b-00" && Render(role, b) == "-00";
    assert Render(env.(lit := ""), a) == "a-b-00";
    assert Render(env, b) == "-b-00";
  }

  lemma CodeEnvSuits()
    ensures Suits(TwoOptional(), CodeEnv())
  {
    var nn := Part("-", Token("nn", 2, false), Last(""));
    assert Suits(nn, CodeEnv());
    var role := Part("-", Token("role", 0, true), nn);
    assert Suits(role, CodeEnv());
    var env := Part("-", Token("env", 0, false), role);
    assert Suits(env, CodeEnv());
  }

  /** The alias of an env and a role, with no code, is read as having a code. */
  lemma TwoOptionalMisread()
    ensures Parse(TwoOptionalRules(), "a-b-00").Some?
    ensures Val(Parse(TwoOptionalRules(), "a-b-00").value, "code") != ""
    ensures Render(TwoOptional(), EnvRole()["nn" := "00"]) == "a-b-00" && "code" !in EnvRole()
  {
    TwoOptionalScan();
    SameText();
    CodeEnvSuits();
    FirstPartRead(TwoOptionalRules(), CodeEnv());
  }

  lemma EnvRoleValues(toks: seq<Token>)
    requires toks == [Token("code", 0, true), Token("env", 0, false), Token("role", 0, true), Token("nn", 2, false)]
    ensures FirstValueFault(toks, EnvRole()).None? && NumberWidth(toks) == 2
    ensures (map k | k in EnvRole() && Names(toks, k) :: EnvRole()[k]) == EnvRole()
  {
    assert toks[1].name == "env" && toks[2].name == "role" && toks[3].name == "nn";
    assert Names(toks, "env") && Names(toks, "role");
    assert forall i :: 0 <= i < 4 ==> ValueFault(toks[i], EnvRole()).None?;
    assert toks[3..][1..] == [];
    assert FirstValueFault(toks[3..], EnvRole()).None?;
    assert toks[2..][1..] == toks[3..] && toks[1..][1..] == toks[2..];
    assert FirstValueFault(toks[2..], EnvRole()).None?;
    assert FirstValueFault(toks[1..], EnvRole()).None?;
  }

  lemma EnvRoleNumbered()
    ensures GenerateFault(TwoOptionalRules(), EnvRole()).None?
    ensures Numbered(TwoOptionalRules(), EnvRole(), 0) == "a-b-00"
  {
    var r := TwoOptionalRules();
    TwoOptionalScan();
    TwoOptionalParts();
    EnvRoleValues(Toks(Scan(r.AliasTemplate())));
    SameText();
    PaddedZero();
    assert Fill(r, EnvRole(), 0) == EnvRole()["nn" := "00"];
  }

  lemma PaddedZero()
    ensures Padded(0, 2) == "00"
  {
    assert Decimal(0) == ['0'] && Zeros(1) == ['0'];
  }

  /** So Generate, asked for that env and role with "a-b-00" already taken, finds the
      number 0 free and hands "a-b-00" out again. */
  lemma GenerateReturnsTaken()
    ensures GenerateFault(TwoOptionalRules(), EnvRole()).None?
    ensures LowestFree(Used(Usage(TwoOptionalRules(), EnvRole()), ["a-b-00"]), TwoOptionalRules().start, 0)
    ensures Numbered(TwoOptionalRules(), EnvRole(), 0) == "a-b-00"
  {
    EnvRoleNumbered();
    TwoOptionalScan();
    TwoOptionalMisread();
    OtherKind(TwoOptionalRules(), EnvRole(), "a-b-00");
    NothingUsed(Used(Usage(TwoOptionalRules(), EnvRole()), ["a-b-00"]));
  }

  lemma NothingUsed(used: seq<Option<nat>>)
    requires |used| == 1 && used[0].None?
    ensures LowestFree(used, 0, 0)
  {
  }

  lemma OtherKind(r: Rules, parts: map<string, string>, name: string)
    requires Scan(r.AliasTemplate()) == TwoOptional()
    requires Parse(r, name).Some? && Val(Parse(r, name).value, "code") != Val(parts, "code")
    ensures NumberUsed(r, parts, name).None?
  {
    TwoOptionalParts();
    assert Toks(TwoOptional())[0].name == "code" != "nn";
  }

  // The earlier part of two given, and yet the later is read.

  /** "{env}x-{code?}-{nn}-{role?}". */
  function Lettered(): Parsed {
    Part("", Token("env", 0, false), Part("x-", Token("code", 0, true),
    Part("-", Token("nn", 2, false), Part("-", Token("role", 0, true), Last("")))))
  }

  lemma LetteredPlain()
    ensures Plain(Lettered()) && Written(Lettered()) != ""
  {
    assert !IsNumberName("code") by { assert "code"[0] == 'c'; }
    assert !IsNumberName("env") by { assert "env"[0] == 'e'; }
    assert !IsNumberName("role") by { assert "role"[0] == 'r'; }
    var role := Part("-", Token("role", 0, true), Last(""));
    assert Plain(role);
    var nn := Part("-", Token("nn", 2, false), role);
    assert Plain(nn);
    var code := Part("x-", Token("code", 0, true), nn);
    assert Plain(code);
    assert Written(Lettered())[0] == '{';
  }

  lemma LetteredParts(lits: seq<string>, toks: seq<Token>)
    requires lits == ["", "x-", "-", "-", ""]
    requires toks == [Token("env", 0, false), Token("code", 0, true), Token("nn", 2, false), Token("role", 0, true)]
    ensures WellFormed(lits, toks)
  {
    assert toks[2].name == "nn";
    assert "code"[0] == 'c' && "env"[0] == 'e' && "role"[0] == 'r' && "nn"[0] == 'n';
  }

  function LetteredRules(): Rules { Rules(Written(Lettered()), "", [], [], 0) }

  lemma LetteredAccepted()
    ensures Scan(LetteredRules().AliasTemplate()) == Lettered() && AliasFault(LetteredRules().AliasTemplate()).None?
  {
    LetteredPlain();
    WrittenScans(Lettered());
    assert Lits(Lettered()) == ["", "x-", "-", "-", ""];
    assert Toks(Lettered()) == [Token("env", 0, false), Token("code", 0, true), Token("nn", 2, false), Token("role", 0, true)];
    LetteredParts(Lits(Lettered()), Toks(Lettered()));
    CheckAliasExact(LetteredRules().AliasTemplate());
  }

  function LetteredPattern(): Pattern {
    Group("env", Word, "", "", false, Group("code", Word, "x-", "", true,
    Group("nn", Number(2), "-", "", false, Group("role", Word, "-", "", true, Tail("")))))
  }

  lemma LetteredGroups(lists: map<string, seq<string>>)
    requires forall k :: k in lists ==> lists[k] == []
    ensures PatternOf(Lettered(), lists) == LetteredPattern()
  {
    assert "code"[0] == 'c' && "env"[0] == 'e' && "role"[0] == 'r' && "nn"[0] == 'n';
    var role := Part("-", Token("role", 0, true), Last(""));
    assert PatternOf(role, lists) == Group("role", Word, "-", "", true, Tail(""));
    var nn := Part("-", Token("nn", 2, false), role);
    assert PatternOf(nn, lists) == Group("nn", Number(2), "-", "", false, PatternOf(role, lists));
    var code := Part("x-", Token("code", 0, true), nn);
    assert PatternOf(code, lists) == Group("code", Word, "x-", "", true, PatternOf(nn, lists));
  }

  function EnvCode(e: string, c: string, d: string): map<string, string> { map["env" := e, "code" := c, "nn" := d] }

  lemma Absent(p: Pattern, r: Reading)
    requires p.Group? && Fits(p, r) && r.value.None?
    ensures Spell(p, r) == Spell(p.next, r.rest)
  {
  }

  lemma Present(p: Pattern, v: string, rest: Reading)
    requires p.Group? && p.after == "" && Accepts(p.kind, v) && Fits(p.next, rest)
    ensures Fits(p, Read(Some(v), rest)) && Spell(p, Read(Some(v), rest)) == p.before + v + Spell(p.next, rest)
  {
    assert p.before + v + "" == p.before + v;
  }

  /** Two readings of one text: the code as code, and as the number. */
  lemma TwoReadings(e: string, c: string, d: string)
    requires AllAlnum(e) && e != "" && AllDigits(c) && |c| >= 2 && AllDigits(d) && |d| >= 2
    ensures var q := LetteredPattern();
            var rd, a := Read(Some(e), Read(Some(c), Read(Some(d), Read(None, NoMore)))),
                         Read(Some(e + "x"), Read(None, Read(Some(c), Read(Some(d), NoMore))));
            && Fits(q, a) && Fits(q, rd) && Spell(q, a) == Spell(q, rd) && Comes(q, a, rd)
  {
    var q := LetteredPattern();
    var code := q.next;
    var nn := code.next;
    var role := nn.next;
    var r1, a1 := Read(None, NoMore), Read(Some(d), NoMore);
    assert Fits(role.next, NoMore) && Fits(role, r1);
    Absent(role, r1);
    Present(role, d, NoMore);
    Present(nn, d, r1);
    Present(nn, c, a1);
    var r2, a2 := Read(Some(d), r1), Read(Some(c), a1);
    Present(code, c, r2);
    var r3, a3 := Read(Some(c), r2), Read(None, a2);
    assert Fits(code, a3);
    Absent(code, a3);
    Present(q, e, r3);
    Present(q, e + "x", a3);
    LetteredText(e, c, d);
  }

  lemma LetteredText(e: string, c: string, d: string)
    ensures "" + e + ("x-" + c + ("-" + d + "")) == "" + (e + "x") + ("-" + c + ("-" + d + ""))
  {
    assert "x-" == "x" + "-";
    assert e + ("x-" + c + ("-" + d)) == e + "x" + ("-" + c + ("-" + d));
  }

  lemma LetteredReading(e: string, c: string, d: string)
    requires e != "" && c != "" && d != ""
    ensures ReadingFor(LetteredPattern(), EnvCode(e, c, d)) == Read(Some(e), Read(Some(c), Read(Some(d), Read(None, NoMore))))
  {
    var vals, code := EnvCode(e, c, d), LetteredPattern().next;
    var nn := code.next;
    var role := nn.next;
    assert "code"[0] == 'c' && "env"[0] == 'e' && "role"[0] == 'r' && "nn"[0] == 'n';
    assert Val(vals, "env") == e && Val(vals, "code") == c && Val(vals, "nn") == d && Val(vals, "role") == "";
    assert ReadingFor(role, vals) == Read(None, NoMore);
    assert ReadingFor(nn, vals) == Read(Some(d), ReadingFor(role, vals));
    assert ReadingFor(code, vals) == Read(Some(c), ReadingFor(nn, vals));
  }

  lemma EnvCodeSuits(e: string, c: string, d: string)
    requires AllAlnum(e) && e != "" && AllDigits(c) && |c| >= 2 && AllDigits(d) && |d| >= 2
    ensures Suits(Lettered(), EnvCode(e, c, d))
  {
    assert "code"[0] == 'c' && "env"[0] == 'e' && "role"[0] == 'r' && "nn"[0] == 'n';
    var role := Part("-", Token("role", 0, true), Last(""));
    assert Suits(role, EnvCode(e, c, d));
    var nn := Part("-", Token("nn", 2, false), role);
    assert Suits(nn, EnvCode(e, c, d));
  }

  /** Where a separator holds a letter too, giving the earlier of two optional parts is no
      help: `{env}x-{code?}-{nn}-{role?}` with any env, code and number makes an alias
      whose env is read with the letter, and whose code is read as the number. */
  lemma EarlierGivenMisread(e: string, c: string, d: string)
    requires AllAlnum(e) && e != "" && AllDigits(c) && |c| >= 2 && AllDigits(d) && |d| >= 2
    ensures Scan(LetteredRules().AliasTemplate()) == Lettered() && AliasFault(LetteredRules().AliasTemplate()).None?
    ensures Suits(Lettered(), EnvCode(e, c, d))
    ensures Parse(LetteredRules(), Render(Lettered(), EnvCode(e, c, d))) != Some(Given(Lettered(), EnvCode(e, c, d)))
  {
    LetteredAccepted();
    EnvCodeSuits(e, c, d);
    LetteredGroups(LetteredRules().Lists());
    LetteredReading(e, c, d);
    TwoReadings(e, c, d);
    AnotherFirst(LetteredRules(), Lettered(), LetteredPattern(), EnvCode(e, c, d),
                 Read(Some(e + "x"), Read(None, Read(Some(c), Read(Some(d), NoMore)))));
  }

  lemma AnotherFirst(r: Rules, p: Parsed, q: Pattern, vals: map<string, string>, a: Reading)
    requires Rendered(r, p, q, ReadingFor(q, vals), vals)
    requires Fits(q, ReadingFor(q, vals)) && Fits(q, a) && Spell(q, a) == Spell(q, ReadingFor(q, vals))
    requires Comes(q, a, ReadingFor(q, vals))
    ensures Parse(r, Render(p, vals)) != Some(Given(p, vals))
  {
    RenderedReads(r, p, q, ReadingFor(q, vals), vals);
    ReadsBackExactly(r, p, q, ReadingFor(q, vals), vals);
  }

  // Which separators tell two required parts apart.

  /** v is a value the required part t can have. */
  predicate Usable(t: Token, v: string) {
    if t.name == "nn" then v != "" && AllDigits(v) && |v| >= t.width else v != "" && AllAlnum(v)
  }

  /** A hyphen or a dot tells any two parts apart, and a letter a number from another part. */
  predicate TellsApart(e: Token, sep: string, o: Token) {
    HasMark(sep) || ((e.name == "nn" || o.name == "nn") && !AllDigits(sep))
  }

  /** What is rendered before part k, which is required. */
  function Front(p: Parsed, k: nat, vals: map<string, string>): string
    requires k < |Toks(p)|
    decreases k
  {
    if k == 0 then p.lit
    else
      var v := Val(vals, p.tok.name);
      if v != "" || !p.tok.optional then p.lit + v + Front(p.rest, k - 1, vals)
      else if p.lit == "" then Blanked(p.rest); Front(p.rest.(lit := ""), k - 1, vals)
      else Front(p.rest, k - 1, vals)
  }

  /** What is rendered after the part behind it. */
  function Behind(p: Parsed, k: nat, vals: map<string, string>): string
    requires k + 1 < |Toks(p)|
    decreases k
  {
    assert |Toks(p)| == 1 + |Toks(p.rest)|;
    if k == 0 then Render(p.rest.rest, vals) else Behind(p.rest, k - 1, vals)
  }

  /** vals with x and y for parts k and k + 1. */
  function Pair(p: Parsed, k: nat, vals: map<string, string>, x: string, y: string): map<string, string>
    requires k + 1 < |Toks(p)|
  {
    vals[Toks(p)[k].name := x][Toks(p)[k + 1].name := y]
  }

  /** Part k and the one behind it are required, and no other part has their names. */
  predicate Adjacent(p: Parsed, k: nat) {
    && k + 1 < |Toks(p)| && !Toks(p)[k].optional && !Toks(p)[k + 1].optional
    && forall i, j :: 0 <= i < j < |Toks(p)| ==> Toks(p)[i].name != Toks(p)[j].name
  }

  lemma AdjacentRest(p: Parsed, k: nat, vals: map<string, string>, x: string, y: string)
    requires Adjacent(p, k) && k > 0
    ensures Adjacent(p.rest, k - 1) && Pair(p.rest, k - 1, vals, x, y) == Pair(p, k, vals, x, y)
    ensures Lits(p)[k + 1] == Lits(p.rest)[k] && Val(Pair(p, k, vals, x, y), p.tok.name) == Val(vals, p.tok.name)
  {
    assert forall i :: 0 <= i < |Toks(p.rest)| ==> Toks(p.rest)[i] == Toks(p)[i + 1];
    assert Toks(p)[0] == p.tok;
  }

  lemma PairFirst(p: Parsed, vals: map<string, string>, x: string, y: string)
    requires Adjacent(p, 0) && x != "" && y != ""
    ensures Render(p, Pair(p, 0, vals, x, y)) == p.lit + (x + Lits(p)[1] + y) + Behind(p, 0, vals)
  {
    var w := Pair(p, 0, vals, x, y);
    assert Toks(p) == [p.tok] + Toks(p.rest);
    var after := p.rest.rest;
    assert Toks(p) == [p.tok, p.rest.tok] + Toks(after) && Lits(p)[1] == p.rest.lit;
    forall t | t in Toks(after) ensures Val(w, t.name) == Val(vals, t.name) {
      var i :| 0 <= i < |Toks(after)| && Toks(after)[i] == t;
      assert Toks(p)[i + 2] == t;
    }
    RenderIgnores(after, w, vals);
    assert Toks(p)[0].name != Toks(p)[1].name;
    Regroup(p.lit, x, p.rest.lit + y, Render(after, vals));
    assert x + (p.rest.lit + y) == x + p.rest.lit + y;
  }

  /** The template behind its first part, and the text of that part. */
  function RestOf(p: Parsed, vals: map<string, string>): (rest: Parsed)
    requires p.Part?
    ensures Toks(rest) == Toks(p.rest) && forall i :: 0 < i <= |Toks(rest)| ==> Lits(rest)[i] == Lits(p.rest)[i]
  {
    Blanked(p.rest);
    if Val(vals, p.tok.name) == "" && p.tok.optional && p.lit == "" then p.rest.(lit := "") else p.rest
  }

  function FirstText(p: Parsed, vals: map<string, string>): string
    requires p.Part?
  {
    if Val(vals, p.tok.name) != "" || !p.tok.optional then p.lit + Val(vals, p.tok.name) else ""
  }

  lemma FrontStep(p: Parsed, k: nat, vals: map<string, string>, w: map<string, string>)
    requires 0 < k && k + 1 < |Toks(p)| && Val(w, p.tok.name) == Val(vals, p.tok.name)
    ensures Front(p, k, vals) == FirstText(p, vals) + Front(RestOf(p, vals), k - 1, vals)
    ensures Render(p, w) == FirstText(p, vals) + Render(RestOf(p, vals), w)
    ensures Behind(p, k, vals) == Behind(RestOf(p, vals), k - 1, vals)
  {
  }

  /** The alias, as the text around the two values. */
  lemma {:induction false} PairText(p: Parsed, k: nat, vals: map<string, string>, x: string, y: string)
    requires Adjacent(p, k) && x != "" && y != ""
    ensures Render(p, Pair(p, k, vals, x, y)) == Front(p, k, vals) + (x + Lits(p)[k + 1] + y) + Behind(p, k, vals)
    decreases k
  {
    if k == 0 {
      PairFirst(p, vals, x, y);
    } else {
      var rest := RestOf(p, vals);
      AdjacentRest(p, k, vals, x, y);
      FrontStep(p, k, vals, Pair(p, k, vals, x, y));
      PairText(rest, k - 1, vals, x, y);
      Regroup(FirstText(p, vals), Front(rest, k - 1, vals), x + Lits(p)[k + 1] + y, Behind(p, k, vals));
    }
  }

  lemma Regroup(a: string, b: string, c: string, d: string)
    ensures a + (b + c + d) == a + b + c + d == a + (b + c) + d
  {
  }

  lemma {:induction false} SuitsEach(p: Parsed, vals: map<string, string>)
    ensures Suits(p, vals) <==>
            forall t :: t in Toks(p) ==> Usable(t, Val(vals, t.name)) || (t.name != "nn" && t.optional && Val(vals, t.name) == "")
  {
    if p.Part? {
      SuitsEach(p.rest, vals);
      assert p.tok in Toks(p) && forall t :: t in Toks(p.rest) ==> t in Toks(p);
    }
  }

  lemma PairSuits(p: Parsed, k: nat, vals: map<string, string>, x: string, y: string)
    requires Adjacent(p, k) && Suits(p, vals)
    ensures Suits(p, Pair(p, k, vals, x, y)) <==> Usable(Toks(p)[k], x) && Usable(Toks(p)[k + 1], y)
  {
    var w := Pair(p, k, vals, x, y);
    SuitsEach(p, vals);
    SuitsEach(p, w);
    assert Val(w, Toks(p)[k].name) == x && Val(w, Toks(p)[k + 1].name) == y;
    forall t | t in Toks(p) && t != Toks(p)[k] && t != Toks(p)[k + 1] ensures Val(w, t.name) == Val(vals, t.name) {
      var i :| 0 <= i < |Toks(p)| && Toks(p)[i] == t;
    }
    assert Toks(p)[k] in Toks(p) && Toks(p)[k + 1] in Toks(p);
  }

  /** Whatever else an alias holds, it settles the values of part k and the one behind. */
  ghost predicate Settled(p: Parsed, k: nat, vals: map<string, string>)
    requires Adjacent(p, k)
  {
    forall x, y, u, v ::
      (&& Suits(p, Pair(p, k, vals, x, y)) && Suits(p, Pair(p, k, vals, u, v))
       && Render(p, Pair(p, k, vals, x, y)) == Render(p, Pair(p, k, vals, u, v))) ==> x == u && y == v
  }

  /** The last character that is no digit is the separator's, when a number follows. */
  lemma NumberBehind(x: string, sep: string, y: string, k: nat)
    requires k < |sep| && !IsDigit(sep[k]) && (forall i :: k < i < |sep| ==> IsDigit(sep[i])) && AllDigits(y)
    ensures var t := x + sep + y; !IsDigit(t[|x| + k]) && forall i :: |x| + k < i < |t| ==> IsDigit(t[i])
  {
    var t := x + sep + y;
    assert t[|x| + k] == sep[k];
    assert forall i :: |x| + k < i < |t| ==> t[i] == if i < |x| + |sep| then sep[i - |x|] else y[i - |x| - |sep|];
  }

  /** The first, when a number comes before. */
  lemma NumberBefore(x: string, sep: string, y: string, k: nat)
    requires k < |sep| && !IsDigit(sep[k]) && (forall i :: 0 <= i < k ==> IsDigit(sep[i])) && AllDigits(x)
    ensures var t := x + sep + y; !IsDigit(t[|x| + k]) && forall i :: 0 <= i < |x| + k ==> IsDigit(t[i])
  {
    var t := x + sep + y;
    assert t[|x| + k] == sep[k];
    assert forall i :: 0 <= i < |x| + k ==> t[i] == if i < |x| then x[i] else sep[i - |x|];
  }

  /** The last character that is no digit, and the first. */
  lemma {:induction false} LastOther(s: string) returns (k: nat)
    requires !AllDigits(s)
    ensures k < |s| && !IsDigit(s[k]) && forall i :: k < i < |s| ==> IsDigit(s[i])
  {
    k := |s| - 1;
    if IsDigit(s[k]) { k := LastOther(s[..k]); }
  }

  lemma {:induction false} FirstOther(s: string) returns (k: nat)
    requires !AllDigits(s)
    ensures k < |s| && !IsDigit(s[k]) && forall i :: 0 <= i < k ==> IsDigit(s[i])
  {
    k := 0;
    if IsDigit(s[0]) {
      k := FirstOther(s[1..]);
      k := k + 1;
    }
  }

  /** The two values, told apart. */
  lemma PairTold(e: Token, sep: string, o: Token, x: string, y: string, u: string, v: string)
    requires TellsApart(e, sep, o) && x + sep + y == u + sep + v
    requires Usable(e, x) && Usable(o, y) && Usable(e, u) && Usable(o, v)
    ensures x == u && y == v
  {
    var s, t := x + sep + y, u + sep + v;
    assert s == x + (sep + y) && t == u + (sep + v);
    if HasMark(sep) {
      FirstMarkOf(sep, y);
      FirstMarkOf(sep, v);
      ValueEnds(x, u, sep + y, sep + v);
      assert (sep + y)[|sep|..] == y && (sep + v)[|sep|..] == v;
    } else {
      if o.name == "nn" {
        var k := LastOther(sep);
        NumberBehind(x, sep, y, k);
        NumberBehind(u, sep, v, k);
        SameLast(s, |x| + k, |u| + k);
      } else {
        var k := FirstOther(sep);
        NumberBefore(x, sep, y, k);
        NumberBefore(u, sep, v, k);
        SameFirstOther(s, |x| + k, |u| + k);
      }
      assert t[..|x|] == x && t[..|u|] == u && t[|x| + |sep|..] == y && t[|u| + |sep|..] == v;
    }
  }

  lemma SameLast(t: string, i: nat, j: nat)
    requires i < |t| && j < |t| && !IsDigit(t[i]) && !IsDigit(t[j])
    requires (forall k :: i < k < |t| ==> IsDigit(t[k])) && (forall k :: j < k < |t| ==> IsDigit(t[k]))
    ensures i == j
  {
  }

  lemma SameFirstOther(t: string, i: nat, j: nat)
    requires i < |t| && j < |t| && !IsDigit(t[i]) && !IsDigit(t[j])
    requires (forall k :: 0 <= k < i ==> IsDigit(t[k])) && (forall k :: 0 <= k < j ==> IsDigit(t[k]))
    ensures i == j
  {
  }

  lemma Cancel(a: string, b: string, c: string, d: string)
    requires a + b + d == a + c + d
    ensures b == c
  {
    var t := a + b + d;
    assert b == t[|a|..|t| - |d|] && c == t[|a|..|t| - |d|];
  }

  /** Zeros enough for the part t. */
  function Some0(t: Token): (s: string)
    ensures Usable(t, s) && AllDigits(s)
  {
    Zeros(if t.width == 0 then 1 else t.width)
  }

  /** Two choices of values for parts k and k + 1 that make one alias, unless their
      separator tells them apart: the separator again, as part of either value. */
  lemma TwoChoices(p: Parsed, k: nat, vals: map<string, string>) returns (one: map<string, string>, two: map<string, string>)
    requires Adjacent(p, k) && Suits(p, vals) && HostText(Lits(p)[k + 1])
    requires !TellsApart(Toks(p)[k], Lits(p)[k + 1], Toks(p)[k + 1]) && Lits(p)[k + 1] != ""
    ensures Suits(p, one) && Suits(p, two) && Render(p, one) == Render(p, two)
    ensures Given(p, one) != Given(p, two)
    ensures !Settled(p, k, vals)
  {
    var e, sep, o := Toks(p)[k], Lits(p)[k + 1], Toks(p)[k + 1];
    var x, y := Some0(e), Some0(o);
    Unmarked(sep);
    one, two := Pair(p, k, vals, x, sep + y), Pair(p, k, vals, x + sep, y);
    PairSuits(p, k, vals, x, sep + y);
    PairSuits(p, k, vals, x + sep, y);
    PairText(p, k, vals, x, sep + y);
    PairText(p, k, vals, x + sep, y);
    assert x + sep + (sep + y) == x + sep + sep + y;
    PairGiven(p, k, vals, x, sep + y);
    PairGiven(p, k, vals, x + sep, y);
    assert |x| < |x + sep|;
  }

  lemma PairGiven(p: Parsed, k: nat, vals: map<string, string>, x: string, y: string)
    requires Adjacent(p, k) && x != ""
    ensures Toks(p)[k].name in Given(p, Pair(p, k, vals, x, y)) && Given(p, Pair(p, k, vals, x, y))[Toks(p)[k].name] == x
  {
    assert Names(Toks(p), Toks(p)[k].name) && Toks(p)[k].name != Toks(p)[k + 1].name;
  }

  lemma Unmarked(s: string)
    requires HostText(s) && !HasMark(s)
    ensures AllAlnum(s)
  {
    forall i | 0 <= i < |s| ensures IsAlnum(s[i]) { assert !IsMark(s[i]); }
  }

  /** In any template the check lets through, an alias settles the values of two required
      parts that follow each other exactly when their separator tells them apart. */
  lemma SettledExactly(r: Rules, k: nat, vals: map<string, string>)
    requires AliasFault(r.AliasTemplate()).None? && Suits(Scan(r.AliasTemplate()), vals)
    requires Adjacent(Scan(r.AliasTemplate()), k)
    ensures var p := Scan(r.AliasTemplate());
            Settled(p, k, vals) <==> TellsApart(Toks(p)[k], Lits(p)[k + 1], Toks(p)[k + 1])
  {
    var p := Scan(r.AliasTemplate());
    CheckAliasExact(r.AliasTemplate());
    var e, sep, o := Toks(p)[k], Lits(p)[k + 1], Toks(p)[k + 1];
    if TellsApart(e, sep, o) {
      forall x, y, u, v | Suits(p, Pair(p, k, vals, x, y)) && Suits(p, Pair(p, k, vals, u, v))
                          && Render(p, Pair(p, k, vals, x, y)) == Render(p, Pair(p, k, vals, u, v))
        ensures x == u && y == v
      {
        PairSuits(p, k, vals, x, y);
        PairSuits(p, k, vals, u, v);
        PairText(p, k, vals, x, y);
        PairText(p, k, vals, u, v);
        Cancel(Front(p, k, vals), x + sep + y, u + sep + v, Behind(p, k, vals));
        PairTold(e, sep, o, x, y, u, v);
      }
    } else {
      var one, two := TwoChoices(p, k, vals);
    }
  }

  /** So where it does not, Parse gives back one of two usable choices of values at most. */
  lemma UntoldMisread(r: Rules, k: nat, vals: map<string, string>) returns (bad: map<string, string>)
    requires AliasFault(r.AliasTemplate()).None? && Suits(Scan(r.AliasTemplate()), vals)
    requires Adjacent(Scan(r.AliasTemplate()), k)
    requires var p := Scan(r.AliasTemplate()); !TellsApart(Toks(p)[k], Lits(p)[k + 1], Toks(p)[k + 1])
    ensures var p := Scan(r.AliasTemplate()); Suits(p, bad) && Parse(r, Render(p, bad)) != Some(Given(p, bad))
  {
    var p := Scan(r.AliasTemplate());
    CheckAliasExact(r.AliasTemplate());
    var one, two := TwoChoices(p, k, vals);
    bad := if Parse(r, Render(p, one)) == Some(Given(p, one)) then two else one;
  }
}
