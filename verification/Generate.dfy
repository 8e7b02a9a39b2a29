/** The next free alias, and whether an alias breaks the rules. */
module Generate {
  import opened Text
  import opened Template
  import opened Unambiguous
  import opened Naming
  import opened Alias

  // Violations.

  datatype Breach = DoesNotFollow | OtherCode(found: string) | UnlistedEnv(env: string) | UnlistedRole(role: string)

  /** Why alias breaks r for a profile whose code is `code`, or None. */
  function Violation(r: Rules, alias: string, code: string): Option<Breach> {
    match Parse(r, alias)
    case None => Some(DoesNotFollow)
    case Some(parts) =>
      var c, env, role := Val(parts, "code"), Val(parts, "env"), Val(parts, "role");
      if code != "" && c != "" && c != code then Some(OtherCode(c))
      else if r.envs != [] && env != "" && env !in r.envs then Some(UnlistedEnv(env))
      else if r.roles != [] && role != "" && role !in r.roles then Some(UnlistedRole(role))
      else None
  }

  /** An alias follows the template if and only if some usable values render as it. */
  lemma FollowsExactly(r: Rules, alias: string, code: string)
    requires r.ListsOk()
    ensures Violation(r, alias, code) == Some(DoesNotFollow) <==>
            AliasFault(r.AliasTemplate()).Some?
            || !exists vals :: Suits(Scan(r.AliasTemplate()), vals) && Render(Scan(r.AliasTemplate()), vals) == alias
  {
    var p := Scan(r.AliasTemplate());
    if AliasFault(r.AliasTemplate()).None? {
      if Parse(r, alias).Some? { ParseThenRender(r, alias); }
      if vals :| Suits(p, vals) && Render(p, vals) == alias { RenderingFollows(r, vals); }
    }
  }

  /** The value vals gives a part of p, if p has that part. */
  function Has(p: Parsed, vals: map<string, string>, name: string): string {
    if Names(Toks(p), name) then Val(vals, name) else ""
  }

  predicate Unlisted(list: seq<string>, v: string) { list != [] && v != "" && v !in list }

  /** What is said of an alias is the first thing wrong with the values it was made of:
      another profile's code, then an env that is not listed, then such a role. */
  lemma ViolationOfValues(r: Rules, vals: map<string, string>, code: string)
    requires r.ListsOk() && AliasFault(r.AliasTemplate()).None?
    requires var p := Scan(r.AliasTemplate());
             Separated(Lits(p), Toks(p)) && Told(OptionalMarks(p), OptionalGiven(p, vals)) && Suits(p, vals)
    ensures var p := Scan(r.AliasTemplate());
            var c, env, role := Has(p, vals, "code"), Has(p, vals, "env"), Has(p, vals, "role");
            var other, v := c != code && c != "" && code != "", Violation(r, Render(p, vals), code);
            && (v.None? <==> !other && !Unlisted(r.envs, env) && !Unlisted(r.roles, role))
            && (v.Some? && v.value.OtherCode? <==> other)
            && (v.Some? && v.value.UnlistedEnv? <==> !other && Unlisted(r.envs, env))
            && (v.Some? ==> v.value in {OtherCode(c), UnlistedEnv(env), UnlistedRole(role)})
  {
    RenderThenParse(r, vals);
  }

  // Generation.

  datatype GenerateError =
    | BadTemplate(err: AliasError)
    | NoCode
    | Needs(part: string)
    | BadValue(part: string)
    | NotListed(part: string)

  /** What is wrong with the value asked for part t. */
  function ValueFault(t: Token, parts: map<string, string>): Option<GenerateError> {
    var v := Val(parts, t.name);
    if t.name == "nn" then None
    else if v == "" then
      if t.optional then None else if t.name == "code" then Some(NoCode) else Some(Needs(t.name))
    else if !AllAlnum(v) then Some(BadValue(t.name))
    else None
  }

  function FirstValueFault(toks: seq<Token>, parts: map<string, string>): Option<GenerateError> {
    if toks == [] then None
    else if ValueFault(toks[0], parts).Some? then ValueFault(toks[0], parts)
    else FirstValueFault(toks[1..], parts)
  }

  /** Why no alias can be made for parts, in the order the code asks. */
  function GenerateFault(r: Rules, parts: map<string, string>): Option<GenerateError> {
    if AliasFault(r.AliasTemplate()).Some? then Some(BadTemplate(AliasFault(r.AliasTemplate()).value))
    else if FirstValueFault(Toks(Scan(r.AliasTemplate())), parts).Some? then
      FirstValueFault(Toks(Scan(r.AliasTemplate())), parts)
    else if r.envs != [] && Val(parts, "env") != "" && Val(parts, "env") !in r.envs then Some(NotListed("env"))
    else if r.roles != [] && Val(parts, "role") != "" && Val(parts, "role") !in r.roles then Some(NotListed("role"))
    else None
  }

  /** A value is usable for its part: letters and digits, or nothing for an optional one. */
  predicate UsableFor(t: Token, v: string) { t.name == "nn" || if v == "" then t.optional else AllAlnum(v) }

  lemma {:induction false} FirstFaultAt(toks: seq<Token>, parts: map<string, string>) returns (i: nat)
    ensures i <= |toks| && forall j :: 0 <= j < i ==> UsableFor(toks[j], Val(parts, toks[j].name))
    ensures i == |toks| ==> FirstValueFault(toks, parts).None?
    ensures i < |toks| ==> !UsableFor(toks[i], Val(parts, toks[i].name)) && FirstValueFault(toks, parts) == ValueFault(toks[i], parts)
  {
    i := 0;
    if toks != [] && UsableFor(toks[0], Val(parts, toks[0].name)) {
      i := FirstFaultAt(toks[1..], parts);
      i := i + 1;
    }
  }

  /** What is reported is true of the values, and with nothing to report they can all be
      used. */
  lemma FaultIsTrue(r: Rules, parts: map<string, string>)
    ensures var f, toks := GenerateFault(r, parts), Toks(Scan(r.AliasTemplate()));
            && (f.None? <==> AliasFault(r.AliasTemplate()).None? && (forall t :: t in toks ==> UsableFor(t, Val(parts, t.name)))
                             && !Unlisted(r.envs, Val(parts, "env")) && !Unlisted(r.roles, Val(parts, "role")))
            && (f.Some? ==>
                  match f.value
                  case BadTemplate(e) => AliasFault(r.AliasTemplate()) == Some(e)
                  case NoCode => exists t :: t in toks && t.name == "code" && !t.optional && Val(parts, "code") == ""
                  case Needs(p) => exists t :: t in toks && t.name == p && !t.optional && Val(parts, p) == ""
                  case BadValue(p) => exists t :: t in toks && t.name == p && !AllAlnum(Val(parts, p))
                  case NotListed(p) => if p == "env" then Unlisted(r.envs, Val(parts, p)) else p == "role" && Unlisted(r.roles, Val(parts, p)))
  {
    var toks := Toks(Scan(r.AliasTemplate()));
    var i := FirstFaultAt(toks, parts);
    assert i < |toks| ==> toks[i] in toks;
  }

  /** found has the same parts as the ones asked for, the number aside. */
  predicate SameKind(toks: seq<Token>, found: map<string, string>, parts: map<string, string>) {
    forall i :: 0 <= i < |toks| && toks[i].name != "nn" ==> Val(found, toks[i].name) == Val(parts, toks[i].name)
  }

  /** The number a name already taken uses up for servers of this kind. */
  function NumberUsed(r: Rules, parts: map<string, string>, name: string): Option<nat> {
    match Parse(r, name)
    case None => None
    case Some(found) =>
      if SameKind(Toks(Scan(r.AliasTemplate())), found, parts) then Atoi(Val(found, "nn")) else None
  }

  function Usage(r: Rules, parts: map<string, string>): string -> Option<nat> {
    name => NumberUsed(r, parts, name)
  }

  /** The number each taken name uses up, if any. */
  function Used(usage: string -> Option<nat>, taken: seq<string>): (ns: seq<Option<nat>>)
    ensures |ns| == |taken|
    ensures forall i :: 0 <= i < |taken| ==> ns[i] == usage(taken[i])
  {
    seq(|taken|, i requires 0 <= i < |taken| => usage(taken[i]))
  }

  /** n is the lowest number from start that is not used. */
  ghost predicate LowestFree(used: seq<Option<nat>>, start: nat, n: nat) {
    && start <= n && Some(n) !in used
    && forall k: nat :: start <= k < n ==> Some(k) in used
  }

  /** The number's width: the last number part's, or 2 with none. */
  function NumberWidth(toks: seq<Token>): nat {
    if toks == [] then 2
    else if toks[|toks| - 1].name == "nn" then toks[|toks| - 1].width
    else NumberWidth(toks[..|toks| - 1])
  }

  /** The values the alias numbered n is rendered from. */
  function Fill(r: Rules, parts: map<string, string>, n: nat): map<string, string> {
    var toks := Toks(Scan(r.AliasTemplate()));
    (map k | k in parts && Names(toks, k) :: parts[k])["nn" := Padded(n, NumberWidth(toks))]
  }

  /** The alias numbered n. */
  function Numbered(r: Rules, parts: map<string, string>, n: nat): string {
    Render(Scan(r.AliasTemplate()), Fill(r, parts, n))
  }

  /** The values asked for, checked part by part, and the number's width. */
  method CheckValues(toks: seq<Token>, parts: map<string, string>) returns (fault: Option<GenerateError>, width: nat)
    ensures fault == FirstValueFault(toks, parts)
    ensures fault.None? ==> width == NumberWidth(toks)
  {
    width := 2;
    var i := 0;
    assert toks[0..] == toks;
    while i < |toks|
      invariant 0 <= i <= |toks| && width == NumberWidth(toks[..i])
      invariant FirstValueFault(toks, parts) == FirstValueFault(toks[i..], parts)
    {
      var t := toks[i];
      assert toks[i..][1..] == toks[i + 1..] && toks[..i + 1][..i] == toks[..i];
      if t.name == "nn" {
        width := t.width;
      } else {
        var v := Val(parts, t.name);
        if v == "" {
          if !t.optional { return Some(if t.name == "code" then NoCode else Needs(t.name)), width; }
        } else if !AllAlnum(v) {
          return Some(BadValue(t.name)), width;
        }
      }
      i := i + 1;
    }
    assert toks[..i] == toks;
    fault := None;
  }

  /** The lowest number from start that no taken name uses. */
  method LowestNumber(taken: seq<Option<nat>>, start: nat) returns (n: nat)
    ensures LowestFree(taken, start, n) && n <= start + |taken|
  {
    var used: set<nat> := {};
    for i := 0 to |taken|
      invariant |used| <= i
      invariant forall k: nat :: k in used <==> Some(k) in taken[..i]
    {
      assert taken[..i + 1] == taken[..i] + [taken[i]];
      if taken[i].Some? { used := used + {taken[i].value}; }
    }
    assert taken[..|taken|] == taken;
    n := start;
    while n in used
      invariant start <= n
      invariant forall k: nat :: start <= k < n ==> k in used
      decreases |used| - (n - start)
    {
      IntervalFits(used, start, n + 1);
      n := n + 1;
    }
    IntervalFits(used, start, n);
  }

  /** vals has, for each part of the template, what an alias numbered n is asked to have:
      the value given or, for the number, n in as many digits as the template says. */
  ghost predicate AsAsked(r: Rules, parts: map<string, string>, n: nat, vals: map<string, string>) {
    var toks := Toks(Scan(r.AliasTemplate()));
    forall i :: 0 <= i < |toks| ==>
      if toks[i].name == "nn" then SpelledIn(Val(vals, "nn"), n, toks[i].width)
      else Val(vals, toks[i].name) == Val(parts, toks[i].name)
  }

  /** An alias can be made for parts, and each way to read it tells them apart. */
  ghost predicate Readable(r: Rules, parts: map<string, string>) {
    var p := Scan(r.AliasTemplate());
    && r.ListsOk() && GenerateFault(r, parts).None?
    && Separated(Lits(p), Toks(p)) && Told(OptionalMarks(p), OptionalGiven(p, parts))
  }

  /** The values to render: those asked for, and the number. */
  method FillIn(toks: seq<Token>, parts: map<string, string>, n: nat, width: nat) returns (fill: map<string, string>)
    ensures fill.Keys == (set t | t in toks :: t.name) + {"nn"} && fill["nn"] == Padded(n, width)
    ensures forall t :: t in toks && t.name != "nn" ==> fill[t.name] == Val(parts, t.name)
  {
    fill := map["nn" := Padded(n, width)];
    for i := 0 to |toks|
      invariant fill.Keys == (set t | t in toks[..i] :: t.name) + {"nn"} && fill["nn"] == Padded(n, width)
      invariant forall t :: t in toks[..i] && t.name != "nn" ==> fill[t.name] == Val(parts, t.name)
    {
      if toks[i].name != "nn" { fill := fill[toks[i].name := Val(parts, toks[i].name)]; }
      assert toks[..i + 1] == toks[..i] + [toks[i]];
    }
    assert toks[..|toks|] == toks;
  }

  /** The next alias: check what was asked for, find the lowest number no taken name
      of this kind uses, render. */
  method Generate(r: Rules, parts: map<string, string>, taken: seq<string>) returns (res: Result<string, GenerateError>, n: nat)
    requires 0 <= r.start
    ensures res.Err? <==> GenerateFault(r, parts).Some?
    ensures res.Err? ==> res.error == GenerateFault(r, parts).value
    ensures res.Ok? ==> LowestFree(Used(Usage(r, parts), taken), r.start, n) && res.value == Numbered(r, parts, n)
    ensures res.Ok? ==> n <= r.start + |taken|
    ensures res.Ok? ==> forall vals :: AsAsked(r, parts, n, vals) ==> res.value == Render(Scan(r.AliasTemplate()), vals)
    ensures Readable(r, parts) && n <= MAX_INT ==> res.Ok? && res.value !in taken
    ensures Readable(r, parts) && n <= MAX_INT ==> Parse(r, res.value).Some? && AsAsked(r, parts, n, Parse(r, res.value).value)
  {
    n := r.start;
    var bad := CheckAlias(r.AliasTemplate());
    if bad.Some? { return Err(BadTemplate(bad.value)), n; }
    var lits, toks := ParseTemplate(r.AliasTemplate());
    var fault, width := CheckValues(toks, parts);
    if fault.Some? { return Err(fault.value), n; }
    if r.envs != [] && Val(parts, "env") != "" && Val(parts, "env") !in r.envs { return Err(NotListed("env")), n; }
    if r.roles != [] && Val(parts, "role") != "" && Val(parts, "role") !in r.roles { return Err(NotListed("role")), n; }
    n := LowestNumber(Used(Usage(r, parts), taken), r.start);
    var fill := FillIn(toks, parts, n, width);
    var alias := RenderText(r.AliasTemplate(), fill);
    res := Ok(alias);
    FilledAsAsked(r, parts, n, fill, width);
    AliasAsAsked(r, parts, taken, n);
  }

  lemma {:induction false} IntervalFits(used: set<nat>, start: nat, n: nat)
    requires start <= n && forall k: nat :: start <= k < n ==> k in used
    ensures n - start <= |used|
    decreases n
  {
    if start < n { IntervalFits(used - {n - 1}, start, n - 1); }
  }

  // The laws of a generated alias.

  /** The parts asked for, with the number n. */
  function Requested(r: Rules, parts: map<string, string>, n: nat): map<string, string> {
    Given(Scan(r.AliasTemplate()), Fill(r, parts, n))
  }

  lemma {:induction false} WidthOf(toks: seq<Token>, i: nat)
    requires i < |toks| && toks[i].name == "nn"
    requires forall j, k :: 0 <= j < k < |toks| ==> toks[j].name != toks[k].name
    ensures NumberWidth(toks) == toks[i].width
  {
    if i < |toks| - 1 { WidthOf(toks[..|toks| - 1], i); }
  }

  /** What was filled in is as asked. */
  lemma FilledAsAsked(r: Rules, parts: map<string, string>, n: nat, fill: map<string, string>, width: nat)
    requires GenerateFault(r, parts).None?
    requires var toks := Toks(Scan(r.AliasTemplate()));
             && width == NumberWidth(toks) && "nn" in fill && fill["nn"] == Padded(n, width)
             && forall t :: t in toks && t.name != "nn" ==> Val(fill, t.name) == Val(parts, t.name)
    ensures AsAsked(r, parts, n, fill)
  {
    var toks := Toks(Scan(r.AliasTemplate()));
    CheckAliasExact(r.AliasTemplate());
    forall i | 0 <= i < |toks|
      ensures if toks[i].name == "nn" then SpelledIn(Val(fill, "nn"), n, toks[i].width)
              else Val(fill, toks[i].name) == Val(parts, toks[i].name)
    {
      if toks[i].name == "nn" {
        WidthOf(toks, i);
        PaddedExactly(fill["nn"], n, width);
      }
    }
  }

  /** Any values as asked render as the alias numbered n. */
  lemma NumberedAsAsked(r: Rules, parts: map<string, string>, n: nat, vals: map<string, string>)
    requires GenerateFault(r, parts).None? && AsAsked(r, parts, n, vals)
    ensures Numbered(r, parts, n) == Render(Scan(r.AliasTemplate()), vals)
  {
    var p, fill := Scan(r.AliasTemplate()), Fill(r, parts, n);
    FillAsAsked(r, parts, n);
    forall t | t in Toks(p) ensures Val(fill, t.name) == Val(vals, t.name) {
      var i :| 0 <= i < |Toks(p)| && Toks(p)[i] == t;
      if t.name == "nn" {
        PaddedExactly(Val(fill, "nn"), n, t.width);
        PaddedExactly(Val(vals, "nn"), n, t.width);
      }
    }
    RenderIgnores(p, fill, vals);
  }

  lemma FillAsAsked(r: Rules, parts: map<string, string>, n: nat)
    requires GenerateFault(r, parts).None?
    ensures AsAsked(r, parts, n, Fill(r, parts, n))
  {
    var toks := Toks(Scan(r.AliasTemplate()));
    forall t | t in toks && t.name != "nn" ensures Val(Fill(r, parts, n), t.name) == Val(parts, t.name) {
      var i :| 0 <= i < |toks| && toks[i] == t;
      assert Names(toks, t.name);
    }
    FilledAsAsked(r, parts, n, Fill(r, parts, n), NumberWidth(toks));
  }

  /** What the alias is to be read as is what was asked for, and nothing besides. */
  lemma RequestedAsAsked(r: Rules, parts: map<string, string>, n: nat)
    requires GenerateFault(r, parts).None?
    ensures AsAsked(r, parts, n, Requested(r, parts, n))
    ensures forall k :: k in Requested(r, parts, n) ==> Names(Toks(Scan(r.AliasTemplate())), k) && Requested(r, parts, n)[k] != ""
  {
    var toks := Toks(Scan(r.AliasTemplate()));
    FillAsAsked(r, parts, n);
    forall i | 0 <= i < |toks| ensures Val(Requested(r, parts, n), toks[i].name) == Val(Fill(r, parts, n), toks[i].name) {
      assert Names(toks, toks[i].name);
    }
  }

  lemma AliasAsAsked(r: Rules, parts: map<string, string>, taken: seq<string>, n: nat)
    requires 0 <= r.start && GenerateFault(r, parts).None? && LowestFree(Used(Usage(r, parts), taken), r.start, n)
    ensures var alias := Numbered(r, parts, n);
            && (forall vals :: AsAsked(r, parts, n, vals) ==> alias == Render(Scan(r.AliasTemplate()), vals))
            && (Readable(r, parts) && n <= MAX_INT ==>
                  alias !in taken && Parse(r, alias).Some? && AsAsked(r, parts, n, Parse(r, alias).value))
  {
    forall vals | AsAsked(r, parts, n, vals) ensures Numbered(r, parts, n) == Render(Scan(r.AliasTemplate()), vals) {
      NumberedAsAsked(r, parts, n, vals);
    }
    if Readable(r, parts) && n <= MAX_INT {
      GeneratedIsFresh(r, parts, taken, n, "");
      RequestedAsAsked(r, parts, n);
    }
  }

  lemma {:induction false} NoValueFault(toks: seq<Token>, parts: map<string, string>)
    requires FirstValueFault(toks, parts).None?
    ensures forall i :: 0 <= i < |toks| ==> ValueFault(toks[i], parts).None?
  {
    if toks != [] {
      NoValueFault(toks[1..], parts);
      assert forall i :: 0 < i < |toks| ==> toks[i] == toks[1..][i - 1];
    }
  }

  lemma {:induction false} SuitsAll(p: Parsed, vals: map<string, string>)
    requires forall i :: 0 <= i < |Toks(p)| ==>
               var t, v := Toks(p)[i], Val(vals, Toks(p)[i].name);
               if t.name == "nn" then v != "" && AllDigits(v) && |v| >= t.width
               else AllAlnum(v) && (v == "" ==> t.optional)
    ensures Suits(p, vals)
  {
    if p.Part? {
      assert Toks(p)[0] == p.tok;
      assert forall i :: 0 <= i < |Toks(p.rest)| ==> Toks(p.rest)[i] == Toks(p)[i + 1];
      SuitsAll(p.rest, vals);
    }
  }

  /** What the alias is rendered from suits the template. */
  lemma FillSuits(r: Rules, parts: map<string, string>, n: nat)
    requires GenerateFault(r, parts).None?
    ensures Suits(Scan(r.AliasTemplate()), Fill(r, parts, n))
  {
    var p := Scan(r.AliasTemplate());
    var toks, vals := Toks(p), Fill(r, parts, n);
    CheckAliasExact(r.AliasTemplate());
    NoValueFault(toks, parts);
    forall i | 0 <= i < |toks|
      ensures var t, v := toks[i], Val(vals, toks[i].name);
              if t.name == "nn" then v != "" && AllDigits(v) && |v| >= t.width
              else AllAlnum(v) && (v == "" ==> t.optional)
    {
      assert ValueFault(toks[i], parts).None? && Names(toks, toks[i].name);
      if toks[i].name == "nn" { WidthOf(toks, i); }
    }
    SuitsAll(p, vals);
  }

  lemma {:induction false} SameGiven(p: Parsed, a: map<string, string>, b: map<string, string>)
    requires forall t :: t in Toks(p) && t.optional ==> Val(a, t.name) == Val(b, t.name)
    ensures OptionalGiven(p, a) == OptionalGiven(p, b)
  {
    if p.Part? {
      assert p.tok in Toks(p) && forall t :: t in Toks(p.rest) ==> t in Toks(p);
      SameGiven(p.rest, a, b);
    }
  }

  /** The optional parts asked for are those it is rendered with. */
  lemma FillGives(r: Rules, parts: map<string, string>, n: nat)
    requires AliasFault(r.AliasTemplate()).None?
    ensures OptionalGiven(Scan(r.AliasTemplate()), Fill(r, parts, n)) == OptionalGiven(Scan(r.AliasTemplate()), parts)
  {
    var p := Scan(r.AliasTemplate());
    CheckAliasExact(r.AliasTemplate());
    forall t | t in Toks(p) && t.optional ensures Val(Fill(r, parts, n), t.name) == Val(parts, t.name) {
      var i :| 0 <= i < |Toks(p)| && Toks(p)[i] == t;
      assert Names(Toks(p), t.name) && t.name != "nn";
    }
    SameGiven(p, Fill(r, parts, n), parts);
  }

  /** If a taken name is generated after all, Parse misreads that name: it does not
      read the parts that were asked for. This needs nothing of the template but
      that the check lets it through. */
  lemma TakenOnlyIfMisread(r: Rules, parts: map<string, string>, taken: seq<string>, n: nat)
    requires 0 <= r.start && GenerateFault(r, parts).None?
    requires LowestFree(Used(Usage(r, parts), taken), r.start, n) && n <= MAX_INT
    ensures Numbered(r, parts, n) in taken ==> Parse(r, Numbered(r, parts, n)) != Some(Requested(r, parts, n))
  {
    if Parse(r, Numbered(r, parts, n)) == Some(Requested(r, parts, n)) {
      UsesItsNumber(r, parts, n);
      NotTaken(Usage(r, parts), Numbered(r, parts, n), taken, r.start, n);
    }
  }

  /** An alias read as what was asked for uses up its own number. */
  lemma UsesItsNumber(r: Rules, parts: map<string, string>, n: nat)
    requires GenerateFault(r, parts).None? && n <= MAX_INT
    requires Parse(r, Numbered(r, parts, n)) == Some(Requested(r, parts, n))
    ensures NumberUsed(r, parts, Numbered(r, parts, n)) == Some(n)
  {
    var toks, want := Toks(Scan(r.AliasTemplate())), Requested(r, parts, n);
    CheckAliasExact(r.AliasTemplate());
    NumberOfPadded(n, NumberWidth(toks));
    assert Val(want, "nn") == Padded(n, NumberWidth(toks));
    forall i | 0 <= i < |toks| && toks[i].name != "nn"
      ensures Val(want, toks[i].name) == Val(parts, toks[i].name)
    {
      assert Names(toks, toks[i].name);
    }
  }

  lemma NotTaken(usage: string -> Option<nat>, alias: string, taken: seq<string>, start: nat, n: nat)
    requires usage(alias) == Some(n) && LowestFree(Used(usage, taken), start, n)
    ensures alias !in taken
  {
    assert forall i :: 0 <= i < |taken| ==> Used(usage, taken)[i] != Some(n);
  }

  /** A generated alias is new, reads back as exactly what was asked for, breaks no
      rule, and takes the lowest number free: with a hyphen or dot in every separator, and
      not just one of two optional parts whose separators have as many. */
  lemma GeneratedIsFresh(r: Rules, parts: map<string, string>, taken: seq<string>, n: nat, code: string)
    requires 0 <= r.start && r.ListsOk() && GenerateFault(r, parts).None?
    requires var p := Scan(r.AliasTemplate()); Separated(Lits(p), Toks(p)) && Told(OptionalMarks(p), OptionalGiven(p, parts))
    requires LowestFree(Used(Usage(r, parts), taken), r.start, n) && n <= MAX_INT
    requires code == "" || code == Val(parts, "code")
    ensures Numbered(r, parts, n) !in taken
    ensures Parse(r, Numbered(r, parts, n)) == Some(Requested(r, parts, n))
    ensures Violation(r, Numbered(r, parts, n), code).None?
  {
    FillSuits(r, parts, n);
    FillGives(r, parts, n);
    RenderThenParse(r, Fill(r, parts, n));
    TakenOnlyIfMisread(r, parts, taken, n);
    NoBreach(r, parts, n, code);
  }

  /** An alias read as what was asked for breaks no rule. */
  lemma NoBreach(r: Rules, parts: map<string, string>, n: nat, code: string)
    requires GenerateFault(r, parts).None? && (code == "" || code == Val(parts, "code"))
    requires Parse(r, Numbered(r, parts, n)) == Some(Requested(r, parts, n))
    ensures Violation(r, Numbered(r, parts, n), code).None?
  {
    var found := Requested(r, parts, n);
    forall k | k in {"code", "env", "role"} ensures Val(found, k) == Val(parts, k) || Val(found, k) == "" {
      assert k[0] != 'n';
    }
  }
}
