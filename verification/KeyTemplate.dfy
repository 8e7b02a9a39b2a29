/** Key-name templates: which are accepted, what a host's key is called under one,
    and when that name reads back. */
module KeyTemplate {
  import opened Text
  import opened Template
  import opened Pattern
  import opened Unambiguous
  import opened Naming
  import opened Alias
  import opened KeyName

  // Checking a template.

  datatype KeyError = Shape | UnknownKeyPart | NothingCertain | HoldsSlash

  const KEY_PARTS: set<string> := {"profile", "alias", "algo", "code", "env", "role", "nn"}
  const START := "{profile}_"
  const END := "-{algo}"
  const PROFILE := Token("profile", 0, false)
  const ALGO := Token("algo", 0, false)

  /** The template without its fixed start and end. */
  function Middle(tpl: string): string {
    var rest := if START <= tpl then tpl[|START|..] else tpl;
    if HasSuffix(rest, END) then rest[..|rest| - |END|] else rest
  }

  function Required(toks: seq<Token>): nat {
    if toks == [] then 0 else (if toks[0].optional then 0 else 1) + Required(toks[1..])
  }

  function KeyFault(tpl: string): Option<KeyError> {
    if !(START <= tpl) || !HasSuffix(tpl, END) then Some(Shape)
    else if exists t :: t in Toks(Scan(tpl)) && t.name !in KEY_PARTS then Some(UnknownKeyPart)
    else if Required(Toks(Scan(Middle(tpl)))) == 0 then Some(NothingCertain)
    else if exists l :: l in Lits(Scan(Middle(tpl))) && '/' in l then Some(HoldsSlash)
    else None
  }

  /** The first check: every part is one a key name can have. */
  method KnownParts(toks: seq<Token>) returns (ok: bool)
    ensures ok <==> !exists t :: t in toks && t.name !in KEY_PARTS
  {
    for i := 0 to |toks|
      invariant forall j :: 0 <= j < i ==> toks[j].name in KEY_PARTS
    {
      if toks[i].name !in KEY_PARTS {
        assert toks[i] in toks;
        return false;
      }
    }
    return true;
  }

  method CountRequired(toks: seq<Token>) returns (required: nat)
    ensures required == Required(toks)
  {
    required := 0;
    assert toks[0..] == toks;
    for i := 0 to |toks|
      invariant Required(toks) == required + Required(toks[i..])
    {
      if !toks[i].optional { required := required + 1; }
      assert toks[i..][1..] == toks[i + 1..];
    }
  }

  method AnySlash(lits: seq<string>) returns (found: bool)
    ensures found <==> exists l :: l in lits && '/' in l
  {
    for i := 0 to |lits|
      invariant forall j :: 0 <= j < i ==> '/' !in lits[j]
    {
      if '/' in lits[i] {
        assert lits[i] in lits;
        return true;
      }
    }
    return false;
  }

  /** The check as the code makes it. */
  method CheckKeyName(tpl: string) returns (err: Option<KeyError>)
    ensures err == KeyFault(tpl)
  {
    if !(START <= tpl) || !HasSuffix(tpl, END) { return Some(Shape); }
    var lits, toks := ParseTemplate(tpl);
    var known := KnownParts(toks);
    if !known { return Some(UnknownKeyPart); }
    lits, toks := ParseTemplate(Middle(tpl));
    var required := CountRequired(toks);
    if required == 0 { return Some(NothingCertain); }
    var slash := AnySlash(lits);
    return if slash then Some(HoldsSlash) else None;
  }

  /** The start and the end of a template do not overlap. */
  lemma EndsApart(tpl: string)
    requires START <= tpl && HasSuffix(tpl, END)
    ensures |tpl| >= 17
  {
    assert START[9] == '_' && tpl[9] == '_';
    forall k | 0 < k <= 7 ensures FromEnd(tpl, k) == FromEnd(END, k) { SuffixChar(tpl, END, k); }
    assert FromEnd(END, 1) == '}' && FromEnd(END, 2) == 'o' && FromEnd(END, 3) == 'g' && FromEnd(END, 4) == 'l';
    assert FromEnd(END, 5) == 'a' && FromEnd(END, 6) == '{' && FromEnd(END, 7) == '-';
  }

  lemma MiddleOf(tpl: string)
    requires START <= tpl && HasSuffix(tpl, END)
    ensures tpl == START + Middle(tpl) + END
  {
    EndsApart(tpl);
    var rest := tpl[10..];
    assert rest[|rest| - 7..] == tpl[|tpl| - 7..];
    assert tpl == START + rest && rest == Middle(tpl) + END;
  }

  /** What is rendered after the profile: the middle, then the key type. */
  function Body(tpl: string): Parsed {
    Prepend("_", Glue(Scan(Middle(tpl)), Part("-", ALGO, Last(""))))
  }

  /** A required part on its own, as written. */
  lemma OnePart(name: string)
    requires name != "" && name[0] != 'n' && forall i :: 0 <= i < |name| ==> IsLower(name[i])
    ensures Scan("{" + name + "}") == Part("", Token(name, 0, false), Last(""))
  {
    var p := Part("", Token(name, 0, false), Last(""));
    assert name != "nn" && !IsNumberName(name);
    assert "" + ("{" + name + "}") + "" == "{" + name + "}";
    WrittenScans(p);
  }

  lemma FixedParts(first: string, last: string)
    requires first == "{" + "profile" + "}" && last == "{" + "algo" + "}"
    ensures Scan(first) == Part("", PROFILE, Last("")) && Scan(last) == Part("", ALGO, Last(""))
    ensures first + "_" == START && "-" + last == END
  {
    OnePart("profile");
    OnePart("algo");
  }

  lemma TwoCuts(a: string, b: string, c: string, first: Token, last: Parsed)
    requires Scan(a) == Part("", first, Last("")) && Scan(c) == last
    ensures Scan(a + "_" + (b + ("-" + c))) == Part("", first, Prepend("_", Glue(Scan(b), Prepend("-", last))))
  {
    ScanCut(b, '-', c);
    assert b + "-" + c == b + ("-" + c);
    ScanCut(a, '_', b + ("-" + c));
    PrependTwice("", "", Prepend("_", Scan(b + ("-" + c))));
  }

  lemma PartsAround(tpl: string, mid: string, a: string, c: string, last: Parsed)
    requires Scan(a) == Part("", PROFILE, Last("")) && Scan(c) == last
    requires tpl == a + "_" + mid + ("-" + c)
    ensures Scan(tpl) == Part("", PROFILE, Prepend("_", Glue(Scan(mid), Prepend("-", last))))
  {
    assert tpl == a + "_" + (mid + ("-" + c));
    TwoCuts(a, mid, c, PROFILE, last);
  }

  /** An accepted template is the profile, an underscore, the middle, a dash and the
      key type. */
  lemma Parts(tpl: string)
    requires START <= tpl && HasSuffix(tpl, END)
    ensures Scan(tpl) == Part("", PROFILE, Body(tpl)) && EndsInAlgo(Body(tpl))
  {
    MiddleOf(tpl);
    var a, c := "{" + "profile" + "}", "{" + "algo" + "}";
    FixedParts(a, c);
    PartsAround(tpl, Middle(tpl), a, c, Part("", ALGO, Last("")));
    BodyEnds(Scan(Middle(tpl)));
  }

  lemma BodyEnds(mid: Parsed)
    ensures Prepend("-", Part("", ALGO, Last(""))) == Part("-", ALGO, Last(""))
    ensures EndsInAlgo(Prepend("_", Glue(mid, Part("-", ALGO, Last("")))))
  {
    assert "-" + "" == "-";
    GlueEnds(mid);
    PrependedEnd("_", Glue(mid, Part("-", ALGO, Last(""))));
  }

  lemma PrependedEnd(text: string, p: Parsed)
    requires EndsInAlgo(p) && (p.rest.Last? ==> p.lit != "")
    ensures EndsInAlgo(Prepend(text, p))
  {
    if p.rest.Last? { assert FromEnd(text + p.lit, 1) == FromEnd(p.lit, 1); }
  }

  /** The last part is the key type, with nothing after it, and a dash before it if
      any text is. */
  predicate EndsInAlgo(p: Parsed) {
    p.Part? && if p.rest.Last? then p.tok == ALGO && p.rest.lit == "" && (p.lit == "" || FromEnd(p.lit, 1) == '-')
               else EndsInAlgo(p.rest)
  }

  lemma {:induction false} GlueEnds(p: Parsed)
    ensures EndsInAlgo(Glue(p, Part("-", ALGO, Last("")))) && Glue(p, Part("-", ALGO, Last(""))).Part?
    ensures Glue(p, Part("-", ALGO, Last(""))).rest.Last? ==> Glue(p, Part("-", ALGO, Last(""))).lit != ""
  {
    if p.Part? { GlueEnds(p.rest); }
  }

  // What a host's key is called.

  /** The values a template is filled with: the host's own, and, where one of those
      is empty, what its alias gives. */
  function KeyValues(r: Rules, profile: string, alias: string, code: string, algo: string): map<string, string> {
    var own := map["profile" := profile, "alias" := alias, "algo" := algo, "code" := code];
    match Parse(r, alias)
    case Some(parts) =>
      if NeedsParts(Toks(Scan(r.KeyTemplate())), code) then Completed(own, parts) else own
    case None => own
  }

  function Completed(own: map<string, string>, parts: map<string, string>): map<string, string> {
    own + map k | k in parts && Val(own, k) == "" :: parts[k]
  }

  predicate NeedsParts(toks: seq<Token>, code: string) {
    exists t :: t in toks && (t.name in {"env", "role", "nn"} || (t.name == "code" && code == ""))
  }

  predicate Lacking(toks: seq<Token>, vals: map<string, string>) {
    exists t :: t in toks && !t.optional && Val(vals, t.name) == ""
  }

  /** The template rendered for a host; Err when the host lacks a part it needs. */
  function KeyNameFor(r: Rules, profile: string, alias: string, code: string, algo: string): Name<string> {
    var p, vals := Scan(r.KeyTemplate()), KeyValues(r, profile, alias, code, algo);
    if Lacking(Toks(p), vals) then Err(Empty) else Ok(Render(p, vals))
  }

  /** A host's key name when none is given: the template's, or, with the default
      template or a host that lacks a part, the name of every earlier release. */
  function DerivedKeyName(r: Rules, keyType: string, profile: string, alias: string, code: string): Name<string> {
    var algo := if keyType == "" then "ed25519" else keyType;
    if r.KeyTemplate() == DEFAULT_KEY_NAME then BuildKeyName(profile, alias, algo)
    else match KeyNameFor(r, ProfileToken(profile), NormalizeSegment(alias), code, algo)
      case Err(_) => BuildKeyName(profile, alias, algo)
      case Ok(name) => if SafeSegment(name) then Ok(name) else Err(Unsafe)
  }

  /** A name safe to use as a file name. */
  predicate SafeSegment(s: string) {
    && s !in {"", ".", ".."} && s[0] != '-'
    && forall c :: c in s ==> c !in {'/', '\\', '*', '?'} && ' ' < c && c as int != 127
  }

  // When the name reads back.

  predicate Shown(t: Token, vals: map<string, string>) { Val(vals, t.name) != "" || !t.optional }

  /** The parts still to come once p's first is done: one left out may take the next
      literal with it. */
  function After(p: Parsed, vals: map<string, string>): (rest: Parsed)
    requires p.Part?
    ensures |Toks(rest)| < |Toks(p)| && (p.rest.Part? ==> rest.Part?)
  {
    if Shown(p.tok, vals) || p.lit != "" then p.rest else p.rest.(lit := "")
  }

  /** The first text rendered starts with an underscore. */
  predicate UnderscoreKept(p: Parsed, vals: map<string, string>)
    decreases |Toks(p)|
  {
    match p
    case Last(lit) => "_" <= lit
    case Part(lit, t, rest) =>
      if !Shown(t, vals) then UnderscoreKept(After(p, vals), vals)
      else if lit == "" then "_" <= Val(vals, t.name)
      else lit[0] == '_'
  }

  /** The literal before the key type is still there when the loop reaches it. */
  predicate DashKept(p: Parsed, vals: map<string, string>)
    requires p.Part?
    decreases |Toks(p)|
  {
    if p.rest.Last? then p.lit != "" else DashKept(After(p, vals), vals)
  }

  /** Everything rendered before the key type. */
  function Before(p: Parsed, vals: map<string, string>): string
    requires p.Part?
    decreases |Toks(p)|
  {
    if p.rest.Last? then p.lit
    else (if Shown(p.tok, vals) then p.lit + Val(vals, p.tok.name) else "") + Before(After(p, vals), vals)
  }

  predicate EndsAlnum(s: string) { s != "" && IsAlnum(FromEnd(s, 1)) }

  /** Values as the code passes them: no underscore, and a letter or digit last. */
  predicate PlainKeyValues(vals: map<string, string>) {
    && (forall k :: k in vals && vals[k] != "" ==> EndsAlnum(vals[k]) && '_' !in vals[k])
    && "profile" in vals && vals["profile"] != "" && "algo" in vals && KnownAlgo(vals["algo"])
  }

  lemma {:induction false} RenderedEnd(p: Parsed, vals: map<string, string>)
    requires EndsInAlgo(p) && PlainKeyValues(vals) && !Lacking(Toks(p), vals)
    ensures Render(p, vals) == Before(p, vals) + vals["algo"]
    ensures DashKept(p, vals) ==> Before(p, vals) != "" && FromEnd(Before(p, vals), 1) == '-'
    ensures !DashKept(p, vals) ==> Before(p, vals) == "" || EndsAlnum(Before(p, vals))
    decreases |Toks(p)|
  {
    if p.rest.Last? {
      assert p.lit + vals["algo"] + "" == p.lit + vals["algo"];
    } else {
      var next := After(p, vals);
      Blanked(p.rest);
      assert p.tok in Toks(p) && forall t :: t in Toks(next) ==> t in Toks(p);
      RenderedEnd(next, vals);
      var shown := p.lit + Val(vals, p.tok.name);
      if Shown(p.tok, vals) {
        assert shown + Render(next, vals) == shown + Before(next, vals) + vals["algo"];
        assert EndsAlnum(Val(vals, p.tok.name)) && FromEnd(shown, 1) == FromEnd(Val(vals, p.tok.name), 1);
        EndOf(shown, Before(next, vals));
      } else {
        assert "" + Before(next, vals) == Before(next, vals);
      }
    }
  }

  lemma EndOf(a: string, b: string)
    ensures b != "" ==> FromEnd(a + b, 1) == FromEnd(b, 1)
    ensures b == "" ==> a + b == a
  {
  }

  lemma {:induction false} RenderedStart(p: Parsed, vals: map<string, string>)
    requires !Lacking(Toks(p), vals)
    ensures UnderscoreKept(p, vals) <==> "_" <= Render(p, vals)
    decreases |Toks(p)|
  {
    if p.Part? {
      var next := After(p, vals);
      Blanked(p.rest);
      assert p.tok in Toks(p) && forall t :: t in Toks(next) ==> t in Toks(p);
      if Shown(p.tok, vals) {
        assert Render(p, vals)[0] == (p.lit + Val(vals, p.tok.name))[0];
      } else {
        RenderedStart(next, vals);
      }
    }
  }

  lemma AlgoNoUnderscore(algo: string)
    requires KnownAlgo(algo)
    ensures '_' !in algo && |algo| > 1
  {
  }

  /** What AlgoOf finds in a rendered name that splits at all is the key type it was
      rendered with exactly when the dash before it survived, or the type is the one
      AlgoOf assumes. */
  lemma AlgoReadsBack(tpl: string, vals: map<string, string>)
    requires START <= tpl && HasSuffix(tpl, END) && PlainKeyValues(vals) && !Lacking(Toks(Scan(tpl)), vals)
    requires '_' in Render(Scan(tpl), vals)
    ensures AlgoOf(Render(Scan(tpl), vals)) == Ok(vals["algo"])
       <==> DashKept(Body(tpl), vals) || vals["algo"] == "ed25519"
  {
    Parts(tpl);
    var p, algo := Scan(tpl), vals["algo"];
    assert After(p, vals) == Body(tpl);
    RenderedEnd(p, vals);
    AlgoNoUnderscore(algo);
    AlgoAfter(Before(p, vals), algo);
  }

  lemma AlgoAfter(front: string, algo: string)
    requires KnownAlgo(algo) && '_' in front
    requires FromEnd(front, 1) == '-' || EndsAlnum(front)
    ensures AlgoOf(front + algo) == Ok(algo) <==> FromEnd(front, 1) == '-' || algo == "ed25519"
  {
    AlgoNoUnderscore(algo);
    var at := IndexOf(front, '_');
    var head, kept := front[..at], front[at + 1..];
    assert front == head + "_" + kept;
    assert kept != "" && FromEnd(kept, 1) == FromEnd(front, 1);
    assert front + algo == head + "_" + (kept + algo);
    CutAtFirst(head, kept + algo);
    SuffixFound(kept, algo);
  }

  lemma SuffixFound(kept: string, algo: string)
    requires KnownAlgo(algo) && kept != "" && (FromEnd(kept, 1) == '-' || EndsAlnum(kept))
    ensures FirstSuffix(kept + algo, ALGORITHMS) == algo <==> FromEnd(kept, 1) == '-' || algo == "ed25519"
  {
    if FromEnd(kept, 1) == '-' {
      var rest := kept + algo;
      assert rest[|rest| - |algo| - 1..] == "-" + algo;
      FirstSuffixIs(rest, ALGORITHMS, algo);
    } else {
      FirstSuffixWithoutDash(kept, algo, ALGORITHMS);
    }
  }

  /** A rendered name splits back to the profile it was rendered with exactly when
      the text after the profile still starts with the underscore. */
  lemma ProfileReadsBack(tpl: string, vals: map<string, string>)
    requires START <= tpl && HasSuffix(tpl, END) && PlainKeyValues(vals) && !Lacking(Toks(Scan(tpl)), vals)
    ensures (SplitKeyName(Render(Scan(tpl), vals)).Ok? && SplitKeyName(Render(Scan(tpl), vals)).value.0 == vals["profile"])
       <==> UnderscoreKept(Body(tpl), vals)
  {
    Parts(tpl);
    var p, profile, after := Scan(tpl), vals["profile"], Render(Body(tpl), vals);
    assert forall t :: t in Toks(Body(tpl)) ==> t in Toks(p);
    RenderedEnd(Body(tpl), vals);
    RenderedStart(Body(tpl), vals);
    AlgoNoUnderscore(vals["algo"]);
    assert "" + profile == profile;
    ProfileBefore(profile, after);
  }

  lemma ProfileBefore(profile: string, after: string)
    requires '_' !in profile && |after| > 1
    ensures (SplitKeyName(profile + after).Ok? && SplitKeyName(profile + after).value.0 == profile) <==> "_" <= after
  {
    var name := profile + after;
    if "_" <= after {
      assert name == profile + ['_'] + after[1..];
      IndexOfFirst(profile, '_', after[1..]);
      assert name[|profile| + 1..] == after[1..];
    } else {
      assert name[|profile|] == after[0];
      assert IndexOf(name, '_') != |profile|;
    }
  }

  /** No part of p that can be left out touches the part before it. */
  predicate NoneTouch(p: Parsed) {
    p.Part? ==> (p.tok.optional ==> p.lit != "") && NoneTouch(p.rest)
  }

  /** A template whose first part after the profile is required, and none of whose
      optional parts touches the part before it. */
  predicate Steady(tpl: string) {
    Body(tpl).Part? && !Body(tpl).tok.optional && NoneTouch(Body(tpl))
  }

  lemma {:induction false} NoneTouchKeepsDash(p: Parsed, vals: map<string, string>)
    requires EndsInAlgo(p) && NoneTouch(p) && DashLiteral(p)
    ensures DashKept(p, vals)
    decreases |Toks(p)|
  {
    if p.rest.Part? { NoneTouchKeepsDash(p.rest, vals); }
  }

  /** The literal the template has before the key type. */
  predicate DashLiteral(p: Parsed) {
    p.Part? && if p.rest.Last? then p.lit != "" else DashLiteral(p.rest)
  }

  lemma {:induction false} GlueDash(p: Parsed)
    ensures DashLiteral(Glue(p, Part("-", ALGO, Last(""))))
  {
    if p.Part? { GlueDash(p.rest); }
  }

  /** With a steady template every host's name reads back. */
  lemma SteadyReadsBack(tpl: string, vals: map<string, string>)
    requires START <= tpl && HasSuffix(tpl, END) && Steady(tpl)
    requires PlainKeyValues(vals) && !Lacking(Toks(Scan(tpl)), vals)
    ensures SplitKeyName(Render(Scan(tpl), vals)).Ok? && SplitKeyName(Render(Scan(tpl), vals)).value.0 == vals["profile"]
    ensures AlgoOf(Render(Scan(tpl), vals)) == Ok(vals["algo"])
  {
    Parts(tpl);
    GlueDash(Scan(Middle(tpl)));
    NoneTouchKeepsDash(Body(tpl), vals);
    ProfileReadsBack(tpl, vals);
    AlgoReadsBack(tpl, vals);
  }

  // Which templates read back for every host, exactly.

  /** The parts a host may have no value for. */
  const OPEN: set<string> := {"alias", "code", "env", "role", "nn"}

  predicate ShownOn(t: Token, empty: set<string>) { t.name !in empty || !t.optional }

  function AfterOn(p: Parsed, empty: set<string>): (rest: Parsed)
    requires p.Part?
    ensures |Toks(rest)| < |Toks(p)| && (p.rest.Part? ==> rest.Part?) && Toks(rest) == Toks(p.rest)
  {
    Blanked(p.rest);
    if ShownOn(p.tok, empty) || p.lit != "" then p.rest else p.rest.(lit := "")
  }

  /** The first text rendered without values for those parts starts with the underscore. */
  predicate UnderscoreOn(p: Parsed, empty: set<string>)
    decreases |Toks(p)|
  {
    match p
    case Last(lit) => "_" <= lit
    case Part(lit, t, rest) => if ShownOn(t, empty) then "_" <= lit else UnderscoreOn(AfterOn(p, empty), empty)
  }

  /** And the dash is still there when the key type is reached. */
  predicate DashOn(p: Parsed, empty: set<string>)
    requires p.Part?
    decreases |Toks(p)|
  {
    if p.rest.Last? then p.lit != "" else DashOn(AfterOn(p, empty), empty)
  }

  predicate LackingOn(toks: seq<Token>, empty: set<string>) { exists t :: t in toks && !t.optional && t.name in empty }

  /** Whichever parts a host has no value for, of those it may do without, the underscore
      and the dash are kept. */
  predicate Sure(tpl: string)
    requires Body(tpl).Part?
  {
    forall empty :: empty <= OPEN && !LackingOn(Toks(Scan(tpl)), empty) ==>
      UnderscoreOn(Body(tpl), empty) && DashOn(Body(tpl), empty)
  }

  function NoValue(vals: map<string, string>): set<string> { set n | n in OPEN && Val(vals, n) == "" }

  predicate KeyParts(toks: seq<Token>) { forall t :: t in toks ==> t.name in KEY_PARTS }

  lemma SameShown(t: Token, vals: map<string, string>)
    requires PlainKeyValues(vals) && t.name in KEY_PARTS
    ensures ShownOn(t, NoValue(vals)) == Shown(t, vals)
    ensures t.name in NoValue(vals) <==> Val(vals, t.name) == ""
  {
  }

  lemma SameLacking(toks: seq<Token>, vals: map<string, string>)
    requires PlainKeyValues(vals) && KeyParts(toks)
    ensures LackingOn(toks, NoValue(vals)) == Lacking(toks, vals)
  {
    forall t | t in toks ensures t.name in NoValue(vals) <==> Val(vals, t.name) == "" { SameShown(t, vals); }
  }

  lemma {:induction false} SameKept(p: Parsed, vals: map<string, string>)
    requires p.Part? && PlainKeyValues(vals) && KeyParts(Toks(p)) && !Lacking(Toks(p), vals)
    ensures DashOn(p, NoValue(vals)) == DashKept(p, vals)
    decreases |Toks(p)|
  {
    assert p.tok in Toks(p) && forall t :: t in Toks(p.rest) ==> t in Toks(p);
    SameShown(p.tok, vals);
    if p.rest.Part? {
      assert AfterOn(p, NoValue(vals)) == After(p, vals);
      SameKept(After(p, vals), vals);
    }
  }

  lemma {:induction false} SameStart(p: Parsed, vals: map<string, string>)
    requires PlainKeyValues(vals) && KeyParts(Toks(p)) && !Lacking(Toks(p), vals)
    ensures UnderscoreOn(p, NoValue(vals)) == UnderscoreKept(p, vals)
    decreases |Toks(p)|
  {
    if p.Part? {
      assert p.tok in Toks(p) && forall t :: t in Toks(p.rest) ==> t in Toks(p);
      SameShown(p.tok, vals);
      if Shown(p.tok, vals) {
        var v := Val(vals, p.tok.name);
        assert v != "" && v[0] in v && '_' !in v;
        assert !("_" <= v) && ("_" <= p.lit <==> p.lit != "" && p.lit[0] == '_');
      } else {
        assert AfterOn(p, NoValue(vals)) == After(p, vals);
        SameStart(After(p, vals), vals);
      }
    }
  }

  /** A host with no value for just those parts. */
  function HostWithout(empty: set<string>): map<string, string> {
    map n | n in KEY_PARTS && n !in empty :: if n == "algo" then "rsa" else "0"
  }

  lemma HostIsPlain(empty: set<string>)
    requires empty <= OPEN
    ensures PlainKeyValues(HostWithout(empty)) && NoValue(HostWithout(empty)) == empty
  {
    assert EndsAlnum("rsa") && EndsAlnum("0") && KnownAlgo("rsa");
    assert "profile" in KEY_PARTS && "algo" in KEY_PARTS && "profile" !in OPEN && "algo" !in OPEN;
    assert OPEN <= KEY_PARTS;
  }

  ghost predicate ReadsBoth(tpl: string, vals: map<string, string>)
    requires PlainKeyValues(vals)
  {
    var name := Render(Scan(tpl), vals);
    SplitKeyName(name).Ok? && SplitKeyName(name).value.0 == vals["profile"] && AlgoOf(name) == Ok(vals["algo"])
  }

  lemma BothOn(tpl: string, vals: map<string, string>)
    requires KeyFault(tpl).None? && Body(tpl).Part? && PlainKeyValues(vals) && !Lacking(Toks(Scan(tpl)), vals)
    ensures ReadsBoth(tpl, vals) <==>
            UnderscoreOn(Body(tpl), NoValue(vals)) && (DashOn(Body(tpl), NoValue(vals)) || vals["algo"] == "ed25519")
  {
    Parts(tpl);
    assert forall t :: t in Toks(Body(tpl)) ==> t in Toks(Scan(tpl));
    SameStart(Body(tpl), vals);
    SameKept(Body(tpl), vals);
    ProfileReadsBack(tpl, vals);
    var name := Render(Scan(tpl), vals);
    if SplitKeyName(name).Ok? {
      SplitHasUnderscore(name);
      AlgoReadsBack(tpl, vals);
    }
  }

  /** A template gives back the profile and the key type of every host that has the parts
      it needs exactly when none of the ways to leave parts out costs it the underscore or
      the dash: a look at the template alone, at 32 ways at most. */
  lemma SureExactly(tpl: string)
    requires KeyFault(tpl).None?
    ensures Body(tpl).Part?
    ensures Sure(tpl) <==>
            forall vals :: PlainKeyValues(vals) && !Lacking(Toks(Scan(tpl)), vals) ==> ReadsBoth(tpl, vals)
  {
    Parts(tpl);
    BodyEnds(Scan(Middle(tpl)));
    if Sure(tpl) {
      forall vals | PlainKeyValues(vals) && !Lacking(Toks(Scan(tpl)), vals) ensures ReadsBoth(tpl, vals) {
        SameLacking(Toks(Scan(tpl)), vals);
        BothOn(tpl, vals);
      }
    } else {
      var empty :| empty <= OPEN && !LackingOn(Toks(Scan(tpl)), empty)
        && !(UnderscoreOn(Body(tpl), empty) && DashOn(Body(tpl), empty));
      var vals := HostWithout(empty);
      HostIsPlain(empty);
      SameLacking(Toks(Scan(tpl)), vals);
      BothOn(tpl, vals);
    }
  }

  // A host's key name.

  lemma {:induction false} PartsPlain(p: Pattern, r: Reading)
    requires Fits(p, r) && PlainValues(p)
    ensures forall k :: k in PartsOf(p, r) ==> PartsOf(p, r)[k] != "" && AllAlnum(PartsOf(p, r)[k])
  {
    if p.Group? { PartsPlain(p.next, r.rest); }
  }

  lemma ParsedPlain(r: Rules, alias: string)
    requires r.ListsOk() && Parse(r, alias).Some?
    ensures forall k :: k in Parse(r, alias).value ==> Parse(r, alias).value[k] != "" && AllAlnum(Parse(r, alias).value[k])
  {
    var p := Scan(r.AliasTemplate());
    var lists := if ReadBy(PatternOf(p, r.Lists()), alias).Some? then r.Lists() else map[];
    var q := PatternOf(p, lists);
    MatchSound(q, alias);
    NarrowIsWide(p, lists, Match(q, alias).value);
    PlainPattern(p, map[]);
    PartsPlain(PatternOf(p, map[]), Match(q, alias).value);
  }

  lemma AlnumPlain(s: string)
    requires AllAlnum(s)
    ensures '_' !in s && (s != "" ==> EndsAlnum(s))
  {
  }

  lemma KeyValuesPlain(r: Rules, profile: string, alias: string, code: string, algo: string)
    requires r.ListsOk() && profile != "" && AllAlnum(profile) && AllAlnum(code) && KnownAlgo(algo)
    requires Kebab(alias)
    ensures PlainKeyValues(KeyValues(r, profile, alias, code, algo))
    ensures var vals := KeyValues(r, profile, alias, code, algo);
            vals["profile"] == profile && vals["algo"] == algo
  {
    AlgoNoUnderscore(algo);
    AlnumPlain(profile);
    AlnumPlain(code);
    var own := map["profile" := profile, "alias" := alias, "algo" := algo, "code" := code];
    OwnPlain(own, algo);
    if Parse(r, alias).Some? {
      ParsedPlain(r, alias);
      CompletedPlain(own, Parse(r, alias).value);
    }
  }

  lemma OwnPlain(own: map<string, string>, algo: string)
    requires own.Keys == {"profile", "alias", "algo", "code"} && KnownAlgo(algo) && own["algo"] == algo
    requires own["profile"] != "" && AllAlnum(own["profile"]) && AllAlnum(own["code"]) && Kebab(own["alias"])
    ensures PlainKeyValues(own)
  {
    AlgoNoUnderscore(algo);
    assert EndsAlnum(algo);
    AlnumPlain(own["profile"]);
    AlnumPlain(own["code"]);
  }

  lemma CompletedPlain(own: map<string, string>, parts: map<string, string>)
    requires PlainKeyValues(own)
    requires forall k :: k in parts ==> parts[k] != "" && AllAlnum(parts[k])
    ensures PlainKeyValues(Completed(own, parts))
    ensures Completed(own, parts)["profile"] == own["profile"] && Completed(own, parts)["algo"] == own["algo"]
  {
    AlgoNoUnderscore(own["algo"]);
    forall k | k in parts ensures EndsAlnum(parts[k]) && '_' !in parts[k] { AlnumPlain(parts[k]); }
  }

  /** The name a template gives a host reads back its profile exactly when the
      underscore survives, and its key type exactly when the dash does or the type is
      the assumed one. */
  lemma KeyNameReadsBack(r: Rules, profile: string, alias: string, code: string, algo: string)
    requires r.ListsOk() && KeyFault(r.KeyTemplate()).None?
    requires profile != "" && AllAlnum(profile) && AllAlnum(code) && KnownAlgo(algo) && Kebab(alias)
    requires KeyNameFor(r, profile, alias, code, algo).Ok?
    ensures var name, vals := KeyNameFor(r, profile, alias, code, algo).value, KeyValues(r, profile, alias, code, algo);
            var body := Body(r.KeyTemplate());
            && ((SplitKeyName(name).Ok? && SplitKeyName(name).value.0 == profile) <==> UnderscoreKept(body, vals))
            && ('_' in name ==> (AlgoOf(name) == Ok(algo) <==> DashKept(body, vals) || algo == "ed25519"))
            && (Steady(r.KeyTemplate()) ==> UnderscoreKept(body, vals) && DashKept(body, vals))
  {
    var tpl, vals := r.KeyTemplate(), KeyValues(r, profile, alias, code, algo);
    KeyValuesPlain(r, profile, alias, code, algo);
    ProfileReadsBack(tpl, vals);
    if '_' in Render(Scan(tpl), vals) { AlgoReadsBack(tpl, vals); }
    if Steady(tpl) {
      SteadyReadsBack(tpl, vals);
      Parts(tpl);
      GlueDash(Scan(Middle(tpl)));
      NoneTouchKeepsDash(Body(tpl), vals);
    }
  }

  /** A derived name splits back to its profile and gives back its key type exactly when
      the default template or an earlier release's name was used, or the template kept the
      underscore, and the dash unless the key type is the assumed one. A steady template
      keeps both. */
  lemma DerivedReadsBack(r: Rules, keyType: string, profile: string, alias: string, code: string)
    requires r.ListsOk() && KeyFault(r.KeyTemplate()).None?
    requires AllAlnum(code) && (keyType == "" || KnownAlgo(keyType))
    requires ProfileToken(profile) != "" && DerivedKeyName(r, keyType, profile, alias, code).Ok?
    ensures var name := DerivedKeyName(r, keyType, profile, alias, code).value;
            var algo := if keyType == "" then "ed25519" else keyType;
            var vals := KeyValues(r, ProfileToken(profile), NormalizeSegment(alias), code, algo);
            var body := Body(r.KeyTemplate());
            && (SplitKeyName(name).Ok? && SplitKeyName(name).value.0 == ProfileToken(profile) && AlgoOf(name) == Ok(algo) <==>
                || r.KeyTemplate() == DEFAULT_KEY_NAME || Lacking(Toks(Scan(r.KeyTemplate())), vals)
                || (UnderscoreKept(body, vals) && (DashKept(body, vals) || algo == "ed25519")))
            && (Steady(r.KeyTemplate()) ==>
                SplitKeyName(name).Ok? && SplitKeyName(name).value.0 == ProfileToken(profile) && AlgoOf(name) == Ok(algo))
  {
    var algo := if keyType == "" then "ed25519" else keyType;
    var prof, host := ProfileToken(profile), NormalizeSegment(alias);
    var name := DerivedKeyName(r, keyType, profile, alias, code).value;
    BuiltReadsBack(profile, alias, algo);
    ProfileTokenPlain(profile);
    NormalizesOnce(alias);
    if KeyNameFor(r, prof, host, code, algo).Ok? {
      KeyNameReadsBack(r, prof, host, code, algo);
      if SplitKeyName(name).Ok? { SplitHasUnderscore(name); }
    }
  }

  lemma SplitHasUnderscore(name: string)
    requires SplitKeyName(name).Ok?
    ensures '_' in name
  {
    assert name[IndexOf(name, '_')] == '_';
  }

  // Templates the check lets through although some names do not read back.

  predicate KeyMiddle(p: Parsed) {
    '/' !in p.lit && (p.Part? ==> p.tok.name in KEY_PARTS && KeyMiddle(p.rest))
  }

  predicate SomethingCertain(p: Parsed) {
    p.Part? && (!p.tok.optional || SomethingCertain(p.rest))
  }

  lemma {:induction false} MiddleParts(p: Parsed)
    requires KeyMiddle(p)
    ensures forall t :: t in Toks(p) ==> t.name in KEY_PARTS
    ensures forall l :: l in Lits(p) ==> '/' !in l
    ensures SomethingCertain(p) <==> Required(Toks(p)) > 0
  {
    if p.Part? {
      MiddleParts(p.rest);
      assert Toks(p)[1..] == Toks(p.rest);
    }
  }

  lemma MiddleIs(tpl: string, mid: string)
    requires tpl == START + mid + END
    ensures START <= tpl && HasSuffix(tpl, END) && Middle(tpl) == mid
  {
    assert tpl[|START|..] == mid + END;
    assert tpl[|tpl| - |END|..] == END;
    assert (mid + END)[|mid|..] == END;
  }

  /** An accepted template from its middle's parts. */
  lemma Accepted(mid: Parsed, tpl: string)
    requires Plain(mid) && KeyMiddle(mid) && SomethingCertain(mid) && tpl == START + Written(mid) + END
    ensures KeyFault(tpl).None? && Middle(tpl) == Written(mid)
    ensures Body(tpl) == Prepend("_", Glue(mid, Part("-", ALGO, Last(""))))
  {
    WrittenScans(mid);
    MiddleParts(mid);
    MiddleIs(tpl, Written(mid));
    Parts(tpl);
    GlueToks(mid);
    assert Toks(Scan(tpl)) == [PROFILE] + Toks(Body(tpl));
  }

  lemma {:induction false} GlueToks(mid: Parsed)
    ensures Toks(Glue(mid, Part("-", ALGO, Last("")))) == Toks(mid) + [ALGO]
    ensures forall text :: Toks(Prepend(text, Glue(mid, Part("-", ALGO, Last(""))))) == Toks(mid) + [ALGO]
  {
    if mid.Part? { GlueToks(mid.rest); }
  }

  /** "{a}{e?}-{o?}", such as "{alias}{env?}-{role?}": e touches a. */
  function Touching(a: Token, e: Token, o: Token): Parsed {
    Part("", a, Part("", e, Part("-", o, Last(""))))
  }

  /** "{e?}-{a}", such as "{env?}-{alias}": an optional part right after the profile. */
  function Leading(a: Token, e: Token): Parsed {
    Part("", e, Part("-", a, Last("")))
  }

  predicate KeyPart(t: Token, optional: bool) {
    Plain(Part("", t, Last(""))) && t.name in KEY_PARTS && t.optional == optional
  }

  lemma TouchingAccepted(a: Token, e: Token, o: Token, tpl: string)
    requires KeyPart(a, false) && KeyPart(e, true) && KeyPart(o, true)
    requires tpl == START + Written(Touching(a, e, o)) + END
    ensures KeyFault(tpl).None? && Body(tpl) == Part("_", a, Part("", e, Part("-", o, Part("-", ALGO, Last("")))))
  {
    var third := Part("-", o, Last(""));
    var second := Part("", e, third);
    assert Plain(third) && Plain(second) && Touching(a, e, o) == Part("", a, second);
    assert KeyMiddle(third) && KeyMiddle(second);
    Accepted(Touching(a, e, o), tpl);
    assert Glue(third, Part("-", ALGO, Last(""))) == Part("-", o, Part("-", ALGO, Last(""))) by { assert "" + "-" == "-"; }
    assert "_" + "" == "_";
  }

  /** With neither e nor o there, leaving them out takes the dash before the key type
      along: every type but the assumed one is read back wrongly. */
  lemma TouchingMisread(a: Token, e: Token, o: Token, tpl: string, vals: map<string, string>)
    requires KeyPart(a, false) && KeyPart(e, true) && KeyPart(o, true)
    requires tpl == START + Written(Touching(a, e, o)) + END
    requires PlainKeyValues(vals) && Val(vals, a.name) != "" && Val(vals, e.name) == "" && Val(vals, o.name) == ""
    ensures KeyFault(tpl).None? && !Lacking(Toks(Scan(tpl)), vals)
    ensures AlgoOf(Render(Scan(tpl), vals)) == Ok(vals["algo"]) <==> vals["algo"] == "ed25519"
  {
    TouchingAccepted(a, e, o, tpl);
    Parts(tpl);
    TouchingBody(a, e, o, Body(tpl), vals);
    Underscored(Body(tpl), vals);
    AlgoReadsBack(tpl, vals);
  }

  lemma TouchingBody(a: Token, e: Token, o: Token, body: Parsed, vals: map<string, string>)
    requires !a.optional && e.optional && o.optional
    requires body == Part("_", a, Part("", e, Part("-", o, Part("-", ALGO, Last("")))))
    requires PlainKeyValues(vals) && Val(vals, a.name) != "" && Val(vals, e.name) == "" && Val(vals, o.name) == ""
    ensures !DashKept(body, vals) && !Lacking([PROFILE] + Toks(body), vals) && "_" <= Render(body, vals)
  {
    var third := Part("-", o, Part("-", ALGO, Last("")));
    var second := Part("", e, third);
    assert After(body, vals) == second && After(second, vals) == third.(lit := "");
    assert After(third.(lit := ""), vals) == Part("", ALGO, Last(""));
    assert DashKept(body, vals) == DashKept(second, vals) == DashKept(third.(lit := ""), vals);
    assert Toks(third) == [o, ALGO] && Toks(second) == [e, o, ALGO] && Toks(body) == [a, e, o, ALGO];
    assert Render(body, vals) == "_" + Val(vals, a.name) + Render(second, vals);
  }

  lemma Underscored(body: Parsed, vals: map<string, string>)
    requires "_" <= Render(body, vals) && PlainKeyValues(vals)
    ensures '_' in Render(Part("", PROFILE, body), vals)
  {
    var name := Render(Part("", PROFILE, body), vals);
    assert name == "" + vals["profile"] + Render(body, vals);
    assert name[|vals["profile"]|] == '_';
  }

  /** With e not there, leaving it out takes the underscore along: the name does not
      split back to its profile. */
  lemma LeadingMisread(a: Token, e: Token, tpl: string, vals: map<string, string>)
    requires KeyPart(a, false) && KeyPart(e, true) && tpl == START + Written(Leading(a, e)) + END
    requires PlainKeyValues(vals) && Val(vals, a.name) != "" && Val(vals, e.name) == ""
    ensures KeyFault(tpl).None? && !Lacking(Toks(Scan(tpl)), vals)
    ensures SplitKeyName(Render(Scan(tpl), vals)).Ok? ==> SplitKeyName(Render(Scan(tpl), vals)).value.0 != vals["profile"]
  {
    LeadingAccepted(a, e, tpl);
    Parts(tpl);
    LeadingBody(a, e, Body(tpl), vals);
    ProfileReadsBack(tpl, vals);
  }

  lemma LeadingBody(a: Token, e: Token, body: Parsed, vals: map<string, string>)
    requires !a.optional && e.optional && body == Part("_", e, Part("-", a, Part("-", ALGO, Last(""))))
    requires PlainKeyValues(vals) && Val(vals, a.name) != "" && Val(vals, e.name) == ""
    ensures !UnderscoreKept(body, vals) && !Lacking([PROFILE] + Toks(body), vals)
  {
    var rest := Part("-", a, Part("-", ALGO, Last("")));
    assert After(body, vals) == rest && !UnderscoreKept(rest, vals);
    assert Toks(rest) == [a, ALGO] && Toks(body) == [e, a, ALGO];
  }

  lemma LeadingAccepted(a: Token, e: Token, tpl: string)
    requires KeyPart(a, false) && KeyPart(e, true) && tpl == START + Written(Leading(a, e)) + END
    ensures KeyFault(tpl).None? && Body(tpl) == Part("_", e, Part("-", a, Part("-", ALGO, Last(""))))
  {
    var second := Part("-", a, Last(""));
    assert Plain(second) && Leading(a, e) == Part("", e, second);
    assert KeyMiddle(second) && SomethingCertain(second);
    Accepted(Leading(a, e), tpl);
    LeadingGlued(a, e);
  }

  lemma LeadingGlued(a: Token, e: Token)
    ensures Prepend("_", Glue(Leading(a, e), Part("-", ALGO, Last("")))) == Part("_", e, Part("-", a, Part("-", ALGO, Last(""))))
  {
    var end := Part("-", ALGO, Last(""));
    assert Prepend("", end) == end by { assert "" + "-" == "-"; }
    assert Glue(Part("-", a, Last("")), end) == Part("-", a, end);
  }

  // The whole name, told of the host alone.

  /** What a host has for a part of a template: its own value, and only where it has none
      the one its alias gives. */
  function HostValue(r: Rules, profile: string, alias: string, code: string, algo: string, name: string): string {
    var own := HostOwn(profile, alias, code, algo, name);
    if own != "" then own else match Parse(r, alias) case None => "" case Some(parts) => Val(parts, name)
  }

  function HostOwn(profile: string, alias: string, code: string, algo: string, name: string): string {
    if name == "profile" then profile else if name == "alias" then alias else if name == "algo" then algo
    else if name == "code" then code else ""
  }

  predicate HostLacks(r: Rules, profile: string, alias: string, code: string, algo: string) {
    exists t :: t in Toks(Scan(r.KeyTemplate())) && !t.optional && HostValue(r, profile, alias, code, algo, t.name) == ""
  }

  /** vals gives each part of r's template what the host has for it. */
  ghost predicate OfHost(r: Rules, profile: string, alias: string, code: string, algo: string, vals: map<string, string>) {
    forall t :: t in Toks(Scan(r.KeyTemplate())) ==> Val(vals, t.name) == HostValue(r, profile, alias, code, algo, t.name)
  }

  lemma ParsedNames(r: Rules, alias: string, name: string)
    requires Parse(r, alias).Some? && name in Parse(r, alias).value
    ensures name in ALIAS_PARTS
  {
    CheckAliasExact(r.AliasTemplate());
    ParsedNamed(r, alias, name);
  }

  /** An alias is read as having no part but its template's. */
  lemma ParsedNamed(r: Rules, alias: string, name: string)
    requires Parse(r, alias).Some? && name in Parse(r, alias).value
    ensures Names(Toks(Scan(r.AliasTemplate())), name)
  {
    var p := Scan(r.AliasTemplate());
    var lists := if ReadBy(PatternOf(p, r.Lists()), alias).Some? then r.Lists() else map[];
    var q := PatternOf(p, lists);
    MatchSound(q, alias);
    if !Names(Toks(p), name) {
      NamesOf(p, lists, name);
      UnnamedPart(q, Match(q, alias).value, name);
    }
  }

  lemma KeyValuesOfHost(r: Rules, profile: string, alias: string, code: string, algo: string)
    ensures OfHost(r, profile, alias, code, algo, KeyValues(r, profile, alias, code, algo))
  {
    var toks := Toks(Scan(r.KeyTemplate()));
    forall t | t in toks ensures Val(KeyValues(r, profile, alias, code, algo), t.name) == HostValue(r, profile, alias, code, algo, t.name) {
      KeyValueOfHost(r, profile, alias, code, algo, t);
    }
  }

  lemma KeyValueOfHost(r: Rules, profile: string, alias: string, code: string, algo: string, t: Token)
    requires t in Toks(Scan(r.KeyTemplate()))
    ensures Val(KeyValues(r, profile, alias, code, algo), t.name) == HostValue(r, profile, alias, code, algo, t.name)
  {
    var own := map["profile" := profile, "alias" := alias, "algo" := algo, "code" := code];
    assert Val(own, t.name) == HostOwn(profile, alias, code, algo, t.name);
    if Parse(r, alias).Some? {
      var parts := Parse(r, alias).value;
      assert Val(Completed(own, parts), t.name) == if Val(own, t.name) == "" then Val(parts, t.name) else Val(own, t.name);
      if t.name in parts {
        ParsedNames(r, alias, t.name);
        assert Val(own, t.name) == "" ==> NeedsParts(Toks(Scan(r.KeyTemplate())), code);
      }
    }
  }

  lemma BuiltOfHost(profile: string, alias: string, algo: string)
    requires algo != ""
    ensures var name, prof, host := BuildKeyName(profile, alias, algo), ProfileToken(profile), NormalizeSegment(alias);
            if prof == "" || host == "" then name == Err(Empty)
            else name.Ok? && SplitKeyName(name.value) == Ok((prof, host + "-" + algo))
  {
    var prof, host := ProfileToken(profile), NormalizeSegment(alias);
    if prof != "" && host != "" {
      ProfileTokenPlain(profile);
      CutAtFirst(prof, host + "-" + algo);
      assert prof + "_" + host + "-" + algo == prof + "_" + (host + "-" + algo);
    }
  }

  lemma RenderedOfHost(r: Rules, profile: string, alias: string, code: string, algo: string)
    ensures var name := KeyNameFor(r, profile, alias, code, algo);
            if HostLacks(r, profile, alias, code, algo) then name.Err?
            else forall vals :: OfHost(r, profile, alias, code, algo, vals) ==> name == Ok(Render(Scan(r.KeyTemplate()), vals))
  {
    var own := KeyValues(r, profile, alias, code, algo);
    KeyValuesOfHost(r, profile, alias, code, algo);
    forall vals | OfHost(r, profile, alias, code, algo, vals) ensures Render(Scan(r.KeyTemplate()), vals) == Render(Scan(r.KeyTemplate()), own) {
      RenderIgnores(Scan(r.KeyTemplate()), vals, own);
    }
  }

  /** The name of a host's key. With the default template, and when the host lacks a part,
      it splits to the host's profile and its alias with the key type, and there is one
      exactly when neither is empty. With another template it is the one text the template
      gives with the host's own values, if that is safe. */
  lemma DerivedOfHost(r: Rules, keyType: string, profile: string, alias: string, code: string)
    ensures var name, prof, host := DerivedKeyName(r, keyType, profile, alias, code), ProfileToken(profile), NormalizeSegment(alias);
            var algo := if keyType == "" then "ed25519" else keyType;
            if r.KeyTemplate() == DEFAULT_KEY_NAME || HostLacks(r, prof, host, code, algo) then
              if prof == "" || host == "" then name == Err(Empty)
              else name.Ok? && SplitKeyName(name.value) == Ok((prof, host + "-" + algo))
            else
              forall vals :: OfHost(r, prof, host, code, algo, vals) ==>
                var text := Render(Scan(r.KeyTemplate()), vals);
                name == if SafeSegment(text) then Ok(text) else Err(Unsafe)
  {
    var prof, host := ProfileToken(profile), NormalizeSegment(alias);
    var algo := if keyType == "" then "ed25519" else keyType;
    BuiltOfHost(profile, alias, algo);
    RenderedOfHost(r, prof, host, code, algo);
  }

  /** The name of every earlier release is safe. */
  lemma BuiltIsSafe(profile: string, alias: string, algo: string)
    requires KnownAlgo(algo) && BuildKeyName(profile, alias, algo).Ok?
    ensures SafeSegment(BuildKeyName(profile, alias, algo).value)
  {
    var prof, host, name := ProfileToken(profile), NormalizeSegment(alias), BuildKeyName(profile, alias, algo).value;
    ProfileTokenPlain(profile);
    NormalizesOnce(alias);
    AlgoLetters(algo);
    assert name == prof + "_" + host + "-" + algo;
    forall c | c in name ensures IsAlnum(c) || c == '_' || c == '-' {
      assert c in prof || c == '_' || c in host || c == '-' || c in algo;
    }
    assert name[0] == prof[0] && |name| > 2;
  }

  lemma AlgoLetters(algo: string)
    requires KnownAlgo(algo)
    ensures forall c :: c in algo ==> IsAlnum(c) || c == '-'
  {
  }

  /** Whatever the template, a derived name is one file in its directory: not empty, not the
      directory or the one above, no path, no pattern, no option, no blank or control
      character. */
  lemma DerivedIsFile(r: Rules, keyType: string, profile: string, alias: string, code: string)
    requires (keyType == "" || KnownAlgo(keyType)) && DerivedKeyName(r, keyType, profile, alias, code).Ok?
    ensures var name := DerivedKeyName(r, keyType, profile, alias, code).value;
            && name != "" && name != "." && name != ".." && name[0] != '-'
            && '/' !in name && '\\' !in name && '*' !in name && '?' !in name && forall c :: c in name ==> 32 < c as int != 127
  {
    var algo := if keyType == "" then "ed25519" else keyType;
    if BuildKeyName(profile, alias, algo).Ok? { BuiltIsSafe(profile, alias, algo); }
  }

  // No accepted template makes a path of a name.

  predicate NoSlash(p: Parsed) {
    match p
    case Last(lit) => '/' !in lit
    case Part(lit, _, rest) => '/' !in lit && NoSlash(rest)
  }

  lemma {:induction false} LitsNoSlash(p: Parsed)
    ensures NoSlash(p) <==> forall l :: l in Lits(p) ==> '/' !in l
  {
    if p.Part? { LitsNoSlash(p.rest); }
  }

  lemma {:induction false} GlueNoSlash(p: Parsed, q: Parsed)
    requires NoSlash(p) && NoSlash(q)
    ensures NoSlash(Glue(p, q))
  {
    if p.Part? { GlueNoSlash(p.rest, q); }
  }

  lemma {:induction false} RenderNoSlash(p: Parsed, vals: map<string, string>)
    requires NoSlash(p) && forall k :: k in vals ==> '/' !in vals[k]
    ensures '/' !in Render(p, vals)
    decreases |Toks(p)|
  {
    if p.Part? {
      Blanked(p.rest);
      RenderNoSlash(p.rest, vals);
      RenderNoSlash(p.rest.(lit := ""), vals);
    }
  }

  /** A name made by an accepted template from values without a slash has none. */
  lemma AcceptedNoSlash(tpl: string, vals: map<string, string>)
    requires KeyFault(tpl).None? && forall k :: k in vals ==> '/' !in vals[k]
    ensures '/' !in Render(Scan(tpl), vals)
  {
    Parts(tpl);
    LitsNoSlash(Scan(Middle(tpl)));
    GlueNoSlash(Scan(Middle(tpl)), Part("-", ALGO, Last("")));
    RenderNoSlash(Scan(tpl), vals);
  }
}
