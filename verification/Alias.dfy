/** Reading an alias back: Parse and its two laws. */
module Alias {
  import opened Text
  import opened Template
  import opened Pattern
  import opened Unambiguous
  import opened Naming

  /** What each named group holds, leaving out those that hold nothing. */
  function PartsOf(p: Pattern, r: Reading): map<string, string>
    requires Fits(p, r)
  {
    match p
    case Tail(_) => map[]
    case Group(name, _, _, _, _, next) =>
      (match r.value
       case None => map[]
       case Some(v) => if v == "" then map[] else map[name := v]) + PartsOf(next, r.rest)
  }

  function ReadBy(p: Pattern, alias: string): Option<map<string, string>> {
    match Match(p, alias)
    case None => None
    case Some(r) =>
      MatchSound(p, alias);
      Some(PartsOf(p, r))
  }

  /** alias's parts under r's template: read with the listed envs and roles, or,
      when that fails, without them. */
  function Parse(r: Rules, alias: string): Option<map<string, string>> {
    var tpl := r.AliasTemplate();
    if AliasFault(tpl).Some? then None
    else
      var m := ReadBy(PatternOf(Scan(tpl), r.Lists()), alias);
      if m.None? && (r.envs != [] || r.roles != []) then ReadBy(PatternOf(Scan(tpl), map[]), alias) else m
  }

  // Values that suit a template, and the reading they make.

  /** vals gives every part of p text it can hold: nothing only for an optional one. */
  predicate Suits(p: Parsed, vals: map<string, string>) {
    match p
    case Last(_) => true
    case Part(_, t, rest) =>
      var v := Val(vals, t.name);
      && (if t.name == "nn" then v != "" && AllDigits(v) && |v| >= t.width
          else AllAlnum(v) && (v == "" ==> t.optional))
      && Suits(rest, vals)
  }

  function ReadingFor(p: Pattern, vals: map<string, string>): Reading {
    match p
    case Tail(_) => NoMore
    case Group(name, _, _, _, optional, next) =>
      Read(if Val(vals, name) != "" || !optional then Some(Val(vals, name)) else None, ReadingFor(next, vals))
  }

  lemma {:induction false} ReadingForFits(p: Parsed, vals: map<string, string>)
    requires Suits(p, vals)
    ensures Fits(PatternOf(p, map[]), ReadingFor(PatternOf(p, map[]), vals))
    ensures Holds(PatternOf(p, map[]), ReadingFor(PatternOf(p, map[]), vals), vals)
    decreases |Toks(p)|
  {
    match p
    case Last(_) =>
    case Part(lit, t, rest) =>
      if t.optional && lit == "" {
        Blanked(rest);
        assert Suits(rest.(lit := ""), vals);
        ReadingForFits(rest.(lit := ""), vals);
      } else {
        ReadingForFits(rest, vals);
      }
  }

  predicate PlainLists(lists: map<string, seq<string>>) {
    forall k :: k in lists ==> PlainList(lists[k])
  }

  /** A reading by the listed values is a reading without the lists. */
  lemma {:induction false} NarrowIsWide(p: Parsed, lists: map<string, seq<string>>, r: Reading)
    requires PlainLists(lists)
    requires Fits(PatternOf(p, lists), r)
    ensures Fits(PatternOf(p, map[]), r) && Spell(PatternOf(p, map[]), r) == Spell(PatternOf(p, lists), r)
    ensures PartsOf(PatternOf(p, map[]), r) == PartsOf(PatternOf(p, lists), r)
    decreases |Toks(p)|
  {
    match p
    case Last(_) =>
    case Part(lit, t, rest) =>
      if t.optional && lit == "" {
        Blanked(rest);
        NarrowIsWide(rest.(lit := ""), lists, r.rest);
      } else {
        NarrowIsWide(rest, lists, r.rest);
      }
  }

  predicate Unnamed(p: Pattern, name: string) {
    match p
    case Tail(_) => true
    case Group(n, _, _, _, _, next) => n != name && Unnamed(next, name)
  }

  predicate DistinctNames(p: Pattern) {
    match p
    case Tail(_) => true
    case Group(n, _, _, _, _, next) => Unnamed(next, n) && DistinctNames(next)
  }

  predicate WithoutEmpty(p: Pattern, r: Reading) {
    match (p, r)
    case (Group(_, _, _, _, _, next), Read(v, rest)) => v != Some("") && WithoutEmpty(next, rest)
    case _ => true
  }

  lemma {:induction false} UnnamedPart(p: Pattern, r: Reading, name: string)
    requires Fits(p, r) && Unnamed(p, name)
    ensures name !in PartsOf(p, r)
  {
    if p.Group? { UnnamedPart(p.next, r.rest, name); }
  }

  lemma {:induction false} HoldsIgnores(p: Pattern, r: Reading, a: map<string, string>, b: map<string, string>)
    requires Fits(p, r) && Holds(p, r, b)
    requires forall n :: Unnamed(p, n) || Val(a, n) == Val(b, n)
    ensures Holds(p, r, a)
  {
    if p.Group? {
      assert !Unnamed(p, p.name);
      HoldsIgnores(p.next, r.rest, a, b);
    }
  }

  /** The parts a reading gives hold exactly that reading. */
  lemma {:induction false} PartsHold(p: Pattern, r: Reading)
    requires Fits(p, r) && DistinctNames(p) && WithoutEmpty(p, r)
    ensures Holds(p, r, PartsOf(p, r))
  {
    if p.Group? {
      PartsHold(p.next, r.rest);
      UnnamedPart(p.next, r.rest, p.name);
      HoldsIgnores(p.next, r.rest, PartsOf(p, r), PartsOf(p.next, r.rest));
    }
  }

  lemma {:induction false} HeldParts(p: Pattern, r: Reading, vals: map<string, string>)
    requires Fits(p, r) && DistinctNames(p) && Holds(p, r, vals)
    ensures forall n :: n in PartsOf(p, r) ==> !Unnamed(p, n) && PartsOf(p, r)[n] == Val(vals, n) != ""
    ensures forall n :: !Unnamed(p, n) && Val(vals, n) != "" ==> n in PartsOf(p, r)
  {
    if p.Group? {
      HeldParts(p.next, r.rest, vals);
    }
  }

  // From the template's own terms to the pattern's.

  lemma {:induction false} NamesOf(p: Parsed, lists: map<string, seq<string>>, name: string)
    ensures Unnamed(PatternOf(p, lists), name) <==> !Names(Toks(p), name)
    decreases |Toks(p)|
  {
    match p
    case Last(_) =>
    case Part(lit, t, rest) =>
      Blanked(rest);
      NamesOf(if t.optional && lit == "" then rest.(lit := "") else rest, lists, name);
      var toks := Toks(p);
      assert toks[0] == t;
      assert forall i :: 0 < i < |toks| ==> toks[i] == Toks(rest)[i - 1];
      if Names(Toks(rest), name) {
        var i :| 0 <= i < |Toks(rest)| && Toks(rest)[i].name == name;
        assert toks[i + 1].name == name;
      }
  }

  lemma {:induction false} DistinctOf(p: Parsed, lists: map<string, seq<string>>)
    requires forall i, j :: 0 <= i < j < |Toks(p)| ==> Toks(p)[i].name != Toks(p)[j].name
    ensures DistinctNames(PatternOf(p, lists))
    decreases |Toks(p)|
  {
    match p
    case Last(_) =>
    case Part(lit, t, rest) =>
      Blanked(rest);
      var toks := Toks(p);
      assert toks[0] == t;
      assert forall i :: 0 <= i < |Toks(rest)| ==> Toks(rest)[i] == toks[i + 1];
      var next := if t.optional && lit == "" then rest.(lit := "") else rest;
      DistinctOf(next, lists);
      NamesOf(next, lists, t.name);
  }

  lemma {:induction false} NoRow(p: Parsed)
    requires forall i :: 0 < i < |Toks(p)| ==> !(Toks(p)[i].optional && Toks(p)[i - 1].optional)
    ensures NoTwoOptional(p)
  {
    match p
    case Last(_) =>
    case Part(_, t, rest) =>
      var toks := Toks(p);
      assert toks[0] == t;
      assert forall i :: 0 <= i < |Toks(rest)| ==> Toks(rest)[i] == toks[i + 1];
      if rest.Part? { assert toks[1] == rest.tok; }
      NoRow(rest);
  }

  lemma {:induction false} FitsWithoutEmpty(p: Parsed, lists: map<string, seq<string>>, r: Reading)
    requires PlainLists(lists)
    requires forall i :: 0 <= i < |Toks(p)| ==> Toks(p)[i].name == "nn" ==> Toks(p)[i].width > 0
    requires Fits(PatternOf(p, lists), r)
    ensures WithoutEmpty(PatternOf(p, lists), r)
    decreases |Toks(p)|
  {
    match p
    case Last(_) =>
    case Part(lit, t, rest) =>
      Blanked(rest);
      assert Toks(p)[0] == t;
      assert forall i :: 0 <= i < |Toks(rest)| ==> Toks(rest)[i] == Toks(p)[i + 1];
      FitsWithoutEmpty(if t.optional && lit == "" then rest.(lit := "") else rest, lists, r.rest);
  }

  lemma {:induction false} ScanWidths(s: string)
    ensures forall i :: 0 <= i < |Toks(Scan(s))| && Toks(Scan(s))[i].name == "nn" ==> Toks(Scan(s))[i].width > 0
    decreases |s|
  {
    if s != "" {
      match TokenAt(s)
      case Found(n, t) =>
        ScanWidths(s[n..]);
        if t.name == "nn" { MadeWidth(s); }
      case NoToken =>
        ScanWidths(s[1..]);
        assert Toks(Prepend([s[0]], Scan(s[1..]))) == Toks(Scan(s[1..]));
    }
  }

  lemma MadeWidth(s: string)
    requires TokenAt(s).Found? && TokenAt(s).token.name == "nn"
    ensures TokenAt(s).token.width > 0
  {
    var name := s[1..NameRun(s[1..]) + 1];
    assert |name| > 0 && name[0] == s[1];
    assert name == "nn" ==> IsNumberName(name);
  }

  // The laws.

  /** The separators between parts tell them apart: each holds a hyphen or a dot. */
  predicate Separated(lits: seq<string>, toks: seq<Token>)
    requires |lits| == |toks| + 1
  {
    forall i :: 0 < i < |toks| ==> HasMark(lits[i])
  }

  /** The marks that go with each optional part: those of the separator before it, or,
      when it has none, of the one after it. */
  function OptionalMarks(p: Parsed): seq<nat> {
    match p
    case Last(_) => []
    case Part(lit, t, rest) => (if t.optional then [Marks(if lit == "" then rest.lit else lit)] else []) + OptionalMarks(rest)
  }

  /** Which of the optional parts are given. */
  function OptionalGiven(p: Parsed, vals: map<string, string>): seq<bool> {
    match p
    case Last(_) => []
    case Part(_, t, rest) => (if t.optional then [Val(vals, t.name) != ""] else []) + OptionalGiven(rest, vals)
  }

  /** Whatever Parse reads renders back to the alias it was read from: for every
      template the check accepts and every alias that follows it. */
  lemma ParseThenRender(r: Rules, alias: string)
    requires r.ListsOk() && Parse(r, alias).Some?
    ensures Render(Scan(r.AliasTemplate()), Parse(r, alias).value) == alias
    ensures Suits(Scan(r.AliasTemplate()), Parse(r, alias).value)
  {
    var tpl := r.AliasTemplate();
    var p := Scan(tpl);
    CheckAliasExact(tpl);
    ScanWidths(tpl);
    NoRow(p);
    var lists := if ReadBy(PatternOf(p, r.Lists()), alias).Some? then r.Lists() else map[];
    var q := PatternOf(p, lists);
    MatchSound(q, alias);
    var rd := Match(q, alias).value;
    DistinctOf(p, lists);
    FitsWithoutEmpty(p, lists, rd);
    PartsHold(q, rd);
    RenderIsSpell(p, lists, rd, PartsOf(q, rd));
    NarrowIsWide(p, lists, rd);
    DistinctOf(p, map[]);
    FitsWithoutEmpty(p, map[], rd);
    PartsHold(PatternOf(p, map[]), rd);
    HeldSuits(p, rd, PartsOf(q, rd));
  }

  lemma {:induction false} HeldSuits(p: Parsed, rd: Reading, vals: map<string, string>)
    requires Fits(PatternOf(p, map[]), rd) && Holds(PatternOf(p, map[]), rd, vals)
    requires forall i :: 0 <= i < |Toks(p)| && Toks(p)[i].optional ==> Toks(p)[i].name != "nn"
    ensures Suits(p, vals)
    decreases |Toks(p)|
  {
    match p
    case Last(_) =>
    case Part(lit, t, rest) =>
      Blanked(rest);
      assert Toks(p)[0] == t && forall i :: 0 <= i < |Toks(rest)| ==> Toks(rest)[i] == Toks(p)[i + 1];
      if t.optional && lit == "" {
        HeldSuits(rest.(lit := ""), rd.rest, vals);
        BlankedSuits(rest, vals);
      } else {
        HeldSuits(rest, rd.rest, vals);
      }
  }

  lemma BlankedSuits(p: Parsed, vals: map<string, string>)
    ensures Suits(p.(lit := ""), vals) == Suits(p, vals)
  {
  }

  /** Every rendering of suitable values follows the template: Parse reads it as
      something, for every template the check accepts. */
  lemma RenderingFollows(r: Rules, vals: map<string, string>)
    requires r.ListsOk() && AliasFault(r.AliasTemplate()).None?
    requires Suits(Scan(r.AliasTemplate()), vals)
    ensures Parse(r, Render(Scan(r.AliasTemplate()), vals)).Some?
  {
    var p := Scan(r.AliasTemplate());
    var wide := PatternOf(p, map[]);
    CheckAliasExact(r.AliasTemplate());
    NoRow(p);
    ReadingForFits(p, vals);
    RenderIsSpell(p, map[], ReadingFor(wide, vals), vals);
    MatchComplete(wide, ReadingFor(wide, vals));
    if r.envs == [] && r.roles == [] { SameWithoutLists(p, r.Lists()); }
  }

  lemma {:induction false} SameWithoutLists(p: Parsed, lists: map<string, seq<string>>)
    requires forall k :: k in lists ==> lists[k] == []
    ensures PatternOf(p, lists) == PatternOf(p, map[])
    decreases |Toks(p)|
  {
    match p
    case Last(_) =>
    case Part(lit, t, rest) =>
      Blanked(rest);
      SameWithoutLists(if t.optional && lit == "" then rest.(lit := "") else rest, lists);
  }

  /** The parts vals gives p: those it names, with some text. */
  function Given(p: Parsed, vals: map<string, string>): map<string, string> {
    map n | n in vals && Names(Toks(p), n) && vals[n] != "" :: vals[n]
  }

  /** However a rendering is found to read, it reads as the values rendered. */
  lemma OnlyReading(p: Parsed, lists: map<string, seq<string>>, vals: map<string, string>)
    requires WellFormed(Lits(p), Toks(p)) && PlainLists(lists)
    requires Separated(Lits(p), Toks(p)) && Told(OptionalMarks(p), OptionalGiven(p, vals)) && Suits(p, vals)
    requires ReadBy(PatternOf(p, lists), Render(p, vals)).Some?
    ensures ReadBy(PatternOf(p, lists), Render(p, vals)) == Some(Given(p, vals))
  {
    var alias := Render(p, vals);
    var wide, rd := PatternOf(p, map[]), ReadingFor(PatternOf(p, map[]), vals);
    NoRow(p);
    ReadingForFits(p, vals);
    RenderIsSpell(p, map[], rd, vals);
    MatchSound(PatternOf(p, lists), alias);
    var found := Match(PatternOf(p, lists), alias).value;
    NarrowIsWide(p, lists, found);
    TellableTemplate(p, map[]);
    OneReading(wide, found, rd);
    WeightsOf(p, map[]);
    ShapeOf(p, map[], vals);
    GivenParts(p, vals);
  }

  lemma SameMap(got: map<string, string>, want: map<string, string>, p: Parsed, vals: map<string, string>)
    requires want == Given(p, vals)
    requires forall n :: n in got ==> !Unnamed(PatternOf(p, map[]), n) && got[n] == Val(vals, n) != ""
    requires forall n :: !Unnamed(PatternOf(p, map[]), n) && Val(vals, n) != "" ==> n in got
    ensures got == want
  {
    forall n | n in got ensures n in want && got[n] == want[n] { NamesOf(p, map[], n); }
    forall n | n in want ensures n in got {
      NamesOf(p, map[], n);
      assert !Unnamed(PatternOf(p, map[]), n) && Val(vals, n) != "";
    }
  }

  lemma GivenParts(p: Parsed, vals: map<string, string>)
    requires WellFormed(Lits(p), Toks(p)) && Suits(p, vals)
    ensures Fits(PatternOf(p, map[]), ReadingFor(PatternOf(p, map[]), vals))
    ensures PartsOf(PatternOf(p, map[]), ReadingFor(PatternOf(p, map[]), vals)) == Given(p, vals)
  {
    var wide, rd := PatternOf(p, map[]), ReadingFor(PatternOf(p, map[]), vals);
    ReadingForFits(p, vals);
    DistinctOf(p, map[]);
    HeldParts(wide, rd, vals);
    SameMap(PartsOf(wide, rd), Given(p, vals), p, vals);
  }

  /** Parse of a rendering is exactly the values rendered, when every separator holds a
      hyphen or a dot: with at most one optional part, with both of two given or neither,
      and when the separators that go with them differ in hyphens and dots. */
  lemma RenderThenParse(r: Rules, vals: map<string, string>)
    requires r.ListsOk() && AliasFault(r.AliasTemplate()).None?
    requires var p := Scan(r.AliasTemplate());
             Separated(Lits(p), Toks(p)) && Told(OptionalMarks(p), OptionalGiven(p, vals)) && Suits(p, vals)
    ensures Parse(r, Render(Scan(r.AliasTemplate()), vals)) == Some(Given(Scan(r.AliasTemplate()), vals))
  {
    var p := Scan(r.AliasTemplate());
    var alias := Render(p, vals);
    CheckAliasExact(r.AliasTemplate());
    RenderingFollows(r, vals);
    OnlyReading(p, if ReadBy(PatternOf(p, r.Lists()), alias).Some? then r.Lists() else map[], vals);
  }

  // The condition on the template gives the condition on its pattern.

  predicate AllMarked(p: Parsed) {
    p.Part? ==> HasMark(p.lit) && AllMarked(p.rest)
  }

  lemma {:induction false} AllMarkedOf(p: Parsed)
    requires forall i :: 0 <= i < |Toks(p)| ==> HasMark(Lits(p)[i])
    ensures AllMarked(p)
  {
    match p
    case Last(_) =>
    case Part(lit, _, rest) =>
      assert Lits(p)[0] == lit;
      assert forall i :: 0 <= i < |Toks(rest)| ==> Lits(rest)[i] == Lits(p)[i + 1];
      AllMarkedOf(rest);
  }

  lemma {:induction false} MarkedPattern(p: Parsed, lists: map<string, seq<string>>)
    requires AllMarked(p)
    ensures MarkedBefore(PatternOf(p, lists))
  {
    if p.Part? { MarkedPattern(p.rest, lists); }
  }

  lemma {:induction false} PlainPattern(p: Parsed, lists: map<string, seq<string>>)
    requires PlainLists(lists)
    ensures PlainValues(PatternOf(p, lists))
    decreases |Toks(p)|
  {
    match p
    case Last(_) =>
    case Part(lit, t, rest) =>
      Blanked(rest);
      PlainPattern(if t.optional && lit == "" then rest.(lit := "") else rest, lists);
  }

  /** Optional parts are not in a row, so at most every other part is one. */
  lemma {:induction false} HalfOptional(p: Parsed)
    requires NoTwoOptional(p)
    ensures 2 * |OptionalMarks(p)| <= |Toks(p)| + if p.Part? && p.tok.optional then 1 else 0
  {
    if p.Part? { HalfOptional(p.rest); }
  }

  lemma {:induction false} FewNames(toks: seq<Token>, names: set<string>)
    requires forall i :: 0 <= i < |toks| ==> toks[i].name in names
    requires forall i, j :: 0 <= i < j < |toks| ==> toks[i].name != toks[j].name
    ensures |toks| <= |names|
  {
    if toks != [] {
      var last := toks[|toks| - 1];
      FewNames(toks[..|toks| - 1], names - {last.name});
    }
  }

  lemma AtMostTwoOptional(p: Parsed)
    requires WellFormed(Lits(p), Toks(p))
    ensures |OptionalMarks(p)| <= 2
  {
    NoRow(p);
    HalfOptional(p);
    FewNames(Toks(p), ALIAS_PARTS);
  }

  /** The optional parts that are given are those its reading has. */
  lemma {:induction false} ShapeOf(p: Parsed, lists: map<string, seq<string>>, vals: map<string, string>)
    requires NoTwoOptional(p)
    requires Fits(PatternOf(p, lists), ReadingFor(PatternOf(p, lists), vals))
    ensures Shape(PatternOf(p, lists), ReadingFor(PatternOf(p, lists), vals)) == OptionalGiven(p, vals)
    decreases |Toks(p)|
  {
    match p
    case Last(_) =>
    case Part(lit, t, rest) =>
      if t.optional && lit == "" {
        Blanked(rest);
        var bare := rest.(lit := "");
        ShapeOf(bare, lists, vals);
        assert OptionalGiven(bare, vals) == OptionalGiven(rest, vals);
      } else {
        ShapeOf(rest, lists, vals);
      }
  }

  /** A template's optional parts are its pattern's, with the same marks. */
  lemma {:induction false} WeightsOf(p: Parsed, lists: map<string, seq<string>>)
    requires NoTwoOptional(p)
    ensures Weights(PatternOf(p, lists)) == OptionalMarks(p)
    decreases |Toks(p)|
  {
    match p
    case Last(_) =>
    case Part(lit, t, rest) =>
      if t.optional && lit == "" {
        Blanked(rest);
        var bare := rest.(lit := "");
        WeightsOf(bare, lists);
        assert OptionalMarks(bare) == OptionalMarks(rest);
      } else {
        WeightsOf(rest, lists);
      }
  }

  lemma MarkedAfterFirst(p: Parsed)
    requires p.Part? && p.rest.Part? && Separated(Lits(p), Toks(p))
    ensures HasMark(p.rest.lit) && AllMarked(p.rest.rest)
  {
    var after := p.rest.rest;
    assert Lits(p) == [p.lit, p.rest.lit] + Lits(after) && Toks(p) == [p.tok, p.rest.tok] + Toks(after);
    assert Lits(p)[1] == p.rest.lit;
    forall i | 0 <= i < |Toks(after)| ensures HasMark(Lits(after)[i]) { assert Lits(p)[i + 2] == Lits(after)[i]; }
    AllMarkedOf(after);
  }

  lemma FirstParts(p: Parsed)
    requires p.Part? && WellFormed(Lits(p), Toks(p))
    ensures p.tok.optional ==> p.tok.name != "nn" && (p.lit != "" || p.rest.lit != "")
    ensures p.rest.Last? ==> p.tok.name == "nn"
  {
    assert Toks(p)[0] == p.tok && Lits(p)[0] == p.lit && Lits(p)[1] == p.rest.lit;
    if p.rest.Last? { assert Toks(p) == [p.tok]; }
  }

  lemma TellableTemplate(p: Parsed, lists: map<string, seq<string>>)
    requires WellFormed(Lits(p), Toks(p)) && Separated(Lits(p), Toks(p)) && PlainLists(lists)
    ensures Tellable(PatternOf(p, lists)) && NoTwoOptional(p)
  {
    NoRow(p);
    PlainPattern(p, lists);
    AtMostTwoOptional(p);
    WeightsOf(p, lists);
    FirstParts(p);
    if p.rest.Part? {
      MarkedAfterFirst(p);
      MarkedPattern(p.rest.rest, lists);
    }
  }
}
