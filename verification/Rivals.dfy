/** When exactly an alias reads back as the values it was rendered from. */
module Rivals {
  import opened Text
  import opened Template
  import opened Pattern
  import opened Preference
  import opened Unambiguous
  import opened Cutting
  import opened Naming
  import opened Alias

  /** The values asked for are among the listed ones, as Generate checks first. */
  predicate ValuesListed(lists: map<string, seq<string>>, vals: map<string, string>) {
    forall k :: k in lists && lists[k] != [] && Val(vals, k) != "" ==> Val(vals, k) in lists[k]
  }

  /** The values make a reading by the listed values. */
  lemma {:induction false} ListedReading(p: Parsed, lists: map<string, seq<string>>, vals: map<string, string>)
    requires Suits(p, vals) && ValuesListed(lists, vals)
    ensures Fits(PatternOf(p, lists), ReadingFor(PatternOf(p, lists), vals))
    ensures Holds(PatternOf(p, lists), ReadingFor(PatternOf(p, lists), vals), vals)
    ensures ReadingFor(PatternOf(p, lists), vals) == ReadingFor(PatternOf(p, map[]), vals)
    decreases |Toks(p)|
  {
    match p
    case Last(_) =>
    case Part(lit, t, rest) =>
      Blanked(rest);
      var next := if t.optional && lit == "" then rest.(lit := "") else rest;
      assert Suits(next, vals);
      ListedReading(next, lists, vals);
  }

  lemma {:induction false} HoldsOne(p: Pattern, a: Reading, b: Reading, vals: map<string, string>)
    requires Fits(p, a) && Fits(p, b) && Holds(p, a, vals) && Holds(p, b, vals)
    ensures a == b
  {
    if p.Group? { HoldsOne(p.next, a.rest, b.rest, vals); }
  }

  /** What a template, its lists and the values to render make. */
  ghost predicate Rendered(r: Rules, p: Parsed, q: Pattern, rd: Reading, vals: map<string, string>) {
    && r.ListsOk() && AliasFault(r.AliasTemplate()).None? && p == Scan(r.AliasTemplate())
    && Suits(p, vals) && ValuesListed(r.Lists(), vals)
    && q == PatternOf(p, r.Lists()) && rd == ReadingFor(q, vals)
  }

  lemma RenderedReads(r: Rules, p: Parsed, q: Pattern, rd: Reading, vals: map<string, string>)
    requires Rendered(r, p, q, rd, vals)
    ensures WellFormed(Lits(p), Toks(p)) && NoTwoOptional(p) && DistinctNames(q)
    ensures Fits(q, rd) && Holds(q, rd, vals) && Spell(q, rd) == Render(p, vals) && PartsOf(q, rd) == Given(p, vals)
  {
    CheckAliasExact(r.AliasTemplate());
    NoRow(p);
    DistinctOf(p, r.Lists());
    ListedReading(p, r.Lists(), vals);
    RenderIsSpell(p, r.Lists(), rd, vals);
    GivenParts(p, vals);
    NarrowIsWide(p, r.Lists(), rd);
  }

  /** The parts a reading gives tell it from every other. */
  lemma PartsTell(q: Pattern, a: Reading, b: Reading)
    requires Fits(q, a) && Fits(q, b) && DistinctNames(q) && WithoutEmpty(q, a) && WithoutEmpty(q, b)
    requires PartsOf(q, a) == PartsOf(q, b)
    ensures a == b
  {
    PartsHold(q, a);
    PartsHold(q, b);
    HoldsOne(q, a, b, PartsOf(q, a));
  }

  /** Parse gives the values back exactly when the engine finds their reading. */
  lemma FoundExactly(r: Rules, p: Parsed, q: Pattern, rd: Reading, vals: map<string, string>)
    requires Rendered(r, p, q, rd, vals)
    ensures Parse(r, Render(p, vals)) == Some(Given(p, vals)) <==> Match(q, Render(p, vals)) == Some(rd)
  {
    RenderedReads(r, p, q, rd, vals);
    MatchComplete(q, rd);
    MatchSound(q, Render(p, vals));
    var found := Match(q, Render(p, vals)).value;
    assert Parse(r, Render(p, vals)) == Some(PartsOf(q, found));
    if PartsOf(q, found) == PartsOf(q, rd) {
      ScanWidths(r.AliasTemplate());
      FitsWithoutEmpty(p, r.Lists(), found);
      FitsWithoutEmpty(p, r.Lists(), rd);
      PartsTell(q, found, rd);
    }
  }

  /** For every template the check accepts: an alias reads back as the values rendered
      exactly when no other reading of it is tried before theirs. */
  lemma ReadsBackExactly(r: Rules, p: Parsed, q: Pattern, rd: Reading, vals: map<string, string>)
    requires Rendered(r, p, q, rd, vals)
    ensures Parse(r, Render(p, vals)) == Some(Given(p, vals)) <==>
            forall a :: Fits(q, a) && Spell(q, a) == Render(p, vals) ==> !Comes(q, a, rd)
  {
    RenderedReads(r, p, q, rd, vals);
    FoundExactly(r, p, q, rd, vals);
    MatchFirst(q, rd);
    var found := Match(q, Render(p, vals)).value;
    MatchSound(q, Render(p, vals));
    ComesOnce(q, rd, rd);
    if found == rd {
      forall a | Fits(q, a) && Spell(q, a) == Render(p, vals) ensures !Comes(q, a, rd) {
        MatchFirst(q, a);
        ComesOnce(q, a, rd);
      }
    }
  }

  /** One of two optional parts is there whose separators take as many marks, and the
      alias, cut at its marks with the other there for it, has values that fit and that are
      tried first. */
  predicate HasRival(q: Pattern, rd: Reading)
    requires Fits(q, rd)
  {
    var there := Shape(q, rd);
    && |there| == |Weights(q)| == 2 && Weights(q)[0] == Weights(q)[1] && there[0] != there[1]
    && var other := CutRead(q, [there[1], there[0]], Spell(q, rd));
       other.Some? && Comes(q, other.value, rd)
  }

  /** What comes first is that reading. */
  lemma RivalOnly(q: Pattern, rd: Reading, a: Reading)
    requires Tellable(q) && Fits(q, rd) && Fits(q, a) && Spell(q, a) == Spell(q, rd) && Comes(q, a, rd)
    ensures HasRival(q, rd)
  {
    ComesOnce(q, a, rd);
    OneReading(q, a, rd);
    CutReadComplete(q, a);
    assert Shape(q, a) == [Shape(q, rd)[1], Shape(q, rd)[0]];
  }

  lemma RivalThere(q: Pattern, rd: Reading) returns (a: Reading)
    requires Fits(q, rd) && HasRival(q, rd)
    ensures Fits(q, a) && Spell(q, a) == Spell(q, rd) && Comes(q, a, rd)
  {
    var there := Shape(q, rd);
    a := CutRead(q, [there[1], there[0]], Spell(q, rd)).value;
    CutReadSound(q, [there[1], there[0]], Spell(q, rd));
  }

  /** With a mark in every separator that is the only way to misread an alias. */
  lemma RivalExactly(r: Rules, p: Parsed, q: Pattern, rd: Reading, vals: map<string, string>)
    requires Rendered(r, p, q, rd, vals) && Separated(Lits(p), Toks(p)) && Fits(q, rd)
    ensures Parse(r, Render(p, vals)) == Some(Given(p, vals)) <==> !HasRival(q, rd)
  {
    RenderedReads(r, p, q, rd, vals);
    ReadsBackExactly(r, p, q, rd, vals);
    if a :| Fits(q, a) && Spell(q, a) == Spell(q, rd) && Comes(q, a, rd) {
      TellableTemplate(p, r.Lists());
      RivalOnly(q, rd, a);
    } else if HasRival(q, rd) {
      var a := RivalThere(q, rd);
      assert false;
    }
  }

  // With one hyphen or dot for a separator, that reading has each value one place earlier.

  predicate OneMark(s: string) { |s| == 1 && IsMark(s[0]) }

  predicate AllOneMark(p: Parsed) { p.Part? ==> OneMark(p.lit) && AllOneMark(p.rest) }

  /** Each separator is one hyphen or dot, and so is what stands first, or it does not
      start with one, as no host name does. */
  predicate OneMarkEach(lits: seq<string>, toks: seq<Token>)
    requires |lits| == |toks| + 1
  {
    && (forall i :: 0 < i < |toks| ==> OneMark(lits[i]))
    && (|lits[0]| > 1 ==> !IsMark(lits[0][0]))
  }

  /** The values of p's parts, down to the first optional one, can each stand one place
      earlier: the first in a part of kind c behind the separator sep. */
  predicate MovesInto(p: Parsed, lists: map<string, seq<string>>, vals: map<string, string>, c: Class, sep: string) {
    && p.Part? && p.lit == sep && Val(vals, p.tok.name) != "" && Accepts(c, Val(vals, p.tok.name))
    && (p.tok.optional || MovesInto(p.rest, lists, vals, ClassOf(p.tok, lists), p.lit))
  }

  /** The earlier of two optional parts is not given, the later one is, and every value
      from the one to the other can stand one place earlier, behind the same separator. */
  predicate MovesUp(p: Parsed, lists: map<string, seq<string>>, vals: map<string, string>) {
    && p.Part?
    && if !p.tok.optional then MovesUp(p.rest, lists, vals)
       else
         && Val(vals, p.tok.name) == ""
         && if p.lit != "" then MovesInto(p.rest, lists, vals, ClassOf(p.tok, lists), p.lit)
            else
              && p.rest.Part? && !p.rest.tok.optional
              && Accepts(ClassOf(p.tok, lists), Val(vals, p.rest.tok.name))
              && MovesInto(p.rest.rest, lists, vals, ClassOf(p.rest.tok, lists), p.rest.lit)
  }

  /** What is left of a template's groups and values, all behind single marks. */
  ghost predicate Rest(p: Parsed, lists: map<string, seq<string>>, vals: map<string, string>) {
    AllOneMark(p) && Suits(p, vals) && ValuesListed(lists, vals) && PlainLists(lists)
  }

  function ReadingOf(p: Parsed, lists: map<string, seq<string>>, vals: map<string, string>): Reading {
    ReadingFor(PatternOf(p, lists), vals)
  }

  lemma RestReads(p: Parsed, lists: map<string, seq<string>>, vals: map<string, string>)
    requires Suits(p, vals) && ValuesListed(lists, vals)
    ensures Fits(PatternOf(p, lists), ReadingOf(p, lists, vals))
  {
    ListedReading(p, lists, vals);
  }

  /** The reading with the values moved, from the part that takes p's value on. */
  function Shifted(p: Parsed, lists: map<string, seq<string>>, vals: map<string, string>): Reading {
    match p
    case Last(_) => NoMore
    case Part(_, t, rest) =>
      Read(Some(Val(vals, t.name)), if t.optional then Read(None, ReadingOf(rest, lists, vals)) else Shifted(rest, lists, vals))
  }

  lemma {:induction false} ShiftedReads(p: Parsed, lists: map<string, seq<string>>, vals: map<string, string>,
                                       n: string, c: Class, sep: string, o: bool)
    requires Rest(p, lists, vals) && MovesInto(p, lists, vals, c, sep)
    ensures var g := Group(n, c, sep, "", o, PatternOf(p, lists));
            && Fits(g, Shifted(p, lists, vals)) && Fits(g.next, ReadingOf(p, lists, vals))
            && Spell(g, Shifted(p, lists, vals)) == Spell(g.next, ReadingOf(p, lists, vals))
  {
    RestReads(p, lists, vals);
    RestReads(p.rest, lists, vals);
    if !p.tok.optional {
      ShiftedReads(p.rest, lists, vals, p.tok.name, ClassOf(p.tok, lists), p.lit, p.tok.optional);
    }
  }

  lemma SameFirst(a: string, v: string, x: string, b: string, w: string, y: string)
    requires OneMark(b) && a != "" && (|a| > 1 ==> !IsMark(a[0]))
    requires a + (v + x) == b + (w + y)
    ensures a == b && v + x == w + y
  {
    assert (a + (v + x))[0] == a[0] && (b + (w + y))[0] == b[0];
    assert (a + (v + x))[1..] == v + x && (b + (w + y))[1..] == w + y;
  }

  /** A text that starts with a group behind a single mark starts with a mark. */
  lemma StartsMarked(p: Parsed, lists: map<string, seq<string>>, r: Reading)
    requires p.Part? && OneMark(p.lit) && Fits(PatternOf(p, lists), r) && r.value.Some?
    ensures HasMark(Spell(PatternOf(p, lists), r)) && FirstMark(Spell(PatternOf(p, lists), r)) == 0
  {
    Opens(PatternOf(p, lists), r);
    assert IsMark(p.lit[0]);
  }

  lemma {:induction false} PlainAccepted(c: Class, v: string)
    requires Accepts(c, v) && (c.OneOf? ==> PlainList(c.values))
    ensures AllAlnum(v)
  {
  }

  lemma NothingOptional(p: Pattern, a: Reading, b: Reading)
    requires Fits(p, a) && Fits(p, b) && Weights(p) == [] && PlainValues(p)
    ensures SameParts(a, b)
  {
    MarksSum(p, a);
    MarksSum(p, b);
    SameShape(p, a, b);
  }

  /** Where the later optional part is, its value ends where the moved one does. */
  lemma LastMoved(p: Parsed, lists: map<string, seq<string>>, vals: map<string, string>, a: Reading, v: string, w: string)
    requires Rest(p, lists, vals) && p.Part? && p.tok.optional && AllAlnum(v) && AllAlnum(w)
    requires Fits(PatternOf(p, lists), a) && a.value.None? && OptionalGiven(p, vals) == [true]
    requires Fits(PatternOf(p.rest, lists), ReadingOf(p.rest, lists, vals))
    requires w + Spell(PatternOf(p, lists), a) == v + Spell(PatternOf(p.rest, lists), ReadingOf(p.rest, lists, vals))
    ensures v == w
  {
    var q, rd := PatternOf(p.rest, lists), ReadingOf(p.rest, lists, vals);
    RestPlain(p, lists, vals);
    assert OptionalGiven(p, vals)[1..] == OptionalGiven(p.rest, vals) == [];
    NoneLeft(p.rest, lists, vals);
    NothingOptional(q, a.rest, rd);
    SameLead(q, a.rest, rd);
    assert Spell(PatternOf(p, lists), a) == "" + Spell(q, a.rest) == Spell(q, a.rest);
    ValueEnds(w, v, Spell(q, a.rest), Spell(q, rd));
  }

  /** Before that, both values end at a separator. */
  lemma MidMoved(p: Parsed, lists: map<string, seq<string>>, vals: map<string, string>, a: Reading, v: string, w: string)
    requires Rest(p, lists, vals) && p.Part? && !p.tok.optional && AllAlnum(v) && AllAlnum(w)
    requires Fits(PatternOf(p, lists), a) && |OptionalGiven(p, vals)| == 1 && OptionalGiven(p, vals)[0]
    requires Fits(PatternOf(p.rest, lists), ReadingOf(p.rest, lists, vals))
    requires w + Spell(PatternOf(p, lists), a) == v + Spell(PatternOf(p.rest, lists), ReadingOf(p.rest, lists, vals))
    ensures v == w && Spell(PatternOf(p, lists), a) == Spell(PatternOf(p.rest, lists), ReadingOf(p.rest, lists, vals))
  {
    assert OptionalGiven(p, vals) == OptionalGiven(p.rest, vals);
    assert p.rest.Part? && AllOneMark(p.rest) && OneMark(p.rest.lit);
    StartsMarked(p, lists, a);
    StartsMarked(p.rest, lists, ReadingOf(p.rest, lists, vals));
    ValueEnds(w, v, Spell(PatternOf(p, lists), a), Spell(PatternOf(p.rest, lists), ReadingOf(p.rest, lists, vals)));
  }

  /** The one reading that leaves out the optional part p has, though the text before it
      has one value more, is the one with the values moved. */
  lemma {:induction false} OnlyShifted(p: Parsed, lists: map<string, seq<string>>, vals: map<string, string>,
                                      n: string, c: Class, sep: string, o: bool, a: Reading)
    requires Rest(p, lists, vals) && p.Part?
    requires sep != "" && (|sep| > 1 ==> !IsMark(sep[0])) && (c.OneOf? ==> PlainList(c.values))
    requires Fits(Group(n, c, sep, "", o, PatternOf(p, lists)), a) && a.value.Some?
    requires Shape(PatternOf(p, lists), a.rest) == [false] && OptionalGiven(p, vals) == [true]
    requires Fits(PatternOf(p, lists), ReadingOf(p, lists, vals))
    requires Spell(Group(n, c, sep, "", o, PatternOf(p, lists)), a) == Spell(PatternOf(p, lists), ReadingOf(p, lists, vals))
    ensures MovesInto(p, lists, vals, c, sep)
  {
    var g, q, rd := Group(n, c, sep, "", o, PatternOf(p, lists)), PatternOf(p, lists), ReadingOf(p, lists, vals);
    Behind(p, lists, vals);
    var v, w := Val(vals, p.tok.name), a.value.value;
    Opens(g, a);
    Opens(q, rd);
    var x, y := Spell(q, a.rest), Spell(q.next, rd.rest);
    assert "" + x == x && "" + y == y;
    SameFirst(sep, w, x, p.lit, v, y);
    PlainAccepted(c, w);
    RestPlain(p, lists, vals);
    if p.tok.optional {
      assert Shape(q, a.rest)[0] == a.rest.value.Some?;
      LastMoved(p, lists, vals, a.rest, v, w);
    } else {
      MidMoved(p, lists, vals, a.rest, v, w);
      OnlyShifted(p.rest, lists, vals, p.tok.name, ClassOf(p.tok, lists), p.lit, p.tok.optional, a.rest);
    }
  }

  /** A part that is there, and what its reading goes on with. */
  lemma Behind(p: Parsed, lists: map<string, seq<string>>, vals: map<string, string>)
    requires p.Part? && OneMark(p.lit) && OptionalGiven(p, vals) == [true] && Suits(p, vals)
    ensures Val(vals, p.tok.name) != ""
    ensures ReadingOf(p, lists, vals) == Read(Some(Val(vals, p.tok.name)), ReadingOf(p.rest, lists, vals))
  {
    assert p.tok.optional ==> OptionalGiven(p, vals)[0];
    assert PatternOf(p, lists).next == PatternOf(p.rest, lists);
  }

  lemma RestPlain(p: Parsed, lists: map<string, seq<string>>, vals: map<string, string>)
    requires Rest(p, lists, vals) && p.Part?
    ensures PlainValues(PatternOf(p, lists)) && MarkedBefore(PatternOf(p.rest, lists)) && PlainValues(PatternOf(p.rest, lists))
    ensures AllAlnum(Val(vals, p.tok.name))
  {
    PlainPattern(p, lists);
    AllOneMarked(p.rest);
    MarkedPattern(p.rest, lists);
  }

  lemma {:induction false} AllOneMarked(p: Parsed)
    requires AllOneMark(p)
    ensures AllMarked(p)
  {
    if p.Part? {
      assert IsMark(p.lit[0]);
      AllOneMarked(p.rest);
    }
  }

  lemma {:induction false} NoneLeft(p: Parsed, lists: map<string, seq<string>>, vals: map<string, string>)
    requires OptionalGiven(p, vals) == []
    ensures Weights(PatternOf(p, lists)) == []
  {
    if p.Part? {
      assert !p.tok.optional;
      NoneLeft(p.rest, lists, vals);
    }
  }

  // From the first part on.

  /** The reading with the values moved, of the whole text. */
  function Rival(p: Parsed, lists: map<string, seq<string>>, vals: map<string, string>): Reading
    requires MovesUp(p, lists, vals)
  {
    if !p.tok.optional then Read(Some(Val(vals, p.tok.name)), Rival(p.rest, lists, vals))
    else if p.lit != "" then Shifted(p.rest, lists, vals)
    else Read(Some(Val(vals, p.rest.tok.name)), Shifted(p.rest.rest, lists, vals))
  }

  lemma {:induction false} RivalReads(p: Parsed, lists: map<string, seq<string>>, vals: map<string, string>)
    requires p.Part? && Suits(p, vals) && ValuesListed(lists, vals) && PlainLists(lists) && AllOneMark(p.rest)
    requires MovesUp(p, lists, vals) && Fits(PatternOf(p, lists), ReadingOf(p, lists, vals))
    ensures var q, a, rd := PatternOf(p, lists), Rival(p, lists, vals), ReadingOf(p, lists, vals);
            Fits(q, a) && Spell(q, a) == Spell(q, rd) && Comes(q, a, rd)
  {
    var q, rd := PatternOf(p, lists), ReadingOf(p, lists, vals);
    if !p.tok.optional {
      RivalReads(p.rest, lists, vals);
    } else if p.lit != "" {
      ShiftedReads(p.rest, lists, vals, p.tok.name, ClassOf(p.tok, lists), p.lit, true);
      assert "" + Spell(q.next, rd.rest) == Spell(q.next, rd.rest);
    } else {
      RivalAtStart(p, lists, vals);
    }
  }

  /** A pattern whose first part is optional and takes the separator behind it, seen as
      that part before a part behind that separator. */
  lemma AtStart(q: Pattern, g: Pattern, r: Reading)
    requires g.Group? && g.after == "" && !g.optional
    requires q.Group? && q.before == "" && q.after == g.before && q.next == g.(before := "")
    requires Fits(q, r)
    ensures Fits(g, r.rest)
    ensures Spell(q, r) ==
            if r.value.Some? then r.value.value + Spell(g, r.rest) else r.rest.value.value + Spell(g.next, r.rest.rest)
  {
    var v, x := r.rest.value.value, Spell(g.next, r.rest.rest);
    assert Spell(q.next, r.rest) == "" + v + "" + x == v + x;
    assert Spell(g, r.rest) == g.before + v + "" + x == g.before + (v + x);
    if r.value.Some? {
      assert Spell(q, r) == "" + r.value.value + g.before + (v + x) == r.value.value + (g.before + (v + x));
    } else {
      assert Spell(q, r) == "" + (v + x) == v + x;
    }
  }

  /** The pattern and the reading of such a template. */
  lemma StartOf(p: Parsed, lists: map<string, seq<string>>, vals: map<string, string>)
    requires p.Part? && p.tok.optional && p.lit == "" && p.rest.Part? && !p.rest.tok.optional && Val(vals, p.tok.name) == ""
    ensures var g := Group(p.rest.tok.name, ClassOf(p.rest.tok, lists), p.rest.lit, "", false, PatternOf(p.rest.rest, lists));
            PatternOf(p, lists) == Group(p.tok.name, ClassOf(p.tok, lists), "", p.rest.lit, true, g.(before := ""))
    ensures ReadingOf(p, lists, vals) == Read(None, Read(Some(Val(vals, p.rest.tok.name)), ReadingOf(p.rest.rest, lists, vals)))
  {
    assert PatternOf(p.rest.(lit := ""), lists) ==
           Group(p.rest.tok.name, ClassOf(p.rest.tok, lists), "", "", false, PatternOf(p.rest.rest, lists));
    var q := PatternOf(p, lists);
    assert ReadingFor(q, vals) == Read(None, ReadingFor(q.next, vals));
    assert ReadingFor(q.next, vals) == Read(Some(Val(vals, p.rest.tok.name)), ReadingFor(q.next.next, vals));
  }

  lemma RivalAtStart(p: Parsed, lists: map<string, seq<string>>, vals: map<string, string>)
    requires p.Part? && Suits(p, vals) && ValuesListed(lists, vals) && PlainLists(lists) && AllOneMark(p.rest)
    requires MovesUp(p, lists, vals) && p.tok.optional && p.lit == ""
    requires Fits(PatternOf(p, lists), ReadingOf(p, lists, vals))
    ensures var q, a, rd := PatternOf(p, lists), Rival(p, lists, vals), ReadingOf(p, lists, vals);
            Fits(q, a) && Spell(q, a) == Spell(q, rd) && Comes(q, a, rd)
  {
    var q, a, rd := PatternOf(p, lists), Rival(p, lists, vals), ReadingOf(p, lists, vals);
    var second, after := p.rest, p.rest.rest;
    var g := Group(second.tok.name, ClassOf(second.tok, lists), second.lit, "", false, PatternOf(after, lists));
    StartOf(p, lists, vals);
    ShiftedReads(after, lists, vals, g.name, g.kind, g.before, false);
    assert Fits(q.next, a.rest);
    AtStart(q, g, a);
    AtStart(q, g, rd);
  }

  /** The reading that has the earlier of two optional parts for the later, and comes
      first, is that one. */
  lemma {:induction false} OnlyRival(p: Parsed, lists: map<string, seq<string>>, vals: map<string, string>, a: Reading)
    requires p.Part? && NoTwoOptional(p) && Suits(p, vals) && ValuesListed(lists, vals) && PlainLists(lists)
    requires AllOneMark(p.rest) && (|p.lit| > 1 ==> !IsMark(p.lit[0]))
    requires Fits(PatternOf(p, lists), a) && Fits(PatternOf(p, lists), ReadingOf(p, lists, vals))
    requires Spell(PatternOf(p, lists), a) == Spell(PatternOf(p, lists), ReadingOf(p, lists, vals))
    requires |Shape(PatternOf(p, lists), a)| == 2 && OptionalGiven(p, vals) == [Shape(PatternOf(p, lists), a)[1], Shape(PatternOf(p, lists), a)[0]]
    requires Shape(PatternOf(p, lists), a)[0] != Shape(PatternOf(p, lists), a)[1]
    requires Comes(PatternOf(p, lists), a, ReadingOf(p, lists, vals))
    ensures MovesUp(p, lists, vals)
  {
    var q, rd := PatternOf(p, lists), ReadingOf(p, lists, vals);
    PlainPattern(p, lists);
    if !p.tok.optional {
      PrefixSame(p, lists, vals, a);
      OnlyRival(p.rest, lists, vals, a.rest);
    } else {
      assert Shape(q, a)[0] == a.value.Some? && OptionalGiven(p, vals)[0] == rd.value.Some?;
      assert a.value.Some? && rd.value.None?;
      assert Shape(q, a)[1..] == Shape(q.next, a.rest) == [false];
      assert OptionalGiven(p, vals)[1..] == OptionalGiven(p.rest, vals) == [true];
      if p.lit != "" {
        assert "" + Spell(q.next, rd.rest) == Spell(q.next, rd.rest);
        OnlyShifted(p.rest, lists, vals, p.tok.name, ClassOf(p.tok, lists), p.lit, true, a);
      } else {
        OnlyRivalAtStart(p, lists, vals, a);
      }
    }
  }

  lemma OnlyRivalAtStart(p: Parsed, lists: map<string, seq<string>>, vals: map<string, string>, a: Reading)
    requires p.Part? && NoTwoOptional(p) && Suits(p, vals) && ValuesListed(lists, vals) && PlainLists(lists)
    requires AllOneMark(p.rest) && p.tok.optional && p.lit == ""
    requires Fits(PatternOf(p, lists), a) && Fits(PatternOf(p, lists), ReadingOf(p, lists, vals))
    requires Spell(PatternOf(p, lists), a) == Spell(PatternOf(p, lists), ReadingOf(p, lists, vals))
    requires a.value.Some? && Val(vals, p.tok.name) == ""
    requires Shape(PatternOf(p, lists).next, a.rest) == [false] && OptionalGiven(p.rest, vals) == [true]
    ensures MovesUp(p, lists, vals)
  {
    var q, rd := PatternOf(p, lists), ReadingOf(p, lists, vals);
    var second, after := p.rest, p.rest.rest;
    var g := Group(second.tok.name, ClassOf(second.tok, lists), second.lit, "", false, PatternOf(after, lists));
    StartOf(p, lists, vals);
    AtStart(q, g, a);
    AtStart(q, g, rd);
    var w, v := a.value.value, Val(vals, second.tok.name);
    var x, y := Spell(g, a.rest), Spell(g.next, rd.rest.rest);
    assert OptionalGiven(after, vals) == [true] && Shape(g.next, a.rest.rest) == [false];
    assert after.Part? && OneMark(after.lit) && (after.tok.optional ==> OptionalGiven(after, vals)[0]);
    StartsMarked(after, lists, rd.rest.rest);
    StartsMarked(second, lists, a.rest);
    PlainAccepted(q.kind, w);
    PlainAccepted(g.kind, v);
    ValueEnds(w, v, x, y);
    OnlyShifted(after, lists, vals, g.name, g.kind, g.before, false, a.rest);
  }

  /** A required part before the two has the same value in both readings. */
  lemma PrefixSame(p: Parsed, lists: map<string, seq<string>>, vals: map<string, string>, a: Reading)
    requires p.Part? && !p.tok.optional && NoTwoOptional(p) && Suits(p, vals) && ValuesListed(lists, vals) && PlainLists(lists)
    requires AllOneMark(p.rest) && PlainValues(PatternOf(p, lists))
    requires Fits(PatternOf(p, lists), a) && Fits(PatternOf(p, lists), ReadingOf(p, lists, vals))
    requires Spell(PatternOf(p, lists), a) == Spell(PatternOf(p, lists), ReadingOf(p, lists, vals))
    requires |OptionalGiven(p, vals)| == 2
    ensures a.value == ReadingOf(p, lists, vals).value
    ensures Spell(PatternOf(p.rest, lists), a.rest) == Spell(PatternOf(p.rest, lists), ReadingOf(p.rest, lists, vals))
  {
    var q, rd := PatternOf(p, lists), ReadingOf(p, lists, vals);
    assert q.next == PatternOf(p.rest, lists) && rd.rest == ReadingOf(p.rest, lists, vals);
    assert OptionalGiven(p, vals) == OptionalGiven(p.rest, vals) && p.rest.Part?;
    MarkedNext(p.rest, lists, vals, a.rest);
    MarkedNext(p.rest, lists, vals, rd.rest);
    FirstValue(q, a, rd);
  }

  lemma MarkedNext(p: Parsed, lists: map<string, seq<string>>, vals: map<string, string>, r: Reading)
    requires p.Part? && AllOneMark(p) && NoTwoOptional(p) && Fits(PatternOf(p, lists), r) && |OptionalGiven(p, vals)| == 2
    ensures HasMark(Spell(PatternOf(p, lists), r)) && FirstMark(Spell(PatternOf(p, lists), r)) == 0
  {
    if r.value.Some? {
      StartsMarked(p, lists, r);
    } else {
      assert OptionalGiven(p, vals)[1..] == OptionalGiven(p.rest, vals);
      assert p.rest.Part? && !p.rest.tok.optional;
      assert "" + Spell(PatternOf(p.rest, lists), r.rest) == Spell(PatternOf(p.rest, lists), r.rest);
      StartsMarked(p.rest, lists, r.rest);
    }
  }

  // The condition on the template and the values.

  lemma OneMarkParts(p: Parsed)
    requires p.Part? && OneMarkEach(Lits(p), Toks(p))
    ensures AllOneMark(p.rest) && Separated(Lits(p), Toks(p))
  {
    forall i | 0 < i < |Toks(p)| ensures HasMark(Lits(p)[i]) { assert OneMark(Lits(p)[i]) && IsMark(Lits(p)[i][0]); }
    forall i | 0 <= i < |Toks(p.rest)| ensures OneMark(Lits(p.rest)[i]) { assert Lits(p.rest)[i] == Lits(p)[i + 1]; }
    AllOneMarkOf(p.rest);
  }

  lemma {:induction false} AllOneMarkOf(p: Parsed)
    requires forall i :: 0 <= i < |Toks(p)| ==> OneMark(Lits(p)[i])
    ensures AllOneMark(p)
  {
    if p.Part? {
      assert Lits(p)[0] == p.lit;
      assert forall i :: 0 <= i < |Toks(p.rest)| ==> Lits(p.rest)[i] == Lits(p)[i + 1];
      AllOneMarkOf(p.rest);
    }
  }

  /** A reading that comes first is the one with the values moved. */
  lemma RivalIsMoved(r: Rules, p: Parsed, q: Pattern, rd: Reading, vals: map<string, string>, a: Reading)
    requires Rendered(r, p, q, rd, vals) && OneMarkEach(Lits(p), Toks(p)) && p.Part?
    requires Fits(q, a) && Spell(q, a) == Render(p, vals) && Comes(q, a, rd)
    ensures MovesUp(p, r.Lists(), vals)
  {
    OneMarkParts(p);
    RenderedReads(r, p, q, rd, vals);
    ComesOnce(q, a, rd);
    TellableTemplate(p, r.Lists());
    OneReading(q, a, rd);
    ShapeOf(p, r.Lists(), vals);
    OnlyRival(p, r.Lists(), vals, a);
  }

  /** With one hyphen or dot between parts, an alias reads back as its values exactly
      unless they can move up: the earlier of two optional parts is left out, the later
      is there, and each value between could stand for the part before it. */
  lemma ReadsBackUnlessMoved(r: Rules, vals: map<string, string>)
    requires r.ListsOk() && AliasFault(r.AliasTemplate()).None?
    requires var p := Scan(r.AliasTemplate());
             OneMarkEach(Lits(p), Toks(p)) && Suits(p, vals) && ValuesListed(r.Lists(), vals)
    ensures var p := Scan(r.AliasTemplate());
            Parse(r, Render(p, vals)) == Some(Given(p, vals)) <==> !MovesUp(p, r.Lists(), vals)
  {
    var p := Scan(r.AliasTemplate());
    var q, rd := PatternOf(p, r.Lists()), ReadingOf(p, r.Lists(), vals);
    ReadsBackExactly(r, p, q, rd, vals);
    if a :| Fits(q, a) && Spell(q, a) == Render(p, vals) && Comes(q, a, rd) {
      RivalIsMoved(r, p, q, rd, vals, a);
    } else if MovesUp(p, r.Lists(), vals) {
      MovedIsRival(r, p, q, rd, vals);
      assert false;
    }
  }

  lemma MovedIsRival(r: Rules, p: Parsed, q: Pattern, rd: Reading, vals: map<string, string>)
    requires Rendered(r, p, q, rd, vals) && OneMarkEach(Lits(p), Toks(p)) && MovesUp(p, r.Lists(), vals)
    ensures var a := Rival(p, r.Lists(), vals); Fits(q, a) && Spell(q, a) == Render(p, vals) && Comes(q, a, rd)
  {
    OneMarkParts(p);
    RenderedReads(r, p, q, rd, vals);
    RivalReads(p, r.Lists(), vals);
  }
}
