/** When exactly a generated alias is new, whatever names are taken. */
module Fresh {
  import opened Text
  import opened Template
  import opened Pattern
  import opened Unambiguous
  import opened Naming
  import opened Alias
  import opened Rivals
  import opened Generate

  // When a generated alias is new, exactly.

  function NameOf(r: Rules, parts: map<string, string>): nat -> string {
    (n: nat) => Numbered(r, parts, n)
  }

  /** No list of taken names makes the search return one of them. */
  ghost predicate AlwaysNew(usage: string -> Option<nat>, naming: nat -> string, start: nat) {
    forall taken: seq<string>, n: nat :: n < MAX_INT && LowestFree(Used(usage, taken), start, n) ==> naming(n) !in taken
  }

  /** Each alias that could be returned reads back as itself. */
  ghost predicate ReadBack(usage: string -> Option<nat>, naming: nat -> string, start: nat) {
    forall n: nat :: start <= n < MAX_INT ==> usage(naming(n)) == Some(n)
  }

  /** The first number whose alias misreads gives a list that is handed back one of
      its own names: those up to and including it. */
  lemma FirstMisread(usage: string -> Option<nat>, naming: nat -> string, start: nat, n: nat) returns (taken: seq<string>)
    requires start <= n && usage(naming(n)) != Some(n)
    requires forall k: nat :: start <= k < n ==> usage(naming(k)) == Some(k)
    ensures LowestFree(Used(usage, taken), start, n) && naming(n) in taken
  {
    taken := seq(n + 1 - start, i requires 0 <= i => naming(start + i));
    var used := Used(usage, taken);
    forall k: nat | start <= k < n ensures Some(k) in used { assert used[k - start] == Some(k); }
    forall i | 0 <= i < |used| ensures used[i] != Some(n) { assert taken[i] == naming(start + i); }
    assert taken[n - start] == naming(n);
  }

  lemma {:induction false} LeastMisread(usage: string -> Option<nat>, naming: nat -> string, start: nat, n: nat)
    returns (m: nat)
    requires start <= n && usage(naming(n)) != Some(n)
    ensures start <= m <= n && usage(naming(m)) != Some(m)
    ensures forall k: nat :: start <= k < m ==> usage(naming(k)) == Some(k)
    decreases n
  {
    if k: nat :| start <= k < n && usage(naming(k)) != Some(k) {
      m := LeastMisread(usage, naming, start, k);
    } else {
      m := n;
    }
  }

  /** The search never returns a taken name exactly when each alias it could return
      reads back as itself. */
  lemma NewExactly(usage: string -> Option<nat>, naming: nat -> string, start: nat)
    ensures AlwaysNew(usage, naming, start) <==> ReadBack(usage, naming, start)
  {
    if n: nat :| start <= n < MAX_INT && usage(naming(n)) != Some(n) {
      var m := LeastMisread(usage, naming, start, n);
      var taken := FirstMisread(usage, naming, start, m);
      assert !AlwaysNew(usage, naming, start);
    } else {
      forall taken: seq<string>, n: nat | n < MAX_INT && LowestFree(Used(usage, taken), start, n)
        ensures naming(n) !in taken
      {
        assert usage(naming(n)) == Some(n);
        assert forall i :: 0 <= i < |taken| ==> Used(usage, taken)[i] != Some(n);
      }
    }
  }

  // What a name uses up.

  /** A reading of the kind asked for has the parts asked for. */
  lemma {:induction false} SameKindShape(p: Parsed, lists: map<string, seq<string>>, a: Reading,
                                        found: map<string, string>, parts: map<string, string>)
    requires NoTwoOptional(p) && Fits(PatternOf(p, lists), a) && Holds(PatternOf(p, lists), a, found)
    requires forall t :: t in Toks(p) && t.optional ==> Val(found, t.name) == Val(parts, t.name)
    ensures Shape(PatternOf(p, lists), a) == OptionalGiven(p, parts)
    decreases |Toks(p)|
  {
    match p
    case Last(_) =>
    case Part(lit, t, rest) =>
      assert t in Toks(p) && forall u :: u in Toks(rest) ==> u in Toks(p);
      if t.optional && lit == "" {
        Blanked(rest);
        var bare := rest.(lit := "");
        SameKindShape(bare, lists, a.rest, found, parts);
        assert OptionalGiven(bare, parts) == OptionalGiven(rest, parts);
      } else {
        SameKindShape(rest, lists, a.rest, found, parts);
      }
  }

  /** The values asked for are listed where a list is kept. */
  lemma FillListed(r: Rules, parts: map<string, string>, n: nat)
    requires GenerateFault(r, parts).None?
    ensures ValuesListed(r.Lists(), Fill(r, parts, n))
  {
    var vals := Fill(r, parts, n);
    forall k | k in r.Lists() && r.Lists()[k] != [] && Val(vals, k) != "" ensures Val(vals, k) in r.Lists()[k] {
      assert k == "env" || k == "role";
      assert k[0] != 'n' && Val(vals, k) == Val(parts, k);
    }
  }

  lemma KindTells(r: Rules, parts: map<string, string>, n: nat, q: Pattern, rd: Reading, a: Reading)
    requires Rendered(r, Scan(r.AliasTemplate()), q, rd, Fill(r, parts, n)) && Fits(q, a) && Fits(q, rd)
    requires var p := Scan(r.AliasTemplate()); Separated(Lits(p), Toks(p)) && Holds(q, a, PartsOf(q, a))
    requires Spell(q, a) == Spell(q, rd) && SameKind(Toks(Scan(r.AliasTemplate())), PartsOf(q, a), parts)
    ensures a == rd
  {
    var p := Scan(r.AliasTemplate());
    CheckAliasExact(r.AliasTemplate());
    TellableTemplate(p, r.Lists());
    forall t | t in Toks(p) && t.optional ensures Val(PartsOf(q, a), t.name) == Val(parts, t.name) {
      var i :| 0 <= i < |Toks(p)| && Toks(p)[i] == t;
      assert Toks(p)[i].name != "nn";
    }
    SameKindShape(p, r.Lists(), a, PartsOf(q, a), parts);
    FillGives(r, parts, n);
    ShapeOf(p, r.Lists(), Fill(r, parts, n));
    OneReading(q, a, rd);
  }

  /** A name read as of the kind asked for is read as what was asked for. */
  lemma UsedIsRead(r: Rules, parts: map<string, string>, n: nat, p: Parsed, q: Pattern, rd: Reading)
    requires p == Scan(r.AliasTemplate()) && Rendered(r, p, q, rd, Fill(r, parts, n)) && Separated(Lits(p), Toks(p))
    requires NumberUsed(r, parts, Numbered(r, parts, n)).Some?
    ensures Match(q, Numbered(r, parts, n)) == Some(rd)
  {
    RenderedReads(r, p, q, rd, Fill(r, parts, n));
    MatchComplete(q, rd);
    MatchSound(q, Numbered(r, parts, n));
    var a := Match(q, Numbered(r, parts, n)).value;
    assert Parse(r, Numbered(r, parts, n)) == Some(PartsOf(q, a));
    ScanWidths(r.AliasTemplate());
    FitsWithoutEmpty(p, r.Lists(), a);
    PartsHold(q, a);
    KindTells(r, parts, n, q, rd, a);
  }

  /** With a mark in every separator, an alias uses up its own number exactly when it
      reads back as what was asked for. */
  lemma UsesExactly(r: Rules, parts: map<string, string>, n: nat)
    requires r.ListsOk() && GenerateFault(r, parts).None? && n <= MAX_INT
    requires var p := Scan(r.AliasTemplate()); Separated(Lits(p), Toks(p))
    ensures NumberUsed(r, parts, Numbered(r, parts, n)) == Some(n) <==>
            Parse(r, Numbered(r, parts, n)) == Some(Requested(r, parts, n))
  {
    var p, vals := Scan(r.AliasTemplate()), Fill(r, parts, n);
    var q, rd := PatternOf(p, r.Lists()), ReadingOf(p, r.Lists(), vals);
    FillSuits(r, parts, n);
    FillListed(r, parts, n);
    FoundExactly(r, p, q, rd, vals);
    if Parse(r, Numbered(r, parts, n)) == Some(Requested(r, parts, n)) {
      UsesItsNumber(r, parts, n);
    } else if NumberUsed(r, parts, Numbered(r, parts, n)) == Some(n) {
      UsedIsRead(r, parts, n, p, q, rd);
    }
  }

  /** The alias numbered n can be read with the values asked for moved up. */
  predicate Moves(r: Rules, parts: map<string, string>, n: nat) {
    MovesUp(Scan(r.AliasTemplate()), r.Lists(), Fill(r, parts, n))
  }

  /** No list of taken names makes Generate return one of them. */
  ghost predicate NeverTaken(r: Rules, parts: map<string, string>)
    requires 0 <= r.start
  {
    forall taken: seq<string>, n: nat ::
      n < MAX_INT && LowestFree(Used(Usage(r, parts), taken), r.start, n) ==> Numbered(r, parts, n) !in taken
  }

  /** The alias numbered n has a reading that is tried before that of the values. */
  predicate Outrun(r: Rules, parts: map<string, string>, n: nat) {
    var q := PatternOf(Scan(r.AliasTemplate()), r.Lists());
    var rd := ReadingFor(q, Fill(r, parts, n));
    Fits(q, rd) && HasRival(q, rd)
  }

  /** With a mark in every separator, what Generate returns is never taken exactly when
      no alias it could return has a reading that is tried first. */
  lemma NeverTakenMarked(r: Rules, parts: map<string, string>)
    requires r.ListsOk() && 0 <= r.start && GenerateFault(r, parts).None?
    requires var p := Scan(r.AliasTemplate()); Separated(Lits(p), Toks(p))
    ensures NeverTaken(r, parts) <==> forall n: nat :: r.start <= n < MAX_INT ==> !Outrun(r, parts, n)
  {
    var p := Scan(r.AliasTemplate());
    NewExactly(Usage(r, parts), NameOf(r, parts), r.start);
    assert forall n: nat :: NameOf(r, parts)(n) == Numbered(r, parts, n);
    assert NeverTaken(r, parts) <==> AlwaysNew(Usage(r, parts), NameOf(r, parts), r.start);
    forall n: nat | r.start <= n < MAX_INT ensures Usage(r, parts)(NameOf(r, parts)(n)) == Some(n) <==> !Outrun(r, parts, n) {
      var vals, q := Fill(r, parts, n), PatternOf(p, r.Lists());
      UsesExactly(r, parts, n);
      FillSuits(r, parts, n);
      FillListed(r, parts, n);
      RenderedReads(r, p, q, ReadingFor(q, vals), vals);
      RivalExactly(r, p, q, ReadingFor(q, vals), vals);
    }
  }

  /** With one hyphen or dot between parts, what Generate returns is never taken exactly
      when no number lets the values asked for move up. */
  lemma NeverTakenExactly(r: Rules, parts: map<string, string>)
    requires r.ListsOk() && 0 <= r.start && GenerateFault(r, parts).None?
    requires var p := Scan(r.AliasTemplate()); OneMarkEach(Lits(p), Toks(p))
    ensures NeverTaken(r, parts) <==> forall n: nat :: r.start <= n < MAX_INT ==> !Moves(r, parts, n)
  {
    var p := Scan(r.AliasTemplate());
    CheckAliasExact(r.AliasTemplate());
    OneMarkParts(p);
    NewExactly(Usage(r, parts), NameOf(r, parts), r.start);
    assert forall n: nat :: NameOf(r, parts)(n) == Numbered(r, parts, n);
    assert NeverTaken(r, parts) <==> AlwaysNew(Usage(r, parts), NameOf(r, parts), r.start);
    forall n: nat | r.start <= n < MAX_INT ensures Usage(r, parts)(NameOf(r, parts)(n)) == Some(n) <==> !Moves(r, parts, n) {
      UsesExactly(r, parts, n);
      FillSuits(r, parts, n);
      FillListed(r, parts, n);
      ReadsBackUnlessMoved(r, Fill(r, parts, n));
    }
  }

  // One look is enough.

  predicate NoNumberListed(lists: map<string, seq<string>>) {
    forall k :: k in lists ==> forall v :: v in lists[k] ==> !AllDigits(v)
  }

  /** Two fillings that differ in the number alone. */
  ghost predicate ButForNumber(a: map<string, string>, b: map<string, string>) {
    && (forall k :: k != "nn" ==> Val(a, k) == Val(b, k))
    && Val(a, "nn") != "" && AllDigits(Val(a, "nn")) && Val(b, "nn") != "" && AllDigits(Val(b, "nn"))
  }

  /** p has no number part once c is the number's. */
  predicate NumberOnce(p: Parsed, c: Class) { c.Number? ==> !Names(Toks(p), "nn") }

  lemma NamesFirst(p: Parsed, name: string)
    requires p.Part?
    ensures Names(Toks(p), name) <==> p.tok.name == name || Names(Toks(p.rest), name)
  {
    assert Toks(p)[0] == p.tok;
    assert forall i :: 0 <= i < |Toks(p.rest)| ==> Toks(p.rest)[i] == Toks(p)[i + 1];
    if Names(Toks(p.rest), name) {
      var i :| 0 <= i < |Toks(p.rest)| && Toks(p.rest)[i].name == name;
      assert Toks(p)[i + 1].name == name;
    }
    if i :| 0 <= i < |Toks(p)| && Toks(p)[i].name == name {
      if i > 0 { assert Toks(p.rest)[i - 1].name == name; }
    }
  }

  predicate EachOnce(p: Parsed) { p.Part? ==> !Names(Toks(p.rest), p.tok.name) && EachOnce(p.rest) }

  lemma {:induction false} EachOnceOf(p: Parsed)
    requires forall i, j :: 0 <= i < j < |Toks(p)| ==> Toks(p)[i].name != Toks(p)[j].name
    ensures EachOnce(p)
  {
    if p.Part? {
      assert Toks(p)[0] == p.tok;
      assert forall i :: 0 <= i < |Toks(p.rest)| ==> Toks(p.rest)[i] == Toks(p)[i + 1];
      EachOnceOf(p.rest);
    }
  }

  lemma NumberElsewhere(c: Class, lists: map<string, seq<string>>, a: string, b: string)
    requires !c.Number? && (c.OneOf? ==> forall v :: v in c.values ==> !AllDigits(v))
    requires a != "" && b != "" && AllDigits(a) && AllDigits(b)
    ensures Accepts(c, a) == Accepts(c, b)
  {
  }

  lemma {:induction false} SameMove(p: Parsed, lists: map<string, seq<string>>, a: map<string, string>, b: map<string, string>,
                                   c: Class, sep: string)
    requires EachOnce(p) && NumberOnce(p, c) && NoNumberListed(lists) && ButForNumber(a, b)
    requires c.OneOf? ==> forall v :: v in c.values ==> !AllDigits(v)
    ensures MovesInto(p, lists, a, c, sep) == MovesInto(p, lists, b, c, sep)
  {
    if p.Part? {
      NamesFirst(p, "nn");
      if p.tok.name == "nn" { NumberElsewhere(c, lists, Val(a, "nn"), Val(b, "nn")); }
      SameMove(p.rest, lists, a, b, ClassOf(p.tok, lists), p.lit);
    }
  }

  lemma {:induction false} SameMoves(p: Parsed, lists: map<string, seq<string>>, a: map<string, string>, b: map<string, string>)
    requires EachOnce(p) && NoNumberListed(lists) && ButForNumber(a, b)
    requires forall t :: t in Toks(p) && t.optional ==> t.name != "nn"
    ensures MovesUp(p, lists, a) == MovesUp(p, lists, b)
  {
    if p.Part? {
      assert p.tok in Toks(p) && forall t :: t in Toks(p.rest) ==> t in Toks(p);
      if !p.tok.optional {
        SameMoves(p.rest, lists, a, b);
      } else {
        SameMove(p.rest, lists, a, b, ClassOf(p.tok, lists), p.lit);
        if p.rest.Part? {
          SameMove(p.rest.rest, lists, a, b, ClassOf(p.rest.tok, lists), p.rest.lit);
          if p.rest.tok.name == "nn" { NumberElsewhere(ClassOf(p.tok, lists), lists, Val(a, "nn"), Val(b, "nn")); }
        }
      }
    }
  }

  /** With no number among the listed values, the first number tells for all: what
      Generate returns is never taken exactly when the values asked for cannot move up. */
  lemma NeverTakenAtOnce(r: Rules, parts: map<string, string>)
    requires r.ListsOk() && 0 <= r.start < MAX_INT && GenerateFault(r, parts).None? && NoNumberListed(r.Lists())
    requires var p := Scan(r.AliasTemplate()); OneMarkEach(Lits(p), Toks(p))
    ensures NeverTaken(r, parts) <==> !Moves(r, parts, r.start)
  {
    var p := Scan(r.AliasTemplate());
    NeverTakenExactly(r, parts);
    CheckAliasExact(r.AliasTemplate());
    EachOnceOf(p);
    forall n: nat ensures Moves(r, parts, n) == Moves(r, parts, r.start) {
      SameMoves(p, r.Lists(), Fill(r, parts, n), Fill(r, parts, r.start));
    }
  }
}
