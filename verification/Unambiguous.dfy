/** Why an alias has one reading: every separator holds a hyphen or a dot, and
    no value does. */
module Unambiguous {
  import opened Text
  import opened Pattern

  predicate IsMark(c: char) { c == '-' || c == '.' }

  predicate HasMark(s: string) { exists i :: 0 <= i < |s| && IsMark(s[i]) }

  function Marks(s: string): nat {
    if s == "" then 0 else (if IsMark(s[0]) then 1 else 0) + Marks(s[1..])
  }

  /** The index of the first mark, or |s|. */
  function FirstMark(s: string): (i: nat)
    ensures i <= |s| && (i < |s| <==> HasMark(s))
    ensures forall j :: 0 <= j < i ==> !IsMark(s[j])
    ensures i < |s| ==> IsMark(s[i])
  {
    if s == "" then 0
    else if IsMark(s[0]) then 0
    else
      var i := FirstMark(s[1..]);
      assert HasMark(s[1..]) ==> HasMark(s) by {
        if HasMark(s[1..]) {
          var j :| 0 <= j < |s| - 1 && IsMark(s[1..][j]);
          assert IsMark(s[j + 1]);
        }
      }
      1 + i
  }

  lemma {:induction false} FirstMarkOf(a: string, b: string)
    ensures HasMark(a) ==> HasMark(a + b) && FirstMark(a + b) == FirstMark(a)
    ensures !HasMark(a) ==> FirstMark(a + b) == |a| + FirstMark(b) && (HasMark(a + b) <==> HasMark(b))
  {
    if a == "" {
      assert a + b == b;
    } else {
      FirstMarkOf(a[1..], b);
      assert (a + b)[1..] == a[1..] + b;
      if HasMark(a) { assert IsMark((a + b)[FirstMark(a)]); }
    }
  }

  lemma {:induction false} MarksOf(a: string, b: string)
    ensures Marks(a + b) == Marks(a) + Marks(b)
  {
    if a == "" {
      assert a + b == b;
    } else {
      MarksOf(a[1..], b);
      assert (a + b)[1..] == a[1..] + b;
    }
  }

  lemma {:induction false} MarksPositive(s: string)
    ensures Marks(s) > 0 <==> HasMark(s)
  {
    if s != "" {
      MarksPositive(s[1..]);
      if HasMark(s) && !IsMark(s[0]) {
        var j :| 0 <= j < |s| && IsMark(s[j]);
        assert IsMark(s[1..][j - 1]);
      }
      if HasMark(s[1..]) {
        var j :| 0 <= j < |s| - 1 && IsMark(s[1..][j]);
        assert IsMark(s[j + 1]);
      }
    }
  }

  /** Every listed value is a usable one: lowercase letters and digits. */
  predicate PlainList(values: seq<string>) {
    forall v :: v in values ==> v != "" && AllAlnum(v)
  }

  /** No value a group of p accepts holds a mark. */
  predicate PlainValues(p: Pattern) {
    match p
    case Tail(_) => true
    case Group(_, kind, _, _, _, next) =>
      (kind.OneOf? ==> PlainList(kind.values)) && PlainValues(next)
  }

  lemma NoMarks(v: string)
    requires AllAlnum(v)
    ensures !HasMark(v) && Marks(v) == 0
  {
    MarksPositive(v);
  }

  /** Every group's own text before it holds a mark. */
  predicate MarkedBefore(p: Pattern) {
    match p
    case Tail(_) => true
    case Group(_, _, before, _, _, next) => HasMark(before) && MarkedBefore(next)
  }

  /** Between any two groups of p there is a mark. */
  predicate Apart(p: Pattern) {
    p.Group? && p.next.Group? ==>
      (HasMark(p.next.before) || HasMark(p.after)) && MarkedBefore(p.next.next)
  }

  /** The same optional parts are there in a and in b. */
  predicate SameParts(a: Reading, b: Reading) {
    match (a, b)
    case (NoMore, NoMore) => true
    case (Read(v, r), Read(w, s)) => v.Some? == w.Some? && SameParts(r, s)
    case _ => false
  }

  /** Two texts with the same parts in the same places either are the same text,
      or have their first mark at the same place. */
  lemma {:induction false} SameLead(p: Pattern, a: Reading, b: Reading)
    requires Fits(p, a) && Fits(p, b) && SameParts(a, b)
    requires MarkedBefore(p)
    ensures Spell(p, a) == Spell(p, b)
      || (HasMark(Spell(p, a)) && HasMark(Spell(p, b)) && FirstMark(Spell(p, a)) == FirstMark(Spell(p, b)))
  {
    match p
    case Tail(_) =>
    case Group(_, _, before, after, _, next) =>
      if a.value.None? {
        SameLead(next, a.rest, b.rest);
        assert Spell(p, a) == Spell(next, a.rest) && Spell(p, b) == Spell(next, b.rest);
      } else {
        Opens(p, a);
        Opens(p, b);
      }
  }

  /** A text that starts with a present group starts with that group's separator. */
  lemma Opens(p: Pattern, r: Reading)
    requires p.Group? && Fits(p, r) && r.value.Some?
    ensures Spell(p, r) == p.before + (r.value.value + (p.after + Spell(p.next, r.rest)))
    ensures HasMark(p.before) ==> HasMark(Spell(p, r)) && FirstMark(Spell(p, r)) == FirstMark(p.before)
  {
    var rest := r.value.value + (p.after + Spell(p.next, r.rest));
    assert Spell(p, r) == p.before + rest;
    FirstMarkOf(p.before, rest);
  }

  /** What follows a value decides where it ends. */
  lemma ValueEnds(v: string, w: string, x: string, y: string)
    requires AllAlnum(v) && AllAlnum(w) && v + x == w + y
    requires x == y || (HasMark(x) && HasMark(y) && FirstMark(x) == FirstMark(y))
    ensures v == w && x == y
  {
    if x == y {
      assert |v| == |w|;
    } else {
      NoMarks(v);
      NoMarks(w);
      FirstMarkOf(v, x);
      FirstMarkOf(w, y);
    }
    assert (v + x)[..|v|] == v && (w + y)[..|w|] == w;
    assert (v + x)[|v|..] == x && (w + y)[|w|..] == y;
  }

  lemma SameLeadAfter(after: string, x: string, y: string)
    requires x == y || HasMark(after) || (HasMark(x) && HasMark(y) && FirstMark(x) == FirstMark(y))
    ensures after + x == after + y
      || (HasMark(after + x) && HasMark(after + y) && FirstMark(after + x) == FirstMark(after + y))
  {
    FirstMarkOf(after, x);
    FirstMarkOf(after, y);
  }

  /** The first group's value, and what follows it, can be told from the text. */
  lemma FirstValue(p: Pattern, a: Reading, b: Reading)
    requires p.Group? && Fits(p, a) && Fits(p, b) && a.value.Some? == b.value.Some?
    requires PlainValues(p) && Spell(p, a) == Spell(p, b)
    requires var x, y := Spell(p.next, a.rest), Spell(p.next, b.rest);
             x == y || HasMark(p.after) || (HasMark(x) && HasMark(y) && FirstMark(x) == FirstMark(y))
    ensures a.value == b.value && Spell(p.next, a.rest) == Spell(p.next, b.rest)
  {
    var x, y := Spell(p.next, a.rest), Spell(p.next, b.rest);
    if a.value.None? {
      assert Spell(p, a) == x && Spell(p, b) == y;
    } else {
      Opens(p, a);
      Opens(p, b);
      var va, vb := a.value.value + (p.after + x), b.value.value + (p.after + y);
      assert (p.before + va)[|p.before|..] == va && (p.before + vb)[|p.before|..] == vb;
      SameLeadAfter(p.after, x, y);
      ValueEnds(a.value.value, b.value.value, p.after + x, p.after + y);
      assert (p.after + x)[|p.after|..] == x && (p.after + y)[|p.after|..] == y;
    }
  }

  lemma {:induction false} OneReadingMarked(p: Pattern, a: Reading, b: Reading)
    requires Fits(p, a) && Fits(p, b) && SameParts(a, b)
    requires PlainValues(p) && (p.Group? ==> MarkedBefore(p.next))
    requires Spell(p, a) == Spell(p, b)
    ensures a == b
  {
    if p.Group? {
      SameLead(p.next, a.rest, b.rest);
      FirstValue(p, a, b);
      OneReadingMarked(p.next, a.rest, b.rest);
    }
  }

  /** With the same parts there, the values are the same. */
  lemma OneReadingOfTheSameParts(p: Pattern, a: Reading, b: Reading)
    requires Fits(p, a) && Fits(p, b) && SameParts(a, b)
    requires PlainValues(p) && Apart(p)
    requires Spell(p, a) == Spell(p, b)
    ensures a == b
  {
    if p.Group? {
      if p.next.Tail? || HasMark(p.next.before) { SameLead(p.next, a.rest, b.rest); }
      FirstValue(p, a, b);
      OneReadingMarked(p.next, a.rest, b.rest);
    }
  }

  // Which optional parts are there can be told too, but for one case.

  /** Which of the optional parts r has, in order. */
  function Shape(p: Pattern, r: Reading): seq<bool>
    requires Fits(p, r)
  {
    match p
    case Tail(_) => []
    case Group(_, _, _, _, optional, next) => (if optional then [r.value.Some?] else []) + Shape(next, r.rest)
  }

  /** The marks each optional part takes with it when it is left out. */
  function Weights(p: Pattern): seq<nat> {
    match p
    case Tail(_) => []
    case Group(_, _, before, after, optional, next) =>
      (if optional then [Marks(before) + Marks(after)] else []) + Weights(next)
  }

  /** The marks that are always there. */
  function Fixed(p: Pattern): nat {
    match p
    case Tail(text) => Marks(text)
    case Group(_, _, before, after, optional, next) =>
      (if optional then 0 else Marks(before) + Marks(after)) + Fixed(next)
  }

  function Sum(weights: seq<nat>, there: seq<bool>): nat
    requires |weights| == |there|
  {
    if weights == [] then 0 else (if there[0] then weights[0] else 0) + Sum(weights[1..], there[1..])
  }

  lemma MarksOfGroup(p: Pattern, r: Reading)
    requires p.Group? && Fits(p, r) && PlainValues(p)
    ensures Marks(Spell(p, r)) ==
            (if r.value.Some? then Marks(p.before) + Marks(p.after) else 0) + Marks(Spell(p.next, r.rest))
  {
    var x := Spell(p.next, r.rest);
    if r.value.Some? {
      Opens(p, r);
      NoMarks(r.value.value);
      MarksOf(p.before, r.value.value + (p.after + x));
      MarksOf(r.value.value, p.after + x);
      MarksOf(p.after, x);
    } else {
      assert Spell(p, r) == x;
    }
  }

  /** A text has the marks that are always there and those of the optional parts it has. */
  lemma {:induction false} MarksSum(p: Pattern, r: Reading)
    requires Fits(p, r) && PlainValues(p)
    ensures |Shape(p, r)| == |Weights(p)|
    ensures Marks(Spell(p, r)) == Fixed(p) + Sum(Weights(p), Shape(p, r))
  {
    if p.Group? {
      MarksSum(p.next, r.rest);
      MarksOfGroup(p, r);
      if p.optional {
        assert Weights(p)[1..] == Weights(p.next) && Shape(p, r)[1..] == Shape(p.next, r.rest);
      } else {
        assert Weights(p) == Weights(p.next) && Shape(p, r) == Shape(p.next, r.rest);
      }
    }
  }

  lemma {:induction false} SameShape(p: Pattern, a: Reading, b: Reading)
    requires Fits(p, a) && Fits(p, b)
    ensures |Shape(p, a)| == |Shape(p, b)|
    ensures Shape(p, a) == Shape(p, b) <==> SameParts(a, b)
  {
    if p.Group? {
      SameShape(p.next, a.rest, b.rest);
      if p.optional {
        assert Shape(p, a)[0] == a.value.Some? && Shape(p, b)[0] == b.value.Some?;
        assert Shape(p, a)[1..] == Shape(p.next, a.rest) && Shape(p, b)[1..] == Shape(p.next, b.rest);
      } else {
        assert Shape(p, a) == Shape(p.next, a.rest) && Shape(p, b) == Shape(p.next, b.rest);
      }
    }
  }

  /** Of two optional parts that take as many marks, a has one and b the other. */
  predicate Swapped(weights: seq<nat>, a: seq<bool>, b: seq<bool>) {
    && |weights| == |a| == |b| == 2
    && weights[0] == weights[1] && a[0] != a[1] && b == [a[1], a[0]]
  }

  /** No such pair: both parts are there, or neither, or their marks differ in number. */
  predicate Told(weights: seq<nat>, there: seq<bool>) {
    |weights| == |there| == 2 ==> weights[0] != weights[1] || there[0] == there[1]
  }

  lemma SumTells(weights: seq<nat>, a: seq<bool>, b: seq<bool>)
    requires |weights| == |a| == |b| <= 2
    requires forall i :: 0 <= i < |weights| ==> weights[i] > 0 || (i == 0 && a[0] == b[0])
    requires Sum(weights, a) == Sum(weights, b)
    ensures a == b || Swapped(weights, a, b)
  {
    if |weights| == 2 {
      assert Sum(weights[1..], a[1..]) == if a[1] then weights[1] else 0;
      assert Sum(weights[1..], b[1..]) == if b[1] then weights[1] else 0;
    }
  }

  /** A mark between any two parts, two optional parts at most and not in a row, and
      when the first part is optional and has no mark of its own, text that shows it. */
  predicate Tellable(p: Pattern) {
    && PlainValues(p) && Apart(p) && |Weights(p)| <= 2
    && (LeadingText(p) ==> p.before != "" && p.next.Group? && !p.next.optional && HasMark(p.next.before))
    && (p.Group? && p.next.Group? && p.next.optional ==> !p.optional && HasMark(p.next.before))
  }

  /** The first part is optional, and no mark goes with it. */
  predicate LeadingText(p: Pattern) { p.Group? && p.optional && !HasMark(p.before) && !HasMark(p.after) }

  lemma {:induction false} MarkedWeights(p: Pattern)
    requires MarkedBefore(p)
    ensures forall i :: 0 <= i < |Weights(p)| ==> Weights(p)[i] > 0
  {
    if p.Group? {
      MarkedWeights(p.next);
      MarksPositive(p.before);
    }
  }

  lemma WeightsPositive(p: Pattern)
    requires Tellable(p)
    ensures forall i :: 0 <= i < |Weights(p)| ==> Weights(p)[i] > 0 || (i == 0 && LeadingText(p))
  {
    if p.Group? {
      var own := if p.optional then [Marks(p.before) + Marks(p.after)] else [];
      MarksPositive(p.before);
      MarksPositive(p.after);
      if p.next.Group? {
        MarkedWeights(p.next.next);
        MarksPositive(p.next.before);
        assert Weights(p) == own + Weights(p.next);
        assert p.next.optional ==> own == [];
        assert !p.next.optional ==> Weights(p.next) == Weights(p.next.next);
      } else {
        assert Weights(p) == own;
      }
    }
  }

  /** The number of hyphens and dots tells which optional parts are there, save for one
      of two with as many. */
  lemma MarksTellParts(p: Pattern, a: Reading, b: Reading)
    requires Fits(p, a) && Fits(p, b) && Tellable(p)
    requires Spell(p, a) == Spell(p, b)
    ensures SameParts(a, b) || Swapped(Weights(p), Shape(p, a), Shape(p, b))
  {
    MarksSum(p, a);
    MarksSum(p, b);
    SameShape(p, a, b);
    WeightsPositive(p);
    if LeadingText(p) {
      if a.value.Some? && b.value.None? { LeadingTextShows(p, a, b); }
      if b.value.Some? && a.value.None? { LeadingTextShows(p, b, a); }
    }
    SumTells(Weights(p), Shape(p, a), Shape(p, b));
  }

  /** A text has one reading, save that one of two optional parts may be read for the
      other when they take as many marks. */
  lemma OneReading(p: Pattern, a: Reading, b: Reading)
    requires Tellable(p) && Fits(p, a) && Fits(p, b)
    requires Spell(p, a) == Spell(p, b)
    ensures a == b || Swapped(Weights(p), Shape(p, a), Shape(p, b))
  {
    MarksTellParts(p, a, b);
    if SameParts(a, b) { OneReadingOfTheSameParts(p, a, b); }
  }

  /** A first optional part with text before it moves the first mark to the right. */
  lemma LeadingTextShows(p: Pattern, a: Reading, b: Reading)
    requires Tellable(p) && LeadingText(p) && Fits(p, a) && Fits(p, b)
    requires a.value.Some? && b.value.None?
    ensures Spell(p, a) != Spell(p, b)
  {
    var next := p.next;
    Opens(p, a);
    NoMarks(a.value.value);
    Opens(next, a.rest);
    Opens(next, b.rest);
    var x := Spell(next, a.rest);
    FirstMarkOf(p.after, x);
    FirstMarkOf(a.value.value, p.after + x);
    FirstMarkOf(p.before, a.value.value + (p.after + x));
    assert Spell(p, b) == Spell(next, b.rest);
  }
}
