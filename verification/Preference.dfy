/** Which of a text's readings the engine finds: the first in the order it tries them,
    whatever the pattern. */
module Preference {
  import opened Text
  import opened Pattern

  /** u comes before v in values, v's first place counted. */
  predicate Before(values: seq<string>, u: string, v: string) {
    values != [] && (if values[0] == u then v != u else values[0] != v && Before(values[1..], u, v))
  }

  /** A group tries u before v: the longer one, or the one listed first. */
  predicate Sooner(c: Class, u: string, v: string) {
    match c
    case OneOf(values) => Before(values, u, v)
    case _ => |u| > |v|
  }

  /** Reading a is tried before b: at the first group they differ in, a has the value
      tried sooner, or has one where b has none. */
  predicate Comes(p: Pattern, a: Reading, b: Reading) {
    p.Group? && a.Read? && b.Read?
    && (if a.value == b.value then Comes(p.next, a.rest, b.rest)
        else a.value.Some? && (b.value.None? || Sooner(p.kind, a.value.value, b.value.value)))
  }

  lemma {:induction false} BeforeOnce(values: seq<string>, u: string, v: string)
    ensures !(Before(values, u, v) && Before(values, v, u))
    ensures Before(values, u, v) ==> u != v
  {
    if values != [] { BeforeOnce(values[1..], u, v); }
  }

  /** No reading comes before itself, and no two before each other. */
  lemma {:induction false} ComesOnce(p: Pattern, a: Reading, b: Reading)
    ensures !(Comes(p, a, b) && Comes(p, b, a))
    ensures Comes(p, a, b) ==> a != b
  {
    if p.Group? && a.Read? && b.Read? {
      if a.value == b.value {
        ComesOnce(p.next, a.rest, b.rest);
      } else if a.value.Some? && b.value.Some? && p.kind.OneOf? {
        BeforeOnce(p.kind.values, a.value.value, b.value.value);
      }
    }
  }

  // The candidates are in that order.

  lemma {:induction false} ShrinkingOrder(s: string, n: int, least: nat, u: string, v: string)
    requires n <= |s| && Before(Shrinking(s, n, least), u, v) && v in Shrinking(s, n, least)
    ensures |u| > |v|
    decreases n
  {
    if u != s[..n] { ShrinkingOrder(s, n - 1, least, u, v); }
  }

  lemma {:induction false} StartsOrder(values: seq<string>, s: string, u: string, v: string)
    requires Before(StartsOf(values, s), u, v) && v in StartsOf(values, s) && u <= s
    ensures Before(values, u, v)
  {
    if values[0] <= s {
      assert StartsOf(values, s)[1..] == StartsOf(values[1..], s);
      if values[0] != u { StartsOrder(values[1..], s, u, v); }
    } else {
      assert StartsOf(values, s) == StartsOf(values[1..], s);
      StartsOrder(values[1..], s, u, v);
    }
  }

  lemma CandidatesOrder(c: Class, s: string, u: string, v: string)
    requires Before(Candidates(c, s), u, v) && v in Candidates(c, s) && u in Candidates(c, s)
    ensures Sooner(c, u, v)
  {
    match c
    case Word => ShrinkingOrder(s, RunLength(s, false), 1, u, v);
    case Number(width) => ShrinkingOrder(s, RunLength(s, true), width, u, v);
    case OneOf(values) => StartsOrder(values, s, u, v);
  }

  // The search.

  /** The engine's reading of a text is the one asked about, or is tried before it. */
  lemma {:induction false} MatchFirst(p: Pattern, r: Reading)
    requires Fits(p, r)
    ensures var found := Match(p, Spell(p, r));
            found.Some? && (found.value == r || Comes(p, found.value, r))
    decreases p, 1, 0
  {
    MatchComplete(p, r);
    match p
    case Tail(_) =>
    case Group(_, kind, before, after, optional, next) =>
      var s := Spell(p, r);
      match r.value
      case None =>
        MatchFirst(next, r.rest);
        assert s == Spell(next, r.rest);
        if before <= s && FirstFit(p, s[|before|..], Candidates(kind, s[|before|..])).Some? {
          FoundFits(p, s[|before|..], Candidates(kind, s[|before|..]));
        }
      case Some(v) =>
        var behind := after + Spell(next, r.rest);
        assert s == before + (v + behind);
        assert s[|before|..] == v + behind;
        FirstFitFirst(p, v + behind, Candidates(kind, v + behind), v, r.rest);
        var u := FirstFit(p, v + behind, Candidates(kind, v + behind)).value.value.value;
        if u != v { CandidatesOrder(kind, v + behind, u, v); }
  }

  lemma {:induction false} FirstFitFirst(p: Pattern, s: string, candidates: seq<string>, v: string, rest: Reading)
    requires p.Group? && Fits(p.next, rest)
    requires forall c :: c in candidates ==> c <= s
    requires v in candidates && s == v + (p.after + Spell(p.next, rest))
    ensures var found := FirstFit(p, s, candidates);
            && found.Some? && found.value.Read? && found.value.value.Some?
            && var u := found.value.value.value;
            && u in candidates
            && (if u == v then found.value.rest == rest || Comes(p.next, found.value.rest, rest) else Before(candidates, u, v))
    decreases p, 0, |candidates|
  {
    FirstFitComplete(p, s, candidates, v, rest);
    var first := candidates[0];
    assert first in candidates && forall c :: c in candidates[1..] ==> c in candidates;
    if first == v {
      MatchFirst(p.next, rest);
      assert s[|v|..] == p.after + Spell(p.next, rest);
      assert s[|v|..][|p.after|..] == Spell(p.next, rest);
    } else {
      var behind := s[|first|..];
      if !(p.after <= behind && Match(p.next, behind[|p.after|..]).Some?) {
        FirstFitFirst(p, s, candidates[1..], v, rest);
        FoundFits(p, s, candidates[1..]);
      }
    }
  }

  lemma {:induction false} FoundFits(p: Pattern, s: string, candidates: seq<string>)
    requires p.Group? && forall c :: c in candidates ==> c <= s
    requires FirstFit(p, s, candidates).Some?
    ensures var found := FirstFit(p, s, candidates).value;
            && found.Read? && found.value.Some? && found.value.value <= s
            && var behind := s[|found.value.value|..];
            p.after <= behind && Match(p.next, behind[|p.after|..]).Some?
    decreases |candidates|
  {
    var v := candidates[0];
    assert v in candidates && forall c :: c in candidates[1..] ==> c in candidates;
    var behind := s[|v|..];
    if !(p.after <= behind && Match(p.next, behind[|p.after|..]).Some?) { FoundFits(p, s, candidates[1..]); }
  }
}
