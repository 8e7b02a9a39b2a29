/** Reading a text without a search, when it is known which optional parts are there: the
    separators' marks say where each value ends. */
module Cutting {
  import opened Text
  import opened Pattern
  import opened Unambiguous

  /** The text before p's first value, when these optional parts are there. */
  function Lead(p: Pattern, there: seq<bool>): string
    requires |there| == |Weights(p)|
  {
    match p
    case Tail(text) => text
    case Group(_, _, before, _, optional, next) =>
      if optional && !there[0] then Lead(next, Later(p, there)) else before
  }

  /** What of the optional parts is left after p's first part. */
  function Later(p: Pattern, there: seq<bool>): (later: seq<bool>)
    requires p.Group? && |there| == |Weights(p)|
    ensures |later| == |Weights(p.next)|
  {
    if p.optional then there[1..] else there
  }

  /** A value ends where the next mark is, less the text behind it up to its own. */
  function ValueEnd(t: string, behind: string): int {
    if HasMark(behind) then FirstMark(t) - FirstMark(behind) else |t| - |behind|
  }

  /** The value of a part that is there, and what follows its separator. */
  function CutValue(p: Pattern, behind: string, s: string): Option<(string, string)>
    requires p.Group?
  {
    if !(p.before <= s) then None
    else
      var t := s[|p.before|..];
      var n := ValueEnd(t, p.after + behind);
      if !(0 <= n <= |t|) || !Accepts(p.kind, t[..n]) || !(p.after <= t[n..]) then None
      else Some((t[..n], t[n..][|p.after|..]))
  }

  /** s read with just these optional parts there, one value after another. */
  function CutRead(p: Pattern, there: seq<bool>, s: string): Option<Reading>
    requires |there| == |Weights(p)|
  {
    match p
    case Tail(text) => if s == text then Some(NoMore) else None
    case Group(_, _, _, _, optional, next) =>
      var later := Later(p, there);
      if optional && !there[0] then
        match CutRead(next, later, s)
        case None => None
        case Some(r) => Some(Read(None, r))
      else
        match CutValue(p, Lead(next, later), s)
        case None => None
        case Some((v, x)) =>
          match CutRead(next, later, x)
          case None => None
          case Some(r) => Some(Read(Some(v), r))
  }

  lemma CutValueSound(p: Pattern, behind: string, s: string)
    requires p.Group? && CutValue(p, behind, s).Some?
    ensures var (v, x) := CutValue(p, behind, s).value; Accepts(p.kind, v) && s == p.before + (v + (p.after + x))
  {
    var t := s[|p.before|..];
    var n := ValueEnd(t, p.after + behind);
    assert s == p.before + t && t == t[..n] + t[n..] && t[n..] == p.after + t[n..][|p.after|..];
  }

  lemma PresentGroup(p: Pattern, v: string, r: Reading, there: seq<bool>)
    requires p.Group? && |there| == |Weights(p)| && (p.optional ==> there[0])
    requires Accepts(p.kind, v) && Fits(p.next, r) && Shape(p.next, r) == Later(p, there)
    ensures var whole := Read(Some(v), r);
            Fits(p, whole) && Shape(p, whole) == there && Spell(p, whole) == p.before + (v + (p.after + Spell(p.next, r)))
  {
    Opens(p, Read(Some(v), r));
    if p.optional { assert [true] + there[1..] == there; }
  }

  lemma AbsentGroup(p: Pattern, r: Reading, there: seq<bool>)
    requires p.Group? && p.optional && |there| == |Weights(p)| && !there[0]
    requires Fits(p.next, r) && Shape(p.next, r) == Later(p, there)
    ensures Fits(p, Read(None, r)) && Shape(p, Read(None, r)) == there && Spell(p, Read(None, r)) == Spell(p.next, r)
  {
    assert [false] + there[1..] == there;
    assert "" + Spell(p.next, r) == Spell(p.next, r);
  }

  /** What is cut fits, has those parts, and spells the text. */
  lemma {:induction false} CutReadSound(p: Pattern, there: seq<bool>, s: string)
    requires |there| == |Weights(p)| && CutRead(p, there, s).Some?
    ensures var r := CutRead(p, there, s).value; Fits(p, r) && Shape(p, r) == there && Spell(p, r) == s
  {
    if p.Group? {
      var later := Later(p, there);
      if p.optional && !there[0] {
        CutReadSound(p.next, later, s);
        AbsentGroup(p, CutRead(p.next, later, s).value, there);
      } else {
        var (v, x) := CutValue(p, Lead(p.next, later), s).value;
        CutValueSound(p, Lead(p.next, later), s);
        CutReadSound(p.next, later, x);
        PresentGroup(p, v, CutRead(p.next, later, x).value, there);
      }
    }
  }

  /** Behind p's first part is a mark before the next value, wherever that is. */
  predicate Cuttable(p: Pattern) {
    p.Group? ==> MarkedBefore(p.next) || (HasMark(p.after) && (p.next.Group? ==> MarkedBefore(p.next.next)))
  }

  lemma ShapeStep(p: Pattern, r: Reading)
    requires p.Group? && Fits(p, r) && |Shape(p, r)| == |Weights(p)|
    ensures Later(p, Shape(p, r)) == Shape(p.next, r.rest) && (p.optional ==> Shape(p, r)[0] == r.value.Some?)
  {
    if p.optional { assert Shape(p, r)[1..] == Shape(p.next, r.rest); }
  }

  /** What is read starts with the text before its first value; without a mark in that
      text there is no value. */
  lemma {:induction false} LeadStarts(p: Pattern, r: Reading)
    requires Fits(p, r) && |Shape(p, r)| == |Weights(p)|
    ensures Lead(p, Shape(p, r)) <= Spell(p, r)
    ensures MarkedBefore(p) && !HasMark(Lead(p, Shape(p, r))) ==> Lead(p, Shape(p, r)) == Spell(p, r)
  {
    if p.Group? {
      ShapeStep(p, r);
      if r.value.None? {
        LeadStarts(p.next, r.rest);
        assert Spell(p, r) == "" + Spell(p.next, r.rest) == Spell(p.next, r.rest);
      } else {
        Opens(p, r);
      }
    }
  }

  lemma EndsAtMark(v: string, after: string, lead: string, x: string)
    requires AllAlnum(v) && lead <= x && (HasMark(after + lead) || lead == x)
    ensures ValueEnd(v + (after + x), after + lead) == |v|
  {
    if HasMark(after + lead) {
      assert after + x == after + lead + x[|lead|..];
      FirstMarkOf(after + lead, x[|lead|..]);
      NoMarks(v);
      FirstMarkOf(v, after + x);
    }
  }

  lemma CutValueComplete(p: Pattern, lead: string, v: string, x: string)
    requires p.Group? && AllAlnum(v) && Accepts(p.kind, v) && lead <= x && (HasMark(p.after + lead) || lead == x)
    ensures CutValue(p, lead, p.before + (v + (p.after + x))) == Some((v, x))
  {
    var t := v + (p.after + x);
    EndsAtMark(v, p.after, lead, x);
    assert (p.before + t)[|p.before|..] == t && t[..|v|] == v && t[|v|..] == p.after + x && (p.after + x)[|p.after|..] == x;
  }

  /** And every reading is what is cut with the parts it has. */
  lemma {:induction false} CutReadComplete(p: Pattern, r: Reading)
    requires Fits(p, r) && PlainValues(p) && Cuttable(p)
    ensures |Shape(p, r)| == |Weights(p)| && CutRead(p, Shape(p, r), Spell(p, r)) == Some(r)
  {
    MarksSum(p, r);
    if p.Group? {
      CutReadComplete(p.next, r.rest);
      ShapeStep(p, r);
      var x, lead := Spell(p.next, r.rest), Lead(p.next, Shape(p.next, r.rest));
      if r.value.None? {
        assert Spell(p, r) == "" + x == x;
      } else {
        Opens(p, r);
        LeadStarts(p.next, r.rest);
        FirstMarkOf(p.after, lead);
        CutValueComplete(p, lead, r.value.value, x);
      }
    }
  }
}
