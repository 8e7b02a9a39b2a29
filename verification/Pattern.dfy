/** An alias template as an anchored pattern: its groups, what reading an alias
    by it means, and the search for a reading in the order a regular expression
    engine tries them. */
module Pattern {
  import opened Text
  import opened Template

  /** What a group accepts: letters and digits, a number of at least some width,
      or one of a list of values. */
  datatype Class = Word | Number(width: nat) | OneOf(values: seq<string>)

  predicate Accepts(c: Class, v: string) {
    match c
    case Word => v != "" && AllAlnum(v)
    case Number(width) => |v| >= width && AllDigits(v)
    case OneOf(values) => v in values
  }

  /** The groups in order. An optional group is there with the literals around
      it, or not there at all. */
  datatype Pattern =
    | Tail(text: string)
    | Group(name: string, kind: Class, before: string, after: string, optional: bool, next: Pattern)

  function ClassOf(t: Token, lists: map<string, seq<string>>): Class {
    if t.name == "nn" then Number(t.width)
    else if t.name in lists && lists[t.name] != [] then OneOf(lists[t.name])
    else Word
  }

  /** An optional part takes the separator before it, or, when there is none, the
      one after it. */
  function PatternOf(p: Parsed, lists: map<string, seq<string>>): Pattern
    decreases |Toks(p)|
  {
    match p
    case Last(lit) => Tail(lit)
    case Part(lit, t, rest) =>
      if t.optional && lit == "" then
        Group(t.name, ClassOf(t, lists), "", rest.lit, true, PatternOf(rest.(lit := ""), lists))
      else
        Group(t.name, ClassOf(t, lists), lit, "", t.optional, PatternOf(rest, lists))
  }

  /** One group of a pattern, on its own. */
  datatype Piece = Piece(name: string, kind: Class, before: string, after: string, optional: bool)

  function Pieces(p: Pattern): seq<Piece> {
    match p
    case Tail(_) => []
    case Group(name, kind, before, after, optional, next) =>
      [Piece(name, kind, before, after, optional)] + Pieces(next)
  }

  function TailOf(p: Pattern): string {
    match p
    case Tail(text) => text
    case Group(_, _, _, _, _, next) => TailOf(next)
  }

  /** The template from part i on, with the literals as the loop has left them. */
  function From(lits: seq<string>, toks: seq<Token>): (p: Parsed)
    requires |lits| == |toks| + 1
    ensures Lits(p) == lits && Toks(p) == toks
  {
    if toks == [] then Last(lits[0]) else Part(lits[0], toks[0], From(lits[1..], toks[1..]))
  }

  lemma {:induction false} FromInverse(p: Parsed)
    ensures From(Lits(p), Toks(p)) == p
  {
    match p
    case Last(_) =>
    case Part(_, _, rest) =>
      FromInverse(rest);
      assert Lits(p)[1..] == Lits(rest) && Toks(p)[1..] == Toks(rest);
  }

  lemma FromBlanked(lits: seq<string>, toks: seq<Token>)
    requires |lits| == |toks| + 1
    ensures From(lits[0 := ""], toks) == From(lits, toks).(lit := "")
  {
    if toks != [] { assert lits[0 := ""][1..] == lits[1..]; }
  }

  /** The literals as part i leaves them: a first optional part takes the one after it. */
  function LitsAfter(lits: seq<string>, toks: seq<Token>, i: nat): seq<string>
    requires |lits| == |toks| + 1 && i < |toks|
  {
    if toks[i].optional && lits[i] == "" then lits[i + 1 := ""] else lits
  }

  function PieceAt(lits: seq<string>, toks: seq<Token>, i: nat, lists: map<string, seq<string>>): Piece
    requires |lits| == |toks| + 1 && i < |toks|
  {
    Piece(toks[i].name, ClassOf(toks[i], lists), lits[i],
          if toks[i].optional && lits[i] == "" then lits[i + 1] else "", toks[i].optional)
  }

  /** The groups still to come once part i is done. */
  lemma BuildStep(lits: seq<string>, toks: seq<Token>, i: nat, lists: map<string, seq<string>>)
    requires |lits| == |toks| + 1 && i < |toks|
    ensures var p := PatternOf(From(lits[i..], toks[i..]), lists);
            && p.Group?
            && p.next == PatternOf(From(LitsAfter(lits, toks, i)[i + 1..], toks[i + 1..]), lists)
            && TailOf(p) == TailOf(p.next)
            && Pieces(p) == [PieceAt(lits, toks, i, lists)] + Pieces(p.next)
  {
    assert lits[i..][1..] == lits[i + 1..] && toks[i..][1..] == toks[i + 1..];
    assert lits[i + 1 := ""][i + 1..] == lits[i + 1..][0 := ""];
    FromBlanked(lits[i + 1..], toks[i + 1..]);
  }

  lemma AppendAssociative<T>(a: seq<T>, b: seq<T>, c: seq<T>)
    ensures a + (b + c) == a + b + c
  {
  }

  lemma BuildEnd(lits: seq<string>, toks: seq<Token>, lists: map<string, seq<string>>)
    requires |lits| == |toks| + 1
    ensures PatternOf(From(lits[|toks|..], toks[|toks|..]), lists) == Tail(lits[|toks|])
  {
    assert toks[|toks|..] == [];
  }

  /** The pattern as the code builds it: the separator an optional part takes
      from behind it is blanked in place, so the part after does not repeat it. */
  method Build(tpl: string, lists: map<string, seq<string>>) returns (pieces: seq<Piece>, tail: string)
    ensures pieces == Pieces(PatternOf(Scan(tpl), lists)) && tail == TailOf(PatternOf(Scan(tpl), lists))
  {
    var lits, toks := ParseTemplate(tpl);
    FromInverse(Scan(tpl));
    pieces := [];
    var i := 0;
    ghost var ahead := PatternOf(Scan(tpl), lists);
    ghost var whole, wholeTail := Pieces(ahead), TailOf(ahead);
    assert lits[0..] == lits && toks[0..] == toks;
    while i < |toks|
      invariant 0 <= i <= |toks| && |lits| == |toks| + 1
      invariant ahead == PatternOf(From(lits[i..], toks[i..]), lists)
      invariant whole == pieces + Pieces(ahead) && wholeTail == TailOf(ahead)
    {
      BuildStep(lits, toks, i, lists);
      ghost var left, one := LitsAfter(lits, toks, i), PieceAt(lits, toks, i, lists);
      var t := toks[i];
      var piece := Piece(t.name, ClassOf(t, lists), lits[i], "", t.optional);
      if t.optional && lits[i] == "" {
        piece := piece.(after := lits[i + 1]);
        lits := lits[i + 1 := ""];
      }
      assert piece == one && lits == left;
      AppendAssociative(pieces, [piece], Pieces(ahead.next));
      pieces := pieces + [piece];
      ahead := ahead.next;
      i := i + 1;
    }
    BuildEnd(lits, toks, lists);
    assert pieces + [] == pieces;
    tail := lits[|lits| - 1];
  }

  // Reading.

  /** What each group holds, in order: None for an optional part left out. */
  datatype Reading = NoMore | Read(value: Option<string>, rest: Reading)

  /** r gives every group of p a value it accepts. */
  predicate Fits(p: Pattern, r: Reading) {
    match p
    case Tail(_) => r == NoMore
    case Group(_, kind, _, _, optional, next) =>
      && r.Read?
      && (if r.value.None? then optional else Accepts(kind, r.value.value))
      && Fits(next, r.rest)
  }

  /** The text that reads as r. */
  function Spell(p: Pattern, r: Reading): string
    requires Fits(p, r)
  {
    match p
    case Tail(text) => text
    case Group(_, _, before, after, _, next) =>
      (match r.value
       case None => ""
       case Some(v) => before + v + after) + Spell(next, r.rest)
  }

  function RunLength(s: string, digits: bool): (n: nat)
    ensures n <= |s|
    ensures forall i :: 0 <= i < n ==> if digits then IsDigit(s[i]) else IsAlnum(s[i])
    ensures n < |s| ==> !(if digits then IsDigit(s[n]) else IsAlnum(s[n]))
  {
    if s == "" || !(if digits then IsDigit(s[0]) else IsAlnum(s[0])) then 0 else 1 + RunLength(s[1..], digits)
  }

  /** The prefixes of s of length n down to `least`: longest first. */
  function Shrinking(s: string, n: int, least: nat): (c: seq<string>)
    requires n <= |s|
    ensures forall v :: v in c <==> least <= |v| <= n && v == s[..|v|]
    decreases n
  {
    if n < least then [] else [s[..n]] + Shrinking(s, n - 1, least)
  }

  function StartsOf(values: seq<string>, s: string): (c: seq<string>)
    ensures forall v :: v in c <==> v in values && v <= s
  {
    if values == [] then []
    else (if values[0] <= s then [values[0]] else []) + StartsOf(values[1..], s)
  }

  /** The values a group could take at the start of s, in the order they are
      tried: the longest first, or a list's own order. */
  function Candidates(c: Class, s: string): (vs: seq<string>)
    ensures forall v :: v in vs <==> v <= s && Accepts(c, v)
  {
    match c
    case Word => Shrinking(s, RunLength(s, false), 1)
    case Number(width) => Shrinking(s, RunLength(s, true), width)
    case OneOf(values) => StartsOf(values, s)
  }

  /** The reading a backtracking engine finds first: each group tries its
      candidates in order, an optional part is tried before it is left out, and
      the pattern must account for the whole text. */
  function Match(p: Pattern, s: string): Option<Reading>
    decreases p, 1, 0
  {
    match p
    case Tail(text) => if s == text then Some(NoMore) else None
    case Group(_, kind, before, _, optional, next) =>
      var present :=
        if before <= s then FirstFit(p, s[|before|..], Candidates(kind, s[|before|..])) else None;
      if present.Some? || !optional then present
      else match Match(next, s)
        case Some(r) => Some(Read(None, r))
        case None => None
  }

  function FirstFit(p: Pattern, s: string, candidates: seq<string>): Option<Reading>
    requires p.Group?
    requires forall v :: v in candidates ==> v <= s
    decreases p, 0, |candidates|
  {
    if candidates == [] then None
    else
      var v := candidates[0];
      assert v in candidates && forall c :: c in candidates[1..] ==> c in candidates;
      var behind := s[|v|..];
      var here := if p.after <= behind then Match(p.next, behind[|p.after|..]) else None;
      if here.Some? then Some(Read(Some(v), here.value)) else FirstFit(p, s, candidates[1..])
  }

  // The search is right: what it finds reads as the text, and it finds something
  // whenever there is something to find.

  lemma {:induction false} MatchSound(p: Pattern, s: string)
    requires Match(p, s).Some?
    ensures Fits(p, Match(p, s).value) && Spell(p, Match(p, s).value) == s
    decreases p, 1, 0
  {
    match p
    case Tail(_) =>
    case Group(_, kind, before, _, optional, next) =>
      if before <= s && FirstFit(p, s[|before|..], Candidates(kind, s[|before|..])).Some? {
        FirstFitSound(p, s[|before|..], Candidates(kind, s[|before|..]));
        var r := Match(p, s).value;
        assert s == before + s[|before|..];
        assert before + r.value.value + p.after + Spell(next, r.rest)
            == before + (r.value.value + p.after + Spell(next, r.rest));
      } else {
        MatchSound(next, s);
        assert "" + s == s;
      }
  }

  lemma {:induction false} FirstFitSound(p: Pattern, s: string, candidates: seq<string>)
    requires p.Group?
    requires forall v :: v in candidates ==> v <= s && Accepts(p.kind, v)
    requires FirstFit(p, s, candidates).Some?
    ensures var r := FirstFit(p, s, candidates).value;
            Fits(p, r) && r.value.Some? && r.value.value + p.after + Spell(p.next, r.rest) == s
    decreases p, 0, |candidates|
  {
    var v := candidates[0];
    assert v in candidates && forall c :: c in candidates[1..] ==> c in candidates;
    var behind := s[|v|..];
    if p.after <= behind && Match(p.next, behind[|p.after|..]).Some? {
      MatchSound(p.next, behind[|p.after|..]);
      assert s == v + (p.after + behind[|p.after|..]);
    } else {
      FirstFitSound(p, s, candidates[1..]);
    }
  }

  lemma {:induction false} MatchComplete(p: Pattern, r: Reading)
    requires Fits(p, r)
    ensures Match(p, Spell(p, r)).Some?
    decreases p, 1, 0
  {
    match p
    case Tail(_) =>
    case Group(_, kind, before, after, optional, next) =>
      var s := Spell(p, r);
      match r.value
      case None =>
        MatchComplete(next, r.rest);
        assert s == Spell(next, r.rest);
      case Some(v) =>
        var behind := after + Spell(next, r.rest);
        assert s == before + (v + behind);
        assert s[|before|..] == v + behind;
        FirstFitComplete(p, v + behind, Candidates(kind, v + behind), v, r.rest);
  }

  lemma {:induction false} FirstFitComplete(p: Pattern, s: string, candidates: seq<string>, v: string, rest: Reading)
    requires p.Group? && Fits(p.next, rest)
    requires forall c :: c in candidates ==> c <= s
    requires v in candidates && s == v + (p.after + Spell(p.next, rest))
    ensures FirstFit(p, s, candidates).Some?
    decreases p, 0, |candidates|
  {
    assert candidates[0] in candidates && forall c :: c in candidates[1..] ==> c in candidates;
    if candidates[0] == v {
      MatchComplete(p.next, rest);
      assert s[|v|..] == p.after + Spell(p.next, rest);
      assert s[|v|..][|p.after|..] == Spell(p.next, rest);
    } else {
      FirstFitComplete(p, s, candidates[1..], v, rest);
    }
  }
}
