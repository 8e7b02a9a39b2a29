/** The rules servers are named by: checking an alias template, rendering an
    alias, reading one back. */
module Naming {
  import opened Text
  import opened Template
  import opened Pattern
  import opened Unambiguous

  const DEFAULT_ALIAS := "{code}-{env}-{role}-{nn}"
  const DEFAULT_KEY_NAME := "{profile}_{alias}-{algo}"

  /** One manifest's, or one profile's, naming rules. An empty template is the
      default one. */
  datatype Rules = Rules(alias: string, keyName: string, envs: seq<string>, roles: seq<string>, start: int) {
    function AliasTemplate(): string { if alias == "" then DEFAULT_ALIAS else alias }
    function KeyTemplate(): string { if keyName == "" then DEFAULT_KEY_NAME else keyName }
    function Lists(): map<string, seq<string>> { map["env" := envs, "role" := roles] }
    /** The envs and roles the rules list are usable values. */
    predicate ListsOk() { PlainList(envs) && PlainList(roles) }
  }

  // Checking a template.

  datatype AliasError =
    | NoPart
    | UnknownPart
    | Twice(name: string)
    | Touch
    | NumberOptional
    | NothingToLeaveOut
    | TwoOptionalInARow
    | NoNumber
    | BadLiteral(text: string)

  const ALIAS_PARTS: set<string> := {"code", "env", "role", "nn"}

  predicate HostText(s: string) {
    forall i :: 0 <= i < |s| ==> IsAlnum(s[i]) || s[i] == '.' || s[i] == '-'
  }

  /** What is wrong with part i, in the order the code asks. */
  function PartFault(lits: seq<string>, toks: seq<Token>, i: nat): Option<AliasError>
    requires |lits| == |toks| + 1 && i < |toks|
  {
    var t := toks[i];
    if t.name !in ALIAS_PARTS then Some(UnknownPart)
    else if exists j :: 0 <= j < i && toks[j].name == t.name then Some(Twice(t.name))
    else if i > 0 && lits[i] == "" then Some(Touch)
    else if t.name == "nn" && t.optional then Some(NumberOptional)
    else if t.optional && lits[i] == "" && lits[i + 1] == "" then Some(NothingToLeaveOut)
    else if t.optional && i > 0 && toks[i - 1].optional then Some(TwoOptionalInARow)
    else None
  }

  function FirstPartFault(lits: seq<string>, toks: seq<Token>, i: nat): Option<AliasError>
    requires |lits| == |toks| + 1 && i <= |toks|
    decreases |toks| - i
  {
    if i == |toks| then None
    else if PartFault(lits, toks, i).Some? then PartFault(lits, toks, i)
    else FirstPartFault(lits, toks, i + 1)
  }

  function FirstBadLiteral(lits: seq<string>): Option<AliasError> {
    if lits == [] then None
    else if !HostText(lits[0]) then Some(BadLiteral(lits[0]))
    else FirstBadLiteral(lits[1..])
  }

  predicate Names(toks: seq<Token>, name: string) {
    exists i :: 0 <= i < |toks| && toks[i].name == name
  }

  function AliasFault(tpl: string): Option<AliasError> {
    var lits, toks := Lits(Scan(tpl)), Toks(Scan(tpl));
    if toks == [] then Some(NoPart)
    else if FirstPartFault(lits, toks, 0).Some? then FirstPartFault(lits, toks, 0)
    else if !Names(toks, "nn") then Some(NoNumber)
    else FirstBadLiteral(lits)
  }

  /** The check as the code makes it, with the names seen so far. */
  method CheckAlias(tpl: string) returns (err: Option<AliasError>)
    ensures err == AliasFault(tpl)
  {
    var lits, toks := ParseTemplate(tpl);
    if toks == [] { return Some(NoPart); }
    var seen: set<string> := {};
    var i := 0;
    while i < |toks|
      invariant 0 <= i <= |toks|
      invariant seen == set j | 0 <= j < i :: toks[j].name
      invariant FirstPartFault(lits, toks, 0) == FirstPartFault(lits, toks, i)
    {
      var t := toks[i];
      if t.name !in ALIAS_PARTS { return Some(UnknownPart); }
      if t.name in seen { return Some(Twice(t.name)); }
      if i > 0 && lits[i] == "" { return Some(Touch); }
      if t.name == "nn" && t.optional { return Some(NumberOptional); }
      if t.optional && lits[i] == "" && lits[i + 1] == "" { return Some(NothingToLeaveOut); }
      if t.optional && i > 0 && toks[i - 1].optional { return Some(TwoOptionalInARow); }
      seen := seen + {t.name};
      i := i + 1;
    }
    if "nn" !in seen { return Some(NoNumber); }
    i := 0;
    assert lits[0..] == lits;
    while i < |lits|
      invariant 0 <= i <= |lits|
      invariant FirstBadLiteral(lits) == FirstBadLiteral(lits[i..])
    {
      if !HostText(lits[i]) { return Some(BadLiteral(lits[i])); }
      assert lits[i..][1..] == lits[i + 1..];
      i := i + 1;
    }
    err := None;
  }

  predicate PartsWellFormed(lits: seq<string>, toks: seq<Token>)
    requires |lits| == |toks| + 1
  {
    && (forall i :: 0 <= i < |toks| ==> toks[i].name in ALIAS_PARTS)
    && (forall i, j :: 0 <= i < j < |toks| ==> toks[i].name != toks[j].name)
    && (forall i :: 0 < i < |toks| ==> lits[i] != "")
    && (forall i :: 0 <= i < |toks| && toks[i].optional ==> toks[i].name != "nn")
    && (forall i :: 0 <= i < |toks| && toks[i].optional ==> lits[i] != "" || lits[i + 1] != "")
    && (forall i :: 0 < i < |toks| ==> !(toks[i].optional && toks[i - 1].optional))
  }

  /** A template the check lets through: known parts, each once, a separator
      between parts, a number that is always there, and host-name text. */
  predicate WellFormed(lits: seq<string>, toks: seq<Token>)
    requires |lits| == |toks| + 1
  {
    && PartsWellFormed(lits, toks)
    && Names(toks, "nn")
    && (forall i :: 0 <= i < |lits| ==> HostText(lits[i]))
  }

  lemma {:induction false} FirstPartFaultNone(lits: seq<string>, toks: seq<Token>, i: nat)
    requires |lits| == |toks| + 1 && i <= |toks|
    ensures FirstPartFault(lits, toks, i).None? <==> forall k: nat :: i <= k < |toks| ==> PartFault(lits, toks, k).None?
    decreases |toks| - i
  {
    if i < |toks| { FirstPartFaultNone(lits, toks, i + 1); }
  }

  lemma {:induction false} FirstBadLiteralNone(lits: seq<string>)
    ensures FirstBadLiteral(lits).None? <==> forall k :: 0 <= k < |lits| ==> HostText(lits[k])
  {
    if lits != [] {
      FirstBadLiteralNone(lits[1..]);
      assert forall k :: 0 < k < |lits| ==> lits[k] == lits[1..][k - 1];
      assert forall k :: 0 <= k < |lits| - 1 ==> lits[1..][k] == lits[k + 1];
    }
  }

  lemma PartFaultNone(lits: seq<string>, toks: seq<Token>)
    requires |lits| == |toks| + 1
    ensures (forall k: nat :: k < |toks| ==> PartFault(lits, toks, k).None?) <==> PartsWellFormed(lits, toks)
  {
    if forall k: nat :: k < |toks| ==> PartFault(lits, toks, k).None? {
      forall i, j | 0 <= i < j < |toks| ensures toks[i].name != toks[j].name {
        assert PartFault(lits, toks, j).None?;
      }
      forall i | 0 <= i < |toks|
        ensures toks[i].name in ALIAS_PARTS
        ensures i > 0 ==> lits[i] != ""
        ensures toks[i].optional ==> toks[i].name != "nn"
        ensures toks[i].optional ==> lits[i] != "" || lits[i + 1] != ""
        ensures i > 0 ==> !(toks[i].optional && toks[i - 1].optional)
      {
        assert PartFault(lits, toks, i).None?;
      }
    }
    if PartsWellFormed(lits, toks) {
      forall k: nat | k < |toks| ensures PartFault(lits, toks, k).None? {
        assert !exists j :: 0 <= j < k && toks[j].name == toks[k].name;
      }
    }
  }

  /** The check lets a template through exactly when it is well formed. */
  lemma CheckAliasExact(tpl: string)
    ensures AliasFault(tpl).None? <==> WellFormed(Lits(Scan(tpl)), Toks(Scan(tpl)))
  {
    var lits, toks := Lits(Scan(tpl)), Toks(Scan(tpl));
    FirstPartFaultNone(lits, toks, 0);
    FirstBadLiteralNone(lits);
    PartFaultNone(lits, toks);
  }

  // Rendering.

  function Val(vals: map<string, string>, name: string): string {
    if name in vals then vals[name] else ""
  }

  /** The template filled in; an optional part with no value is left out with its
      separator. */
  function Render(p: Parsed, vals: map<string, string>): string
    decreases |Toks(p)|
  {
    match p
    case Last(lit) => lit
    case Part(lit, t, rest) =>
      var v := Val(vals, t.name);
      if v != "" || !t.optional then lit + v + Render(rest, vals)
      else if lit == "" then Render(rest.(lit := ""), vals)
      else Render(rest, vals)
  }

  lemma RenderStep(lits: seq<string>, toks: seq<Token>, i: nat, vals: map<string, string>)
    requires |lits| == |toks| + 1 && i < |toks|
    ensures var t := toks[i];
            var v := Val(vals, t.name);
            Render(From(lits[i..], toks[i..]), vals) ==
            if v != "" || !t.optional then lits[i] + v + Render(From(lits[i + 1..], toks[i + 1..]), vals)
            else if lits[i] == "" then Render(From(lits[i + 1 := ""][i + 1..], toks[i + 1..]), vals)
            else Render(From(lits[i + 1..], toks[i + 1..]), vals)
  {
    assert lits[i..][1..] == lits[i + 1..] && toks[i..][1..] == toks[i + 1..];
    assert lits[i + 1 := ""][i + 1..] == lits[i + 1..][0 := ""];
    FromBlanked(lits[i + 1..], toks[i + 1..]);
  }

  lemma RenderEnd(lits: seq<string>, toks: seq<Token>, vals: map<string, string>)
    requires |lits| == |toks| + 1
    ensures Render(From(lits[|toks|..], toks[|toks|..]), vals) == lits[|toks|]
  {
    assert toks[|toks|..] == [];
  }

  /** Rendering as the code does it: one pass, blanking the literal a left-out
      first part takes with it. */
  method RenderText(tpl: string, vals: map<string, string>) returns (out: string)
    ensures out == Render(Scan(tpl), vals)
  {
    var lits, toks := ParseTemplate(tpl);
    FromInverse(Scan(tpl));
    out := "";
    var i := 0;
    ghost var ahead := Render(Scan(tpl), vals);
    ghost var whole := ahead;
    assert lits[0..] == lits && toks[0..] == toks;
    while i < |toks|
      invariant 0 <= i <= |toks| && |lits| == |toks| + 1
      invariant ahead == Render(From(lits[i..], toks[i..]), vals)
      invariant whole == out + ahead
    {
      RenderStep(lits, toks, i, vals);
      var t := toks[i];
      var v := Val(vals, t.name);
      if v != "" || !t.optional {
        AppendAssociative(out, lits[i] + v, Render(From(lits[i + 1..], toks[i + 1..]), vals));
        out := out + (lits[i] + v);
      } else if lits[i] == "" {
        lits := lits[i + 1 := ""];
      }
      i := i + 1;
      ahead := Render(From(lits[i..], toks[i..]), vals);
    }
    RenderEnd(lits, toks, vals);
    out := out + lits[|lits| - 1];
  }

  // A rendering and a reading of it.

  /** vals holds what r reads: each value there is, and nothing for a part left out. */
  predicate Holds(p: Pattern, r: Reading, vals: map<string, string>)
    requires Fits(p, r)
  {
    match p
    case Tail(_) => true
    case Group(name, _, _, _, _, next) =>
      && (match r.value
          case None => Val(vals, name) == ""
          case Some(v) => v != "" && Val(vals, name) == v)
      && Holds(next, r.rest, vals)
  }

  predicate NoTwoOptional(p: Parsed) {
    match p
    case Last(_) => true
    case Part(_, t, rest) => !(t.optional && rest.Part? && rest.tok.optional) && NoTwoOptional(rest)
  }

  lemma Blanked(p: Parsed)
    ensures Toks(p.(lit := "")) == Toks(p) && NoTwoOptional(p.(lit := "")) == NoTwoOptional(p)
  {
  }

  /** A rendering depends on the template's own values only. */
  lemma {:induction false} RenderIgnores(p: Parsed, a: map<string, string>, b: map<string, string>)
    requires forall t :: t in Toks(p) ==> Val(a, t.name) == Val(b, t.name)
    ensures Render(p, a) == Render(p, b)
    decreases |Toks(p)|
  {
    match p
    case Last(_) =>
    case Part(lit, t, rest) =>
      Blanked(rest);
      assert t in Toks(p) && forall u :: u in Toks(rest) ==> u in Toks(p);
      RenderIgnores(rest, a, b);
      RenderIgnores(rest.(lit := ""), a, b);
  }

  lemma BlankedRender(p: Parsed, vals: map<string, string>)
    requires p.Part? ==> !p.tok.optional
    ensures Render(p, vals) == p.lit + Render(p.(lit := ""), vals)
  {
    match p
    case Last(lit) => assert lit + "" == lit;
    case Part(lit, t, rest) =>
      var v := Val(vals, t.name);
      assert lit + v + Render(rest, vals) == lit + ("" + v + Render(rest, vals));
  }

  /** What is rendered and what is read are two views of one text, though the
      renderer blanks a separator only when a part is left out and the pattern
      always does. */
  lemma {:induction false} RenderIsSpell(p: Parsed, lists: map<string, seq<string>>, r: Reading, vals: map<string, string>)
    requires NoTwoOptional(p)
    requires Fits(PatternOf(p, lists), r) && Holds(PatternOf(p, lists), r, vals)
    ensures Render(p, vals) == Spell(PatternOf(p, lists), r)
    decreases |Toks(p)|
  {
    match p
    case Last(_) =>
    case Part(lit, t, rest) =>
      if t.optional && lit == "" {
        Blanked(rest);
        var bare := rest.(lit := "");
        RenderIsSpell(bare, lists, r.rest, vals);
        BlankedRender(rest, vals);
        if r.value.Some? { TakesNext(r.value.value, rest.lit, Render(bare, vals)); }
      } else {
        RenderIsSpell(rest, lists, r.rest, vals);
        if r.value.Some? { TakesNone(lit, r.value.value, Render(rest, vals)); }
      }
  }

  lemma TakesNext(v: string, next: string, tail: string)
    ensures "" + v + (next + tail) == "" + v + next + tail
  {
  }

  lemma TakesNone(lit: string, v: string, tail: string)
    ensures lit + v + "" + tail == lit + v + tail
  {
    assert lit + v + "" == lit + v;
  }
}
