/** Naming templates: literal text and parts in braces, such as
    "{code}-{env?}-{role}-{nn}". */
module Template {
  import opened Text

  /** One part. A run of n's is the number, named "nn", with its length as width. */
  datatype Token = Token(name: string, width: nat, optional: bool)

  /** A template taken apart: a literal before every part, and one after the last. */
  datatype Parsed =
    | Last(lit: string)
    | Part(lit: string, tok: Token, rest: Parsed)

  function Lits(p: Parsed): (lits: seq<string>)
    ensures |lits| == |Toks(p)| + 1 && lits[0] == p.lit
  {
    match p
    case Last(lit) => [lit]
    case Part(lit, _, rest) => [lit] + Lits(rest)
  }

  function Toks(p: Parsed): seq<Token> {
    match p
    case Last(_) => []
    case Part(_, tok, rest) => [tok] + Toks(rest)
  }

  /** The length of the run of lowercase letters s starts with. */
  function NameRun(s: string): (n: nat)
    ensures n <= |s|
    ensures forall i :: 0 <= i < n ==> IsLower(s[i])
    ensures n < |s| ==> !IsLower(s[n])
  {
    if s == "" || !IsLower(s[0]) then 0 else 1 + NameRun(s[1..])
  }

  predicate IsNumberName(name: string) {
    name != "" && forall i :: 0 <= i < |name| ==> name[i] == 'n'
  }

  function MakeToken(name: string, optional: bool): Token {
    if IsNumberName(name) then Token("nn", |name|, optional) else Token(name, 0, optional)
  }

  datatype Search = NoToken | Found(length: nat, token: Token)

  /** The part s starts with: an opening brace, letters, perhaps a question
      mark, a closing brace. */
  function TokenAt(s: string): (f: Search)
    ensures f.Found? ==> 3 <= f.length <= |s|
  {
    if s == "" || s[0] != '{' then NoToken
    else
      var n := NameRun(s[1..]);
      var end := n + 1;
      if n == 0 || end == |s| then NoToken
      else if s[end] == '}' then Found(end + 1, MakeToken(s[1..end], false))
      else if s[end] == '?' && end + 1 < |s| && s[end + 1] == '}' then Found(end + 2, MakeToken(s[1..end], true))
      else NoToken
  }

  function Prepend(text: string, p: Parsed): Parsed {
    p.(lit := text + p.lit)
  }

  /** The leftmost, non-overlapping parts of s, read from the left. */
  function Scan(s: string): Parsed
    decreases |s|
  {
    if s == "" then Last("")
    else match TokenAt(s)
      case Found(n, t) => Part("", t, Scan(s[n..]))
      case NoToken => Prepend([s[0]], Scan(s[1..]))
  }

  lemma PrependTwice(a: string, b: string, p: Parsed)
    ensures Prepend(a, Prepend(b, p)) == Prepend(a + b, p)
    ensures Prepend("", p) == p
  {
    assert a + (b + p.lit) == a + b + p.lit;
    assert "" + p.lit == p.lit;
  }

  lemma TakePart(lits: seq<string>, read: string, tok: Token, rest: Parsed)
    ensures lits + Lits(Prepend(read, Part("", tok, rest))) == lits + [read] + Lits(rest)
  {
    assert read + "" == read;
    assert Prepend(read, Part("", tok, rest)) == Part(read, tok, rest);
  }

  /** The template parse as the code writes it: one pass that cuts the text at
      each part. `i` is where the next search starts, `last` where the literal
      being read began. */
  method ParseTemplate(tpl: string) returns (lits: seq<string>, toks: seq<Token>)
    ensures lits == Lits(Scan(tpl)) && toks == Toks(Scan(tpl))
  {
    lits, toks := [], [];
    var i, last := 0, 0;
    assert tpl[0..] == tpl && tpl[0..0] == "";
    PrependTwice("", "", Scan(tpl));
    while i < |tpl|
      invariant last <= i <= |tpl|
      invariant Toks(Scan(tpl)) == toks + Toks(Scan(tpl[i..]))
      invariant Lits(Scan(tpl)) == lits + Lits(Prepend(tpl[last..i], Scan(tpl[i..])))
    {
      var found := TokenAt(tpl[i..]);
      ghost var read := tpl[last..i];
      if found.Found? {
        var next := i + found.length;
        assert tpl[i..][found.length..] == tpl[next..];
        TakePart(lits, read, found.token, Scan(tpl[next..]));
        lits, toks := lits + [tpl[last..i]], toks + [found.token];
        i, last := next, next;
        assert tpl[last..i] == "";
        PrependTwice("", "", Scan(tpl[i..]));
      } else {
        assert tpl[i..][1..] == tpl[i + 1..];
        PrependTwice(read, [tpl[i]], Scan(tpl[i + 1..]));
        assert read + [tpl[i]] == tpl[last..i + 1];
        i := i + 1;
      }
    }
    assert tpl[last..i] + "" == tpl[last..];
    lits := lits + [tpl[last..]];
  }

  // Scanning loses nothing: the template can be written out again.

  function NameText(t: Token): string {
    if t.name == "nn" && t.width > 0 then seq(t.width, i => 'n') else t.name
  }

  function TokenText(t: Token): string {
    "{" + NameText(t) + (if t.optional then "?}" else "}")
  }

  function Written(p: Parsed): string {
    match p
    case Last(lit) => lit
    case Part(lit, tok, rest) => lit + TokenText(tok) + Written(rest)
  }

  /** A part writes its name as it was read. */
  lemma NameKept(name: string, optional: bool)
    requires name != ""
    ensures NameText(MakeToken(name, optional)) == name
  {
    if IsNumberName(name) {
      assert seq(|name|, i => 'n') == name;
    } else {
      assert name == "nn" ==> IsNumberName(name);
    }
  }

  lemma TokenAtText(s: string)
    requires TokenAt(s).Found?
    ensures TokenText(TokenAt(s).token) == s[..TokenAt(s).length]
  {
    var n := NameRun(s[1..]);
    var name, f := s[1..n + 1], TokenAt(s);
    NameKept(name, f.token.optional);
    assert s[..f.length] == [s[0]] + name + s[n + 1..f.length];
  }

  lemma WrittenAfter(text: string, p: Parsed)
    ensures Written(Prepend(text, p)) == text + Written(p)
  {
    if p.Part? {
      assert text + p.lit + TokenText(p.tok) + Written(p.rest) == text + (p.lit + TokenText(p.tok) + Written(p.rest));
    }
  }

  /** Every template is its literals and parts written out in order. */
  lemma {:induction false} ScanLossless(s: string)
    ensures Written(Scan(s)) == s
    decreases |s|
  {
    if s != "" {
      match TokenAt(s)
      case Found(n, t) =>
        ScanLossless(s[n..]);
        TokenAtText(s);
        assert "" + s[..n] + s[n..] == s;
      case NoToken =>
        ScanLossless(s[1..]);
        WrittenAfter([s[0]], Scan(s[1..]));
        assert [s[0]] + s[1..] == s;
    }
  }

  /** A template in its plain form: literals without an opening brace, names of
      lowercase letters, and a run of n's written as the number. */
  predicate Plain(p: Parsed) {
    '{' !in p.lit && match p
      case Last(_) => true
      case Part(_, t, rest) =>
        && (if t.name == "nn" then t.width > 0
            else t.width == 0 && t.name != "" && !IsNumberName(t.name)
                 && forall i :: 0 <= i < |t.name| ==> IsLower(t.name[i]))
        && Plain(rest)
  }

  lemma {:induction false} ScanLiteral(lit: string, s: string)
    requires '{' !in lit
    ensures Scan(lit + s) == Prepend(lit, Scan(s))
    decreases |lit|
  {
    if lit == "" {
      assert lit + s == s;
      PrependTwice("", "", Scan(s));
    } else {
      ScanLiteral(lit[1..], s);
      assert (lit + s)[0] == lit[0] && (lit + s)[1..] == lit[1..] + s;
      PrependTwice([lit[0]], lit[1..], Scan(s));
      assert [lit[0]] + lit[1..] == lit;
    }
  }

  lemma {:induction false} NameRunIs(name: string, s: string)
    requires forall i :: 0 <= i < |name| ==> IsLower(name[i])
    requires s != "" && !IsLower(s[0])
    ensures NameRun(name + s) == |name|
    decreases |name|
  {
    if name == "" {
      assert name + s == s;
    } else {
      NameRunIs(name[1..], s);
      assert (name + s)[0] == name[0] && (name + s)[1..] == name[1..] + s;
    }
  }

  lemma TokenAtWritten(t: Token, s: string)
    requires Plain(Part("", t, Last("")))
    ensures TokenAt(TokenText(t) + s) == Found(|TokenText(t)|, t)
  {
    var name := NameText(t);
    var end := if t.optional then "?}" else "}";
    var text := TokenText(t) + s;
    assert text == "{" + (name + (end + s));
    assert text[1..] == name + (end + s);
    NameRunIs(name, end + s);
    assert text[1..|name| + 1] == name;
    assert text[|name| + 1..] == end + s;
    assert text[|name| + 1] == end[0] && (t.optional ==> text[|name| + 2] == end[1]);
    if t.name == "nn" { assert IsNumberName(name) && |name| == t.width; }
  }

  /** And what is written out in plain form scans back to the same parts. */
  lemma {:induction false} WrittenScans(p: Parsed)
    requires Plain(p)
    ensures Scan(Written(p)) == p
  {
    match p
    case Last(lit) =>
      ScanLiteral(lit, "");
      assert lit + "" == lit;
    case Part(lit, t, rest) =>
      WrittenScans(rest);
      var s := TokenText(t) + Written(rest);
      assert Written(p) == lit + s;
      ScanLiteral(lit, s);
      TokenAtWritten(t, Written(rest));
      assert s[|TokenText(t)|..] == Written(rest);
      assert lit + "" == lit;
  }

  // A character no part can hold cuts the scan in two.

  /** Two stretches of a template side by side: the literals that meet are one. */
  function Glue(a: Parsed, b: Parsed): Parsed {
    match a
    case Last(lit) => Prepend(lit, b)
    case Part(lit, tok, rest) => Part(lit, tok, Glue(rest, b))
  }

  predicate OutsideTokens(c: char) {
    !IsLower(c) && c != '?' && c != '}' && c != '{'
  }

  lemma {:induction false} NameRunCut(a: string, c: char, b: string)
    requires !IsLower(c)
    ensures NameRun(a + [c] + b) == NameRun(a)
  {
    if a == "" {
      assert (a + [c] + b)[0] == c;
    } else {
      NameRunCut(a[1..], c, b);
      assert (a + [c] + b)[1..] == a[1..] + [c] + b;
    }
  }

  lemma TokenAtCut(a: string, c: char, b: string)
    requires a != "" && OutsideTokens(c)
    ensures TokenAt(a + [c] + b) == TokenAt(a)
  {
    var s := a + [c] + b;
    assert s[1..] == a[1..] + [c] + b;
    NameRunCut(a[1..], c, b);
    var end := NameRun(a[1..]) + 1;
    assert s[1..end] == a[1..end];
    if end + 1 < |a| { assert s[end + 1] == a[end + 1]; }
  }

  lemma {:induction false} ScanCut(a: string, c: char, b: string)
    requires OutsideTokens(c)
    ensures Scan(a + [c] + b) == Glue(Scan(a), Prepend([c], Scan(b)))
    decreases |a|
  {
    var s := a + [c] + b;
    if a == "" {
      assert s[0] == c && s[1..] == b;
      assert "" + ([c] + Scan(b).lit) == [c] + Scan(b).lit;
    } else {
      TokenAtCut(a, c, b);
      match TokenAt(a)
      case Found(n, t) =>
        ScanCut(a[n..], c, b);
        assert s[n..] == a[n..] + [c] + b;
      case NoToken =>
        ScanCut(a[1..], c, b);
        assert s[1..] == a[1..] + [c] + b;
        PrependGlue([a[0]], Scan(a[1..]), Prepend([c], Scan(b)));
    }
  }

  lemma PrependGlue(text: string, a: Parsed, b: Parsed)
    ensures Prepend(text, Glue(a, b)) == Glue(Prepend(text, a), b)
  {
    assert text + (a.lit + b.lit) == text + a.lit + b.lit;
  }
}
