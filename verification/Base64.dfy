/** Base 64 in the standard alphabet (section 4 of RFC 4648), with and without padding,
    read as leniently as the program reads it: line ends are skipped and the bits left
    over in the last character are not looked at. */
module Base64 {
  import opened Text

  type Byte = b: nat | b < 256

  function Symbol(v: nat): char
    requires v < 64
  {
    if v < 26 then 'A' + v as char
    else if v < 52 then 'a' + (v - 26) as char
    else if v < 62 then '0' + (v - 52) as char
    else if v == 62 then '+' else '/'
  }

  function ValueOf(c: char): (v: Option<nat>)
    ensures v.Some? ==> v.value < 64
  {
    if 'A' <= c <= 'Z' then Some((c - 'A') as nat)
    else if 'a' <= c <= 'z' then Some((c - 'a') as nat + 26)
    else if '0' <= c <= '9' then Some((c - '0') as nat + 52)
    else if c == '+' then Some(62)
    else if c == '/' then Some(63)
    else None
  }

  lemma ValueOfSymbol(v: nat)
    requires v < 64
    ensures ValueOf(Symbol(v)) == Some(v)
  {
  }

  predicate AllSymbols(s: string) { forall i :: 0 <= i < |s| ==> ValueOf(s[i]).Some? }

  // One group: one to three bytes, two to four numbers below 64.

  predicate Sixes(v: seq<nat>) { forall i :: 0 <= i < |v| ==> v[i] < 64 }

  function Sextets(b: seq<Byte>): (v: seq<nat>)
    requires 1 <= |b| <= 3
    ensures |v| == |b| + 1 && Sixes(v)
  {
    if |b| == 1 then [b[0] / 4, b[0] % 4 * 16]
    else if |b| == 2 then [b[0] / 4, b[0] % 4 * 16 + b[1] / 16, b[1] % 16 * 4]
    else [b[0] / 4, b[0] % 4 * 16 + b[1] / 16, b[1] % 16 * 4 + b[2] / 64, b[2] % 64]
  }

  function Bytes(v: seq<nat>): (b: seq<Byte>)
    requires 2 <= |v| <= 4 && Sixes(v)
    ensures |b| == |v| - 1
  {
    var first := v[0] * 4 + v[1] / 16;
    if |v| == 2 then [first]
    else
      var second := v[1] % 16 * 16 + v[2] / 4;
      if |v| == 3 then [first, second] else [first, second, v[2] % 4 * 64 + v[3]]
  }

  lemma Parts(x: nat, y: nat)
    ensures y < 16 ==> (x * 16 + y) / 16 == x && (x * 16 + y) % 16 == y
    ensures y < 4 ==> (x * 4 + y) / 4 == x && (x * 4 + y) % 4 == y
  {
  }

  lemma BytesOfSextets(b: seq<Byte>)
    requires 1 <= |b| <= 3
    ensures Bytes(Sextets(b)) == b
  {
    Parts(b[0] % 4, if |b| > 1 then b[1] / 16 else 0);
    if |b| > 1 { Parts(b[1] % 16, if |b| > 2 then b[2] / 64 else 0); }
  }

  function Spelled(v: seq<nat>): (s: string)
    requires Sixes(v)
    ensures |s| == |v|
  {
    seq(|v|, i requires 0 <= i < |v| => Symbol(v[i]))
  }

  function Values(s: string): (v: seq<nat>)
    requires AllSymbols(s)
    ensures |v| == |s| && Sixes(v)
  {
    seq(|s|, i requires 0 <= i < |s| => ValueOf(s[i]).value)
  }

  lemma ValuesOfSpelled(v: seq<nat>)
    requires Sixes(v)
    ensures AllSymbols(Spelled(v)) && Values(Spelled(v)) == v
  {
    forall i | 0 <= i < |v| ensures ValueOf(Spelled(v)[i]) == Some(v[i]) { ValueOfSymbol(v[i]); }
  }

  function Chunk(b: seq<Byte>): (s: string)
    requires 1 <= |b| <= 3
    ensures |s| == |b| + 1
  {
    Spelled(Sextets(b))
  }

  function Group(s: string): Option<seq<Byte>>
    requires 2 <= |s| <= 4
  {
    if AllSymbols(s) then Some(Bytes(Values(s))) else None
  }

  lemma GroupOf(b: seq<Byte>)
    requires 1 <= |b| <= 3
    ensures AllSymbols(Chunk(b)) && Group(Chunk(b)) == Some(b)
  {
    ValuesOfSpelled(Sextets(b));
    BytesOfSextets(b);
  }

  // Whole texts.

  function Encode(b: seq<Byte>): string {
    if b == [] then "" else if |b| <= 3 then Chunk(b) else Chunk(b[..3]) + Encode(b[3..])
  }

  function Symbols(s: string): Option<seq<Byte>> {
    if s == "" then Some([])
    else if |s| == 1 then None
    else if |s| <= 4 then Group(s)
    else match (Group(s[..4]), Symbols(s[4..]))
      case (Some(first), Some(rest)) => Some(first + rest)
      case _ => None
  }

  function Padding(n: nat): string { if n % 3 == 1 then "==" else if n % 3 == 2 then "=" else "" }

  function EncodePadded(b: seq<Byte>): string { Encode(b) + Padding(|b|) }

  function NoLineEnds(s: string): string {
    if s == "" then "" else (if s[0] in {'\n', '\r'} then "" else [s[0]]) + NoLineEnds(s[1..])
  }

  /** Text without padding. */
  function Decode(s: string): Option<seq<Byte>> { Symbols(NoLineEnds(s)) }

  /** Text with padding: whole groups of four, the last with up to two padding signs. */
  function DecodePadded(s: string): Option<seq<Byte>> {
    var t := NoLineEnds(s);
    if |t| % 4 != 0 then None
    else if t != "" && t[|t| - 1] == '=' then
      if t[|t| - 2] == '=' then Symbols(t[..|t| - 2]) else Symbols(t[..|t| - 1])
    else Symbols(t)
  }

  lemma {:induction false} WholeGroups(b: seq<Byte>)
    ensures (|Encode(b)| + |Padding(|b|)|) % 4 == 0
  {
    if |b| > 3 {
      WholeGroups(b[3..]);
      assert |b[3..]| % 3 == |b| % 3;
    }
  }

  lemma FirstGroup(first: string, rest: string)
    requires |first| == 4 && Group(first).Some? && Symbols(rest).Some? && rest != ""
    ensures Symbols(first + rest) == Some(Group(first).value + Symbols(rest).value)
  {
    assert (first + rest)[..4] == first && (first + rest)[4..] == rest;
  }

  lemma {:induction false} SymbolsOfEncode(b: seq<Byte>)
    ensures AllSymbols(Encode(b)) && Symbols(Encode(b)) == Some(b)
  {
    if b == [] {
    } else if |b| <= 3 {
      GroupOf(b);
    } else {
      SymbolsOfEncode(b[3..]);
      GroupOf(b[..3]);
      FirstGroup(Chunk(b[..3]), Encode(b[3..]));
      assert b[..3] + b[3..] == b;
    }
  }

  lemma {:induction false} NoLineEndsIn(s: string)
    requires '\n' !in s && '\r' !in s
    ensures NoLineEnds(s) == s
  {
    if s != "" { NoLineEndsIn(s[1..]); }
  }

  lemma SymbolsPlain(s: string)
    requires AllSymbols(s)
    ensures '\n' !in s && '\r' !in s && '=' !in s && '$' !in s && ' ' !in s
  {
    assert ValueOf('\n').None? && ValueOf('\r').None? && ValueOf('=').None? && ValueOf('$').None? && ValueOf(' ').None?;
  }

  lemma PaddedDecodes(s: string, tail: string)
    requires tail in {"", "=", "=="} && AllSymbols(s) && (|s| + |tail|) % 4 == 0
    ensures DecodePadded(s + tail) == Symbols(s)
  {
    SymbolsPlain(s);
    var t := s + tail;
    NoLineEndsIn(t);
    assert t[..|s|] == s;
    if tail == "" {
      assert t == s;
    } else if tail == "=" {
      assert t[|s|] == '=' && t[..|t| - 1] == s;
      assert |s| > 0 && t[|t| - 2] == s[|s| - 1];
    } else {
      assert t[|s|] == '=' && t[|s| + 1] == '=' && t[..|t| - 2] == s;
    }
  }

  /** What was encoded decodes to the same bytes, without padding and with it. */
  lemma RoundTrip(b: seq<Byte>)
    ensures Decode(Encode(b)) == Some(b)
  {
    SymbolsOfEncode(b);
    SymbolsPlain(Encode(b));
    NoLineEndsIn(Encode(b));
  }

  lemma PaddedRoundTrip(b: seq<Byte>)
    ensures DecodePadded(EncodePadded(b)) == Some(b)
  {
    SymbolsOfEncode(b);
    WholeGroups(b);
    Unpadded(b, Encode(b), Padding(|b|), EncodePadded(b));
  }

  lemma Unpadded(b: seq<Byte>, s: string, tail: string, t: string)
    requires tail in {"", "=", "=="} && AllSymbols(s) && (|s| + |tail|) % 4 == 0
    requires t == s + tail && Symbols(s) == Some(b)
    ensures DecodePadded(t) == Some(b)
  {
    PaddedDecodes(s, tail);
  }
}
