/** Plain ASCII text: the character classes, searches and number spellings that
    the rest of the model shares. */
module Text {

  datatype Option<+T> = None | Some(value: T)

  datatype Result<+T, +E> = Ok(value: T) | Err(error: E)

  predicate IsLower(c: char) { 'a' <= c <= 'z' }

  predicate IsDigit(c: char) { '0' <= c <= '9' }

  predicate IsAlnum(c: char) { IsLower(c) || IsDigit(c) }

  predicate AllDigits(s: string) { forall i :: 0 <= i < |s| ==> IsDigit(s[i]) }

  predicate AllAlnum(s: string) { forall i :: 0 <= i < |s| ==> IsAlnum(s[i]) }

  predicate HasSuffix(s: string, suffix: string) {
    |suffix| <= |s| && s[|s| - |suffix|..] == suffix
  }

  /** The index of the first c in s, or |s| when there is none. */
  function IndexOf(s: string, c: char): (i: nat)
    ensures i <= |s|
    ensures i < |s| ==> s[i] == c
    ensures forall j :: 0 <= j < i ==> s[j] != c
  {
    if s == "" || s[0] == c then 0 else 1 + IndexOf(s[1..], c)
  }

  lemma {:induction false} IndexOfFirst(a: string, c: char, b: string)
    requires c !in a
    ensures IndexOf(a + [c] + b, c) == |a|
  {
    var s := a + [c] + b;
    assert s[|a|] == c;
    assert forall j :: 0 <= j < |a| ==> s[j] == a[j];
  }

  /** Go's strings.Split on a one-character separator: never empty. */
  function Split(s: string, sep: char): (parts: seq<string>)
    ensures |parts| > 0
    ensures forall i :: 0 <= i < |parts| ==> sep !in parts[i]
  {
    if s == "" then [""]
    else
      var rest := Split(s[1..], sep);
      if s[0] == sep then [""] + rest else [[s[0]] + rest[0]] + rest[1..]
  }

  function Join(parts: seq<string>, sep: string): string {
    if parts == [] then ""
    else if |parts| == 1 then parts[0]
    else parts[0] + sep + Join(parts[1..], sep)
  }

  lemma {:induction false} SplitNoSep(s: string, sep: char)
    requires sep !in s
    ensures Split(s, sep) == [s]
  {
    if s != "" {
      SplitNoSep(s[1..], sep);
      assert [s[0]] + s[1..] == s;
    }
  }

  lemma {:induction false} SplitAt(a: string, sep: char, b: string)
    requires sep !in a
    ensures Split(a + [sep] + b, sep) == [a] + Split(b, sep)
  {
    var s := a + [sep] + b;
    if a == "" {
      assert s[1..] == b;
    } else {
      SplitAt(a[1..], sep, b);
      assert s[1..] == a[1..] + [sep] + b;
      assert [a[0]] + a[1..] == a;
    }
  }

  /** Splitting what was joined gives the parts back, and joining what was split
      gives the text back. */
  lemma {:induction false} SplitJoin(parts: seq<string>, sep: char)
    requires parts != []
    requires forall i :: 0 <= i < |parts| ==> sep !in parts[i]
    ensures Split(Join(parts, [sep]), sep) == parts
  {
    if |parts| == 1 {
      SplitNoSep(parts[0], sep);
      assert parts == [parts[0]];
    } else {
      var first, rest := parts[0], parts[1..];
      assert parts == [first] + rest;
      SplitJoin(rest, sep);
      SplitAt(first, sep, Join(rest, [sep]));
      JoinFirst(first, rest, [sep]);
    }
  }

  lemma JoinFirst(first: string, rest: seq<string>, sep: string)
    requires rest != []
    ensures Join([first] + rest, sep) == first + sep + Join(rest, sep)
  {
    assert ([first] + rest)[1..] == rest;
  }

  lemma JoinLonger(c: char, rest: seq<string>, sep: string)
    requires rest != []
    ensures Join([[c] + rest[0]] + rest[1..], sep) == [c] + Join(rest, sep)
  {
    var first := [c] + rest[0];
    if |rest| == 1 {
      assert [first] + rest[1..] == [first];
    } else {
      JoinFirst(first, rest[1..], sep);
      assert first + sep + Join(rest[1..], sep) == [c] + (rest[0] + sep + Join(rest[1..], sep));
    }
  }

  lemma {:induction false} JoinSplit(s: string, sep: char)
    ensures Join(Split(s, sep), [sep]) == s
  {
    if s != "" {
      JoinSplit(s[1..], sep);
      var rest := Split(s[1..], sep);
      assert s == [s[0]] + s[1..];
      if s[0] == sep {
        JoinFirst("", rest, [sep]);
        assert "" + [sep] + s[1..] == s;
      } else {
        JoinLonger(s[0], rest, [sep]);
      }
    }
  }

  // Numbers as text.

  function DigitChar(d: nat): char
    requires d < 10
  {
    ['0', '1', '2', '3', '4', '5', '6', '7', '8', '9'][d]
  }

  function DigitValue(c: char): (d: nat)
    requires IsDigit(c)
    ensures d < 10
  {
    (c - '0') as nat
  }

  /** n in decimal, with no leading zero. */
  function Decimal(n: nat): (s: string)
    ensures s != "" && AllDigits(s)
  {
    if n < 10 then [DigitChar(n)] else Decimal(n / 10) + [DigitChar(n % 10)]
  }

  /** The number a run of digits spells. */
  function NumberOf(s: string): nat
    requires AllDigits(s)
  {
    if s == "" then 0 else 10 * NumberOf(s[..|s| - 1]) + DigitValue(s[|s| - 1])
  }

  lemma {:induction false} NumberOfDecimal(n: nat)
    ensures NumberOf(Decimal(n)) == n
  {
    if n >= 10 {
      NumberOfDecimal(n / 10);
      assert Decimal(n)[..|Decimal(n)| - 1] == Decimal(n / 10);
    }
  }

  function Zeros(k: nat): (s: string)
    ensures |s| == k && AllDigits(s)
  {
    seq(k, i => '0')
  }

  /** Zeros in front, up to the width. */
  function Filled(d: string, width: nat): (s: string)
    requires d != "" && AllDigits(d)
    ensures |s| >= width && s != "" && AllDigits(s)
  {
    if |d| < width then Zeros(width - |d|) + d else d
  }

  /** fmt's "%0*d" for a number that is not negative. */
  function Padded(n: nat, width: nat): (s: string)
    ensures |s| >= width && s != "" && AllDigits(s)
  {
    Filled(Decimal(n), width)
  }

  lemma {:induction false} LeadingZeros(k: nat, s: string)
    requires AllDigits(s)
    ensures NumberOf(Zeros(k) + s) == NumberOf(s)
    decreases k + |s|
  {
    var t := Zeros(k) + s;
    if s != "" {
      LeadingZeros(k, s[..|s| - 1]);
      assert t[..|t| - 1] == Zeros(k) + s[..|s| - 1];
    } else if k > 0 {
      LeadingZeros(k - 1, s);
      assert t[..|t| - 1] == Zeros(k - 1) + s;
    }
  }

  lemma NumberOfFilled(d: string, width: nat)
    requires d != "" && AllDigits(d)
    ensures NumberOf(Filled(d, width)) == NumberOf(d)
  {
    if |d| < width {
      assert Filled(d, width) == Zeros(width - |d|) + d;
      LeadingZeros(width - |d|, d);
    }
  }

  lemma NumberOfPadded(n: nat, width: nat)
    ensures NumberOf(Padded(n, width)) == n
  {
    NumberOfDecimal(n);
    NumberOfFilled(Decimal(n), width);
  }

  lemma {:induction false} DecimalLead(n: nat)
    requires n > 0
    ensures Decimal(n)[0] != '0'
  {
    if n >= 10 { DecimalLead(n / 10); }
  }

  lemma {:induction false} NumberPositive(s: string)
    requires s != "" && AllDigits(s) && s[0] != '0'
    ensures NumberOf(s) > 0
  {
    if |s| > 1 { NumberPositive(s[..|s| - 1]); }
  }

  /** No shorter text spells a number than one with no leading zero. */
  lemma {:induction false} NoShorter(a: string, b: string)
    requires a != "" && AllDigits(a) && a[0] != '0' && AllDigits(b) && NumberOf(a) == NumberOf(b)
    ensures |a| <= |b|
  {
    NumberPositive(a);
    if |a| > 1 { NoShorter(a[..|a| - 1], b[..|b| - 1]); }
  }

  lemma {:induction false} OneOfItsLength(a: string, b: string)
    requires AllDigits(a) && AllDigits(b) && |a| == |b| && NumberOf(a) == NumberOf(b)
    ensures a == b
  {
    if a != "" {
      OneOfItsLength(a[..|a| - 1], b[..|b| - 1]);
      assert a == a[..|a| - 1] + [a[|a| - 1]] && b == b[..|b| - 1] + [b[|b| - 1]];
    }
  }

  /** s spells n in width digits at least, and in no more than it needs. */
  predicate SpelledIn(s: string, n: nat, width: nat) {
    s != "" && AllDigits(s) && NumberOf(s) == n && |s| >= width && (|s| > width && |s| > 1 ==> s[0] != '0')
  }

  /** The padded number is the one text of that kind. */
  lemma PaddedExactly(s: string, n: nat, width: nat)
    ensures SpelledIn(s, n, width) <==> s == Padded(n, width)
  {
    var t := Padded(n, width);
    NumberOfPadded(n, width);
    if n > 0 { DecimalLead(n); }
    assert SpelledIn(t, n, width);
    if SpelledIn(s, n, width) {
      if |s| > 1 && |s| > width { NoShorter(s, t); }
      if |t| > 1 && |t| > width { NoShorter(t, s); }
      OneOfItsLength(s, t);
    }
  }

  /** The largest int on the 64-bit builds. */
  const MAX_INT: nat := 0x7FFF_FFFF_FFFF_FFFF

  /** strconv.Atoi on text with no sign: None is its error. */
  function Atoi(s: string): Option<nat> {
    if s == "" || !AllDigits(s) then None
    else if NumberOf(s) > MAX_INT then None
    else Some(NumberOf(s))
  }

  /** strconv.Atoi on any text. */
  function SignedAtoi(s: string): Option<int> {
    var t := if s != "" && s[0] in {'+', '-'} then s[1..] else s;
    if t == "" || !AllDigits(t) then None
    else
      var v: int := NumberOf(t);
      if s[0] == '-' then (if v > MAX_INT + 1 then None else Some(-v))
      else if v > MAX_INT then None else Some(v)
  }

  function Lower(c: char): char { if 'A' <= c <= 'Z' then c - 'A' + 'a' else c }

  function LowerAll(s: string): string { seq(|s|, i requires 0 <= i < |s| => Lower(s[i])) }

  // White space.

  predicate IsSpace(c: char) { c in {' ', '\t', '\n', '\r'} || c as int == 11 || c as int == 12 }

  function TrimStart(s: string): string
    decreases |s|
  {
    if s != "" && IsSpace(s[0]) then TrimStart(s[1..]) else s
  }

  function TrimEnd(s: string): string
    decreases |s|
  {
    if s != "" && IsSpace(s[|s| - 1]) then TrimEnd(s[..|s| - 1]) else s
  }

  function Trim(s: string): string { TrimEnd(TrimStart(s)) }

  function TrimRight(s: string, c: char): string {
    if s != "" && s[|s| - 1] == c then TrimRight(s[..|s| - 1], c) else s
  }

  function WordRun(s: string): (n: nat)
    ensures n <= |s| && (s != "" && !IsSpace(s[0]) ==> n > 0)
  {
    if s == "" || IsSpace(s[0]) then 0 else 1 + WordRun(s[1..])
  }

  function Fields(s: string): seq<string>
    decreases |s|
  {
    if s == "" then []
    else if IsSpace(s[0]) then Fields(s[1..])
    else [s[..WordRun(s)]] + Fields(s[WordRun(s)..])
  }

  lemma {:induction false} TrimEndTwice(s: string)
    ensures TrimEnd(TrimEnd(s)) == TrimEnd(s)
    ensures TrimEnd(s) <= s
    decreases |s|
  {
    if s != "" && IsSpace(s[|s| - 1]) { TrimEndTwice(s[..|s| - 1]); }
  }

  lemma {:induction false} TrimStartStays(s: string)
    ensures TrimStart(s) == "" || !IsSpace(TrimStart(s)[0])
    decreases |s|
  {
    if s != "" && IsSpace(s[0]) { TrimStartStays(s[1..]); }
  }

  lemma TrimTwice(s: string)
    ensures Trim(Trim(s)) == Trim(s)
  {
    TrimStartStays(s);
    TrimEndTwice(TrimStart(s));
  }

  /** Words: none is empty, and none holds a space. */
  predicate Words(words: seq<string>) {
    forall i :: 0 <= i < |words| ==> words[i] != "" && forall j :: 0 <= j < |words[i]| ==> !IsSpace(words[i][j])
  }

  lemma {:induction false} WordRunPlain(s: string)
    ensures forall i :: 0 <= i < WordRun(s) ==> !IsSpace(s[i])
    ensures WordRun(s) < |s| ==> IsSpace(s[WordRun(s)])
  {
    if s != "" && !IsSpace(s[0]) { WordRunPlain(s[1..]); }
  }

  lemma {:induction false} FieldsAreWords(s: string)
    ensures Words(Fields(s))
    decreases |s|
  {
    if s != "" {
      if IsSpace(s[0]) {
        FieldsAreWords(s[1..]);
      } else {
        WordRunPlain(s);
        FieldsAreWords(s[WordRun(s)..]);
      }
    }
  }

  lemma {:induction false} WordRunIs(word: string, rest: string)
    requires forall j :: 0 <= j < |word| ==> !IsSpace(word[j])
    requires rest == "" || IsSpace(rest[0])
    ensures WordRun(word + rest) == |word|
    decreases |word|
  {
    if word == "" {
      assert word + rest == rest;
    } else {
      WordRunIs(word[1..], rest);
      assert (word + rest)[1..] == word[1..] + rest;
    }
  }

  /** Words joined by spaces are the same words again. */
  lemma {:induction false} FieldsOfJoin(words: seq<string>)
    requires Words(words)
    ensures Fields(Join(words, " ")) == words
  {
    if words != [] {
      var rest := if |words| == 1 then "" else " " + Join(words[1..], " ");
      var s := words[0] + rest;
      assert s == Join(words, " ");
      WordRunIs(words[0], rest);
      assert s[..|words[0]|] == words[0] && s[|words[0]|..] == rest;
      FieldsOfJoin(words[1..]);
      if |words| > 1 { assert rest[1..] == Join(words[1..], " "); }
    }
  }
}
