/** Editing an authorized_keys text. How a line's key is read is a parameter here, so
    that the laws are about the lines. */
module KeyText {
  import opened Text
  import opened AuthKeys

  /** A line's key, or "" for a line that is no key. */
  type BodyOf = string -> string

  /** Space around a line is not looked at, and an empty line is no key. */
  ghost predicate ReadsTrimmed(bodyOf: BodyOf) {
    bodyOf("") == "" && forall s :: bodyOf(Trim(s)) == bodyOf(s)
  }

  /** The program's own way of reading a line. */
  function Program(): BodyOf { line => KeyBody(line) }

  lemma ProgramReadsTrimmed()
    ensures ReadsTrimmed(Program())
  {
    forall s ensures Program()(Trim(s)) == Program()(s) { BodyOfTrimmed(s); }
  }

  // Lines.

  function TrimCR(s: string): string {
    if s != "" && s[|s| - 1] == '\r' then s[..|s| - 1] else s
  }

  function TrimAll(lines: seq<string>): (out: seq<string>)
    ensures |out| == |lines| && forall i :: 0 <= i < |lines| ==> out[i] == TrimCR(lines[i])
  {
    seq(|lines|, i requires 0 <= i < |lines| => TrimCR(lines[i]))
  }

  /** A final line end starts no line of its own. */
  function WithoutEmptyLast(lines: seq<string>): seq<string>
    requires lines != []
  {
    if lines[|lines| - 1] == "" then lines[..|lines| - 1] else lines
  }

  /** A text's lines, without the line end or a carriage return before it. */
  function Lines(text: string): seq<string> { WithoutEmptyLast(TrimAll(Split(text, '\n'))) }

  function Filter(lines: seq<string>, keep: string -> bool): (kept: seq<string>)
    ensures |kept| <= |lines|
  {
    if lines == [] then [] else (if keep(lines[0]) then [lines[0]] else []) + Filter(lines[1..], keep)
  }

  function IsKeyBy(bodyOf: BodyOf): string -> bool { line => bodyOf(line) != "" }

  /** The lines that are keys. */
  function KeyLines(bodyOf: BodyOf, text: string): seq<string> { Filter(Lines(text), IsKeyBy(bodyOf)) }

  function NotBody(bodyOf: BodyOf, body: string): string -> bool { line => bodyOf(line) != body }

  /** What adding a key makes of the text, and whether it was added; None for a line
      that is no key. */
  function Added(bodyOf: BodyOf, text: string, line: string): Option<(string, bool)> {
    var body := bodyOf(line);
    if body == "" then None
    else if exists ln :: ln in Lines(text) && bodyOf(ln) == body then Some((text, false))
    else
      var base := TrimRight(text, '\n');
      Some(((if base == "" then "" else base + "\n") + Trim(line) + "\n", true))
  }

  function OtherLines(bodyOf: BodyOf, text: string, line: string): seq<string> {
    Filter(Lines(text), NotBody(bodyOf, bodyOf(line)))
  }

  function Ended(joined: string): string { if joined == "" then "" else joined + "\n" }

  function Rejoined(lines: seq<string>, kept: seq<string>): (string, nat)
    requires |kept| <= |lines|
  {
    (Ended(TrimRight(Join(kept, "\n"), '\n')), |lines| - |kept|)
  }

  /** What removing a key makes of the text, and how many lines went. */
  function Removed(bodyOf: BodyOf, text: string, line: string): (string, nat) {
    if bodyOf(line) == "" then (text, 0) else Rejoined(Lines(text), OtherLines(bodyOf, text, line))
  }

  // The code.

  /** Each line without a carriage return at its end, in place. */
  method TrimEach(was: seq<string>) returns (lines: seq<string>)
    ensures lines == TrimAll(was)
  {
    lines := was;
    for i := 0 to |lines|
      invariant |lines| == |was|
      invariant forall j :: 0 <= j < |was| ==> lines[j] == if j < i then TrimCR(was[j]) else was[j]
    {
      lines := lines[i := TrimCR(lines[i])];
    }
  }

  method DropEmptyLast(was: seq<string>) returns (lines: seq<string>)
    requires was != []
    ensures lines == WithoutEmptyLast(was)
  {
    lines := was;
    if lines[|lines| - 1] == "" { lines := lines[..|lines| - 1]; }
  }

  method SplitLines(text: string) returns (lines: seq<string>)
    ensures lines == Lines(text)
  {
    lines := TrimEach(Split(text, '\n'));
    lines := DropEmptyLast(lines);
  }

  method AddKeyToText(bodyOf: BodyOf, text: string, line: string) returns (res: Option<(string, bool)>)
    ensures res == Added(bodyOf, text, line)
  {
    var body := bodyOf(line);
    if body == "" { return None; }
    var lines := SplitLines(text);
    for i := 0 to |lines|
      invariant forall j :: 0 <= j < i ==> bodyOf(lines[j]) != body
    {
      if bodyOf(lines[i]) == body {
        assert lines[i] in Lines(text);
        return Some((text, false));
      }
    }
    var base := TrimRight(text, '\n');
    var prefix := "";
    if base != "" { prefix := base + "\n"; }
    res := Some((prefix + Trim(line) + "\n", true));
  }

  lemma FilterStep(kept: seq<string>, lines: seq<string>, i: nat, keep: string -> bool)
    requires i < |lines|
    ensures kept + Filter(lines[i..], keep) ==
            (if keep(lines[i]) then kept + [lines[i]] else kept) + Filter(lines[i + 1..], keep)
  {
    assert lines[i..][1..] == lines[i + 1..];
    var rest := Filter(lines[i + 1..], keep);
    assert kept + ([lines[i]] + rest) == kept + [lines[i]] + rest;
    assert [] + rest == rest;
  }

  /** The lines that do not hold the body, and how many do. */
  method Drop(bodyOf: BodyOf, lines: seq<string>, body: string) returns (kept: seq<string>, removed: nat)
    ensures kept == Filter(lines, NotBody(bodyOf, body)) && removed + |kept| == |lines|
  {
    kept, removed := [], 0;
    assert lines[0..] == lines;
    for i := 0 to |lines|
      invariant kept + Filter(lines[i..], NotBody(bodyOf, body)) == Filter(lines, NotBody(bodyOf, body))
      invariant removed + |kept| == i
    {
      FilterStep(kept, lines, i, NotBody(bodyOf, body));
      if bodyOf(lines[i]) == body {
        removed := removed + 1;
      } else {
        kept := kept + [lines[i]];
      }
    }
    assert kept + [] == kept;
  }

  method RemoveKeyFromText(bodyOf: BodyOf, text: string, line: string) returns (out: string, removed: nat)
    ensures (out, removed) == Removed(bodyOf, text, line)
  {
    var body := bodyOf(line);
    if body == "" { return text, 0; }
    var lines := SplitLines(text);
    var kept;
    kept, removed := Drop(bodyOf, lines, body);
    var joined := TrimRight(Join(kept, "\n"), '\n');
    out := if joined == "" then "" else joined + "\n";
  }

  // A text and its lines.

  lemma {:induction false} SplitAppend(a: string, b: string)
    ensures Split(a + "\n" + b, '\n') == Split(a, '\n') + Split(b, '\n')
  {
    if '\n' in a {
      var i := IndexOf(a, '\n');
      var head, tail := a[..i], a[i + 1..];
      assert a == head + ['\n'] + tail;
      SplitAppend(tail, b);
      SplitAround(head, tail, b);
    } else {
      SplitNoSep(a, '\n');
      SplitAt(a, '\n', b);
    }
  }

  lemma SplitAround(head: string, tail: string, b: string)
    requires '\n' !in head
    requires Split(tail + "\n" + b, '\n') == Split(tail, '\n') + Split(b, '\n')
    ensures Split(head + ['\n'] + tail + "\n" + b, '\n') == Split(head + ['\n'] + tail, '\n') + Split(b, '\n')
  {
    assert head + ['\n'] + tail + "\n" + b == head + ['\n'] + (tail + "\n" + b);
    SplitAt(head, '\n', tail);
    SplitAt(head, '\n', tail + "\n" + b);
    assert [head] + (Split(tail, '\n') + Split(b, '\n')) == [head] + Split(tail, '\n') + Split(b, '\n');
  }

  lemma {:induction false} FilterHas(lines: seq<string>, keep: string -> bool)
    ensures forall ln :: ln in Filter(lines, keep) <==> ln in lines && keep(ln)
  {
    if lines != [] {
      FilterHas(lines[1..], keep);
      assert lines == [lines[0]] + lines[1..];
    }
  }

  lemma FilterFirst(line: string, rest: seq<string>, keep: string -> bool)
    ensures Filter([line] + rest, keep) == (if keep(line) then [line] else []) + Filter(rest, keep)
  {
    assert ([line] + rest)[1..] == rest;
  }

  lemma Associative(a: seq<string>, b: seq<string>, c: seq<string>)
    ensures a + (b + c) == a + b + c
  {
  }

  lemma {:induction false} FilterAppend(a: seq<string>, b: seq<string>, keep: string -> bool)
    ensures Filter(a + b, keep) == Filter(a, keep) + Filter(b, keep)
  {
    if a == [] {
      assert a + b == b;
    } else {
      var line, rest := a[0], a[1..];
      FilterAppend(rest, b, keep);
      FilterFirst(line, rest, keep);
      FilterFirst(line, rest + b, keep);
      assert a == [line] + rest;
      Associative([line], rest, b);
      Associative(if keep(line) then [line] else [], Filter(rest, keep), Filter(b, keep));
    }
  }

  function AllLines(text: string): seq<string> { TrimAll(Split(text, '\n')) }

  lemma AllLinesAppend(a: string, b: string)
    ensures AllLines(a + "\n" + b) == AllLines(a) + AllLines(b)
  {
    SplitAppend(a, b);
  }

  /** The empty line a final line end leaves, if any, passes no filter that an empty
      line does not pass. */
  lemma FilterLines(text: string, keep: string -> bool)
    requires !keep("")
    ensures Filter(Lines(text), keep) == Filter(AllLines(text), keep)
  {
    var all := AllLines(text);
    var n := |all| - 1;
    if all[n] == "" {
      assert all == all[..n] + [""];
      FilterAppend(all[..n], [""], keep);
      assert Filter([""], keep) == [];
    }
  }

  lemma {:induction false} TrimmedText(text: string, keep: string -> bool)
    requires !keep("")
    ensures Filter(AllLines(TrimRight(text, '\n')), keep) == Filter(AllLines(text), keep)
    decreases |text|
  {
    if text != "" && text[|text| - 1] == '\n' {
      var t := text[..|text| - 1];
      TrimmedText(t, keep);
      assert text == t + "\n" + "";
      AllLinesAppend(t, "");
      assert AllLines("") == [""];
      FilterAppend(AllLines(t), [""], keep);
      assert Filter([""], keep) == [];
    }
  }

  lemma {:induction false} FilterTwice(lines: seq<string>, a: string -> bool, b: string -> bool)
    ensures Filter(Filter(lines, a), b) == Filter(Filter(lines, b), a)
  {
    if lines != [] {
      FilterTwice(lines[1..], a, b);
      var one := [lines[0]];
      assert one[1..] == [];
      FilterAppend(if a(lines[0]) then one else [], Filter(lines[1..], a), b);
      FilterAppend(if b(lines[0]) then one else [], Filter(lines[1..], b), a);
    }
  }

  lemma {:induction false} FilterTrimmed(lines: seq<string>, keep: string -> bool)
    requires forall s :: keep(TrimCR(s)) == keep(s)
    ensures Filter(TrimAll(lines), keep) == TrimAll(Filter(lines, keep))
  {
    if lines != [] {
      FilterTrimmed(lines[1..], keep);
      assert TrimAll(lines)[1..] == TrimAll(lines[1..]);
    }
  }

  lemma CRisSpace(bodyOf: BodyOf, s: string)
    requires ReadsTrimmed(bodyOf)
    ensures bodyOf(TrimCR(s)) == bodyOf(s)
  {
    if s != "" && s[|s| - 1] == '\r' { TrimWithoutCR(s); }
  }

  lemma {:induction false} TrimWithoutCR(s: string)
    requires s != "" && s[|s| - 1] == '\r'
    ensures Trim(TrimCR(s)) == Trim(s)
    decreases |s|
  {
    if |s| > 1 && IsSpace(s[0]) {
      TrimWithoutCR(s[1..]);
      assert TrimCR(s)[1..] == TrimCR(s[1..]);
    } else if |s| > 1 {
      assert TrimStart(TrimCR(s)) == TrimCR(s);
    } else {
      assert TrimCR(s) == "" && s[1..] == "";
    }
  }

  // Adding.

  /** A line that is one line of a text. */
  predicate OneLine(line: string) { '\n' !in Trim(line) }

  lemma {:induction false} TrimmedEnd(s: string)
    ensures TrimCR(TrimEnd(s)) == TrimEnd(s)
    decreases |s|
  {
    if s != "" && IsSpace(s[|s| - 1]) { TrimmedEnd(s[..|s| - 1]); }
  }

  lemma AddedLines(base: string, line: string)
    requires OneLine(line)
    ensures AllLines((if base == "" then "" else base + "\n") + Trim(line) + "\n")
            == (if base == "" then [] else AllLines(base)) + [Trim(line)] + [""]
  {
    SplitNoSep(Trim(line), '\n');
    TrimmedEnd(TrimStart(line));
    assert AllLines(Trim(line)) == [Trim(line)] && AllLines("") == [""];
    var tail := Trim(line) + "\n";
    assert tail == Trim(line) + "\n" + "";
    AllLinesAppend(Trim(line), "");
    if base == "" {
      assert "" + Trim(line) + "\n" == tail;
    } else {
      assert base + "\n" + Trim(line) + "\n" == base + "\n" + tail;
      AllLinesAppend(base, tail);
    }
  }

  function Appended(text: string, line: string): string {
    var base := TrimRight(text, '\n');
    (if base == "" then "" else base + "\n") + Trim(line) + "\n"
  }

  lemma FilterEnd(before: seq<string>, key: string, keep: string -> bool)
    requires !keep("") && keep(key)
    ensures Filter(before + [key] + [""], keep) == Filter(before, keep) + [key]
  {
    FilterAppend(before + [key], [""], keep);
    FilterAppend(before, [key], keep);
    assert [""][1..] == [] && [key][1..] == [];
    assert Filter([""], keep) == [] && Filter([key], keep) == [key];
  }

  lemma NoLinesKept(keep: string -> bool)
    requires !keep("")
    ensures AllLines("") == [""] && Filter(AllLines(""), keep) == []
  {
  }

  lemma AppendedKeys(text: string, line: string, keep: string -> bool)
    requires OneLine(line) && !keep("") && keep(Trim(line))
    ensures Filter(Lines(Appended(text, line)), keep) == Filter(Lines(text), keep) + [Trim(line)]
  {
    var base, key := TrimRight(text, '\n'), Trim(line);
    var before := if base == "" then [] else AllLines(base);
    AddedLines(base, line);
    FilterLines(Appended(text, line), keep);
    FilterLines(text, keep);
    TrimmedText(text, keep);
    FilterEnd(before, key, keep);
    if base == "" { NoLinesKept(keep); }
  }

  predicate Present(bodyOf: BodyOf, text: string, line: string) {
    exists ln :: ln in Lines(text) && bodyOf(ln) == bodyOf(line)
  }

  /** A key that is there already leaves the text as it is; any other is added as one
      line after the ones there, exactly when it is one line. */
  lemma AddingAppends(bodyOf: BodyOf, text: string, line: string)
    requires ReadsTrimmed(bodyOf) && bodyOf(line) != ""
    ensures Added(bodyOf, text, line) == Some(if Present(bodyOf, text, line) then (text, false) else (Appended(text, line), true))
    ensures OneLine(line) <==> KeyLines(bodyOf, Appended(text, line)) == KeyLines(bodyOf, text) + [Trim(line)]
  {
    if OneLine(line) {
      AppendedKeys(text, line, IsKeyBy(bodyOf));
    } else {
      var lines := Lines(Appended(text, line));
      NoLineBreaks(Appended(text, line));
      FilterHas(lines, IsKeyBy(bodyOf));
      assert Trim(line) in KeyLines(bodyOf, text) + [Trim(line)];
    }
  }

  lemma NoLineBreaks(text: string)
    ensures forall ln :: ln in Lines(text) ==> '\n' !in ln
  {
    var parts := Split(text, '\n');
    assert forall i :: 0 <= i < |parts| ==> '\n' !in parts[i];
    forall ln | ln in Lines(text) ensures '\n' !in ln {
      var i :| 0 <= i < |Lines(text)| && Lines(text)[i] == ln;
      assert ln == TrimCR(parts[i]) && ln <= parts[i];
    }
  }

  /** Adding a key again changes nothing. */
  lemma AddingTwice(bodyOf: BodyOf, text: string, line: string)
    requires ReadsTrimmed(bodyOf) && bodyOf(line) != "" && OneLine(line)
    ensures var out := Added(bodyOf, text, line).value.0; Added(bodyOf, out, line) == Some((out, false))
  {
    AddingAppends(bodyOf, text, line);
    if !Present(bodyOf, text, line) {
      var out := Appended(text, line);
      FilterHas(Lines(out), IsKeyBy(bodyOf));
      assert Trim(line) in KeyLines(bodyOf, text) + [Trim(line)];
      assert Trim(line) in Lines(out) && bodyOf(Trim(line)) == bodyOf(line);
    }
  }

  // Removing.

  lemma {:induction false} TrimNewlinesEnd(s: string)
    ensures TrimRight(s, '\n') == "" || TrimRight(s, '\n')[|TrimRight(s, '\n')| - 1] != '\n'
    ensures |TrimRight(s, '\n')| <= |s|
    decreases |s|
  {
    if s != "" && s[|s| - 1] == '\n' { TrimNewlinesEnd(s[..|s| - 1]); }
  }

  lemma EndedText(joined: string, keep: string -> bool)
    requires !keep("")
    ensures Filter(Lines(Ended(joined)), keep) == Filter(AllLines(joined), keep)
  {
    FilterLines(Ended(joined), keep);
    if joined != "" {
      assert joined + "\n" == joined + "\n" + "";
      AllLinesAppend(joined, "");
      assert AllLines("") == [""] && [""][1..] == [];
      FilterAppend(AllLines(joined), [""], keep);
    }
  }

  lemma JoinedLines(kept: seq<string>, keep: string -> bool)
    requires !keep("") && forall i :: 0 <= i < |kept| ==> '\n' !in kept[i]
    ensures Filter(AllLines(Join(kept, "\n")), keep) == Filter(TrimAll(kept), keep)
  {
    if kept == [] {
      assert AllLines("") == [""] && [""][1..] == [] && TrimAll(kept) == [];
    } else {
      SplitJoin(kept, '\n');
    }
  }

  lemma EndedKeys(kept: seq<string>, keep: string -> bool)
    requires !keep("") && forall i :: 0 <= i < |kept| ==> '\n' !in kept[i]
    ensures Filter(Lines(Ended(TrimRight(Join(kept, "\n"), '\n'))), keep) == Filter(TrimAll(kept), keep)
  {
    EndedText(TrimRight(Join(kept, "\n"), '\n'), keep);
    TrimmedText(Join(kept, "\n"), keep);
    JoinedLines(kept, keep);
  }

  /** Removing a key drops exactly the lines with its body, counts them, and keeps the
      others in order, each less one carriage return at its end. */
  lemma RemovingDrops(bodyOf: BodyOf, text: string, line: string)
    requires ReadsTrimmed(bodyOf) && bodyOf(line) != ""
    ensures var others := Filter(KeyLines(bodyOf, text), NotBody(bodyOf, bodyOf(line)));
            && KeyLines(bodyOf, Removed(bodyOf, text, line).0) == TrimAll(others)
            && Removed(bodyOf, text, line).1 == |KeyLines(bodyOf, text)| - |others|
            && (KeyLines(bodyOf, Removed(bodyOf, text, line).0) == others <==> forall ln :: ln in others ==> TrimCR(ln) == ln)
  {
    var keep, not := IsKeyBy(bodyOf), NotBody(bodyOf, bodyOf(line));
    var kept := Filter(Lines(text), not);
    NoLineBreaks(text);
    FilterHas(Lines(text), not);
    EndedKeys(kept, keep);
    forall s ensures keep(TrimCR(s)) == keep(s) { CRisSpace(bodyOf, s); }
    FilterTrimmed(kept, keep);
    FilterTwice(Lines(text), not, keep);
    CountDropped(Lines(text), bodyOf, bodyOf(line));
    TrimAllSame(Filter(KeyLines(bodyOf, text), not));
  }

  lemma TrimAllSame(lines: seq<string>)
    ensures TrimAll(lines) == lines <==> forall ln :: ln in lines ==> TrimCR(ln) == ln
  {
    if TrimAll(lines) == lines {
      forall ln | ln in lines ensures TrimCR(ln) == ln {
        var i :| 0 <= i < |lines| && lines[i] == ln;
        assert TrimAll(lines)[i] == TrimCR(lines[i]);
      }
    }
  }

  lemma {:induction false} CountDropped(lines: seq<string>, bodyOf: BodyOf, body: string)
    requires body != ""
    ensures |lines| - |Filter(lines, NotBody(bodyOf, body))| ==
            |Filter(lines, IsKeyBy(bodyOf))| - |Filter(Filter(lines, IsKeyBy(bodyOf)), NotBody(bodyOf, body))|
  {
    if lines != [] {
      CountDropped(lines[1..], bodyOf, body);
      var first := if bodyOf(lines[0]) != "" then [lines[0]] else [];
      FilterAppend(first, Filter(lines[1..], IsKeyBy(bodyOf)), NotBody(bodyOf, body));
      assert [lines[0]][1..] == [];
    }
  }

  /** Removing a key after adding it leaves the keys there were, without it. */
  lemma RemovingAdded(bodyOf: BodyOf, text: string, line: string)
    requires ReadsTrimmed(bodyOf) && bodyOf(line) != "" && OneLine(line)
    ensures var out := Added(bodyOf, text, line).value.0;
            KeyLines(bodyOf, Removed(bodyOf, out, line).0)
            == TrimAll(Filter(KeyLines(bodyOf, text), NotBody(bodyOf, bodyOf(line))))
  {
    var not := NotBody(bodyOf, bodyOf(line));
    AddingAppends(bodyOf, text, line);
    var out := Added(bodyOf, text, line).value.0;
    RemovingDrops(bodyOf, out, line);
    FilterAppend(KeyLines(bodyOf, text), [Trim(line)], not);
    assert [Trim(line)][1..] == [] && bodyOf(Trim(line)) == bodyOf(line);
  }

  lemma {:induction false} FilterAll(lines: seq<string>, keep: string -> bool)
    requires forall i :: 0 <= i < |lines| ==> keep(lines[i])
    ensures Filter(lines, keep) == lines
  {
    if lines != [] { FilterAll(lines[1..], keep); }
  }

  /** Newlines trimmed off the end were empty lines. */
  lemma {:induction false} TrimmedSplit(text: string)
    ensures var p := Split(TrimRight(text, '\n'), '\n');
            && |p| <= |Split(text, '\n')| && p == Split(text, '\n')[..|p|]
            && forall i :: |p| <= i < |Split(text, '\n')| ==> Split(text, '\n')[i] == ""
    decreases |text|
  {
    if text != "" && text[|text| - 1] == '\n' {
      var t := text[..|text| - 1];
      TrimmedSplit(t);
      assert text == t + "\n" + "";
      SplitAppend(t, "");
      assert Split("", '\n') == [""];
    }
  }

  lemma {:induction false} JoinShorter(parts: seq<string>)
    ensures |Join(TrimAll(parts), "\n")| <= |Join(parts, "\n")|
    ensures (exists i :: 0 <= i < |parts| && TrimCR(parts[i]) != parts[i]) ==> |Join(TrimAll(parts), "\n")| < |Join(parts, "\n")|
  {
    if |parts| > 1 {
      JoinShorter(parts[1..]);
      assert TrimAll(parts)[1..] == TrimAll(parts[1..]);
      if i :| 0 <= i < |parts| && TrimCR(parts[i]) != parts[i] {
        if i > 0 { assert parts[1..][i - 1] == parts[i]; }
      }
    }
  }

  lemma EndedLines(joined: string)
    requires joined != ""
    ensures Lines(Ended(joined)) == AllLines(joined)
  {
    assert joined + "\n" == joined + "\n" + "";
    AllLinesAppend(joined, "");
    assert AllLines("") == [""];
    assert (AllLines(joined) + [""])[..|AllLines(joined)|] == AllLines(joined);
  }

  /** What a second pass over a text's remaining lines makes of it. */
  lemma SecondPass(joined: string)
    requires joined != "" && joined[|joined| - 1] != '\n'
    ensures var parts := Split(joined, '\n');
            Ended(TrimRight(Join(TrimAll(parts), "\n"), '\n')) == Ended(joined)
            <==> forall i :: 0 <= i < |parts| ==> TrimCR(parts[i]) == parts[i]
  {
    var parts := Split(joined, '\n');
    JoinSplit(joined, '\n');
    JoinShorter(parts);
    TrimNewlinesEnd(Join(TrimAll(parts), "\n"));
    if forall i :: 0 <= i < |parts| ==> TrimCR(parts[i]) == parts[i] {
      assert TrimAll(parts) == parts;
    }
  }

  lemma NothingMore(bodyOf: BodyOf, joined: string, line: string)
    requires bodyOf(line) != "" && joined != ""
    requires forall i :: 0 <= i < |Split(joined, '\n')| ==> bodyOf(TrimCR(Split(joined, '\n')[i])) != bodyOf(line)
    ensures Removed(bodyOf, Ended(joined), line) == (Ended(TrimRight(Join(AllLines(joined), "\n"), '\n')), 0)
  {
    EndedLines(joined);
    var lines := AllLines(joined);
    assert forall i :: 0 <= i < |lines| ==> bodyOf(lines[i]) != bodyOf(line);
    FilterAll(lines, NotBody(bodyOf, bodyOf(line)));
    RemovedNone(bodyOf, Ended(joined), line, lines);
  }

  lemma RemovedNone(bodyOf: BodyOf, text: string, line: string, lines: seq<string>)
    requires bodyOf(line) != "" && Lines(text) == lines && Filter(lines, NotBody(bodyOf, bodyOf(line))) == lines
    ensures Removed(bodyOf, text, line) == (Ended(TrimRight(Join(lines, "\n"), '\n')), 0)
  {
  }

  lemma NothingLeft(bodyOf: BodyOf, line: string)
    requires bodyOf(line) != ""
    ensures Removed(bodyOf, "", line) == ("", 0)
  {
    assert Lines("") == [];
  }

  /** What is joined again after a removal, taken apart. */
  lemma KeptParts(kept: seq<string>)
    requires forall i :: 0 <= i < |kept| ==> '\n' !in kept[i]
    ensures var parts := Split(TrimRight(Join(kept, "\n"), '\n'), '\n');
            if kept == [] then parts == [""]
            else |parts| <= |kept| && parts == kept[..|parts|] && forall i :: |parts| <= i < |kept| ==> kept[i] == ""
  {
    TrimmedSplit(Join(kept, "\n"));
    if kept != [] { SplitJoin(kept, '\n'); }
  }

  lemma TwiceEmpty(bodyOf: BodyOf, kept: seq<string>, line: string)
    requires bodyOf(line) != "" && TrimRight(Join(kept, "\n"), '\n') == ""
    requires forall i :: 0 <= i < |kept| ==> '\n' !in kept[i]
    ensures Removed(bodyOf, "", line) == ("", 0) && forall ln :: ln in kept ==> TrimCR(ln) == ln
  {
    NothingLeft(bodyOf, line);
    KeptParts(kept);
    assert Split("", '\n') == [""];
    if kept != [] { SameEnds(kept, [""]); }
  }

  lemma SecondPassKept(kept: seq<string>, joined: string)
    requires joined == TrimRight(Join(kept, "\n"), '\n') && joined != ""
    requires forall i :: 0 <= i < |kept| ==> '\n' !in kept[i]
    ensures Ended(TrimRight(Join(AllLines(joined), "\n"), '\n')) == Ended(joined) <==> forall ln :: ln in kept ==> TrimCR(ln) == ln
  {
    KeptParts(kept);
    TrimNewlinesEnd(Join(kept, "\n"));
    SecondPass(joined);
    if kept != [] { SameEnds(kept, Split(joined, '\n')); }
  }

  lemma RemovedAgain(bodyOf: BodyOf, kept: seq<string>, joined: string, line: string)
    requires ReadsTrimmed(bodyOf) && bodyOf(line) != "" && joined == TrimRight(Join(kept, "\n"), '\n') && joined != ""
    requires forall i :: 0 <= i < |kept| ==> '\n' !in kept[i]
    requires forall ln :: ln in kept ==> bodyOf(ln) != bodyOf(line)
    ensures Removed(bodyOf, Ended(joined), line) == (Ended(TrimRight(Join(AllLines(joined), "\n"), '\n')), 0)
  {
    KeptParts(kept);
    assert kept == [] ==> joined == "";
    NoneHere(bodyOf, kept, Split(joined, '\n'), line);
    NothingMore(bodyOf, joined, line);
  }

  /** Removing a key again finds nothing more to remove; it leaves the text as it is
      exactly when no line kept still ends in a carriage return. */
  lemma RemovingTwice(bodyOf: BodyOf, text: string, line: string)
    requires ReadsTrimmed(bodyOf) && bodyOf(line) != ""
    ensures var out := Removed(bodyOf, text, line).0;
            && Removed(bodyOf, out, line).1 == 0
            && (Removed(bodyOf, out, line).0 == out <==> forall ln :: ln in OtherLines(bodyOf, text, line) ==> TrimCR(ln) == ln)
  {
    var kept := OtherLines(bodyOf, text, line);
    var joined := TrimRight(Join(kept, "\n"), '\n');
    assert Removed(bodyOf, text, line).0 == Ended(joined);
    FilterHas(Lines(text), NotBody(bodyOf, bodyOf(line)));
    NoLineBreaks(text);
    if joined == "" {
      TwiceEmpty(bodyOf, kept, line);
    } else {
      RemovedAgain(bodyOf, kept, joined, line);
      SecondPassKept(kept, joined);
    }
  }

  lemma NoneHere(bodyOf: BodyOf, kept: seq<string>, parts: seq<string>, line: string)
    requires ReadsTrimmed(bodyOf) && |parts| <= |kept| && parts == kept[..|parts|]
    requires forall ln :: ln in kept ==> bodyOf(ln) != bodyOf(line)
    ensures forall i :: 0 <= i < |parts| ==> bodyOf(TrimCR(parts[i])) != bodyOf(line)
  {
    forall i | 0 <= i < |parts| ensures bodyOf(TrimCR(parts[i])) != bodyOf(line) {
      assert parts[i] == kept[i] && kept[i] in kept;
      CRisSpace(bodyOf, parts[i]);
    }
  }

  lemma SameEnds(kept: seq<string>, parts: seq<string>)
    requires |parts| <= |kept| && parts == kept[..|parts|]
    requires forall i :: |parts| <= i < |kept| ==> kept[i] == ""
    ensures (forall i :: 0 <= i < |parts| ==> TrimCR(parts[i]) == parts[i]) <==> (forall ln :: ln in kept ==> TrimCR(ln) == ln)
  {
    if forall ln :: ln in kept ==> TrimCR(ln) == ln {
      forall i | 0 <= i < |parts| ensures TrimCR(parts[i]) == parts[i] { assert parts[i] in kept; }
    }
    if forall i :: 0 <= i < |parts| ==> TrimCR(parts[i]) == parts[i] {
      forall ln | ln in kept ensures TrimCR(ln) == ln {
        var i :| 0 <= i < |kept| && kept[i] == ln;
        if i < |parts| { assert parts[i] == ln; }
      }
    }
  }
}
