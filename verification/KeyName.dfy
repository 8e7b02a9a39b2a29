/** Key names: <profile>_<rest>-<algo>, built, rendered from a template, and read
    back in two places: the profile before the first underscore, and the key type
    at the end. */
module KeyName {
  import opened Text
  import opened Template
  import opened Pattern
  import opened Naming
  import opened Alias

  /** What a name can be refused as: nothing is left of a part, it cannot be split, or the
      file system cannot hold it. */
  datatype NameError = Empty | NoSplit | Unsafe

  /** A name, or why there is none. */
  type Name<T> = Result<T, NameError>

  // Building.

  /** How many characters s starts with that are not lowercase letters or digits. */
  function OtherRun(s: string): (n: nat)
    ensures n <= |s|
  {
    if s == "" || IsAlnum(Lower(s[0])) then 0 else 1 + OtherRun(s[1..])
  }

  /** Lowercased, each run of other characters one dash. */
  function Collapse(s: string): string
    decreases |s|
  {
    if s == "" then ""
    else if IsAlnum(Lower(s[0])) then [Lower(s[0])] + Collapse(s[1..])
    else "-" + Collapse(s[1 + OtherRun(s[1..])..])
  }

  function TrimLeft(s: string, c: char): string {
    if s != "" && s[0] == c then TrimLeft(s[1..], c) else s
  }

  function NormalizeSegment(value: string): string {
    TrimRight(TrimLeft(Collapse(value), '-'), '-')
  }

  function Strip(s: string, c: char): string {
    if s == "" then "" else (if s[0] == c then "" else [s[0]]) + Strip(s[1..], c)
  }

  const ALGORITHMS: seq<string> := ["ed25519-sk", "ecdsa-sk", "ed25519", "ecdsa", "rsa", "dsa"]

  predicate KnownAlgo(algo: string) { algo in ALGORITHMS }

  function ProfileToken(profile: string): string { Strip(NormalizeSegment(profile), '-') }

  function BuildKeyName(profile: string, service: string, algo: string): Name<string> {
    var algo := if algo == "" then "ed25519" else algo;
    var prof, svc := ProfileToken(profile), NormalizeSegment(service);
    if prof == "" || svc == "" then Err(Empty) else Ok(prof + "_" + svc + "-" + algo)
  }

  // Reading back.

  /** The profile and the rest, cut at the first underscore. */
  function SplitKeyName(name: string): Name<(string, string)> {
    var i := IndexOf(name, '_');
    if i == |name| || name[i + 1..] == "" then Err(NoSplit) else Ok((name[..i], name[i + 1..]))
  }

  lemma CutAtFirst(head: string, tail: string)
    requires '_' !in head && tail != ""
    ensures SplitKeyName(head + "_" + tail) == Ok((head, tail))
  {
    var name := head + ['_'] + tail;
    IndexOfFirst(head, '_', tail);
    assert name[..|head|] == head && name[|head| + 1..] == tail;
  }

  function FirstSuffix(rest: string, algos: seq<string>): string {
    if algos == [] then "ed25519"
    else if rest == algos[0] || HasSuffix(rest, "-" + algos[0]) then algos[0]
    else FirstSuffix(rest, algos[1..])
  }

  function AlgoOf(name: string): Name<string> {
    match SplitKeyName(name)
    case Err(e) => Err(e)
    case Ok((_, rest)) => Ok(FirstSuffix(rest, ALGORITHMS))
  }

  function FromEnd(s: string, k: nat): char
    requires 0 < k <= |s|
  {
    s[|s| - k]
  }

  lemma SuffixChar(s: string, suffix: string, k: nat)
    requires HasSuffix(s, suffix) && 0 < k <= |suffix|
    ensures FromEnd(s, k) == FromEnd(suffix, k)
  {
    assert s[|s| - |suffix|..][|suffix| - k] == s[|s| - k];
  }

  /** Two known types that can end one name are the same: four characters tell
      them apart. */
  lemma AlgoEndings(s: string, a: string, b: string)
    requires KnownAlgo(a) && KnownAlgo(b)
    requires HasSuffix(s, "-" + a) && (s == b || HasSuffix(s, "-" + b))
    ensures a == b
  {
    var x, y := "-" + a, if s == b then b else "-" + b;
    assert |x| >= 4 && HasSuffix(s, y) && |y| >= 4;
    forall k | 0 < k <= 4 ensures FromEnd(x, k) == FromEnd(y, k) {
      SuffixChar(s, x, k);
      SuffixChar(s, y, k);
    }
    SameEnding(x, y, a, b);
  }

  lemma SameEnding(x: string, y: string, a: string, b: string)
    requires KnownAlgo(a) && KnownAlgo(b) && x == "-" + a && (y == b || y == "-" + b) && |y| >= 4
    requires FromEnd(x, 1) == FromEnd(y, 1) && FromEnd(x, 2) == FromEnd(y, 2)
    requires FromEnd(x, 3) == FromEnd(y, 3) && FromEnd(x, 4) == FromEnd(y, 4)
    ensures a == b
  {
  }

  lemma {:induction false} FirstSuffixIs(rest: string, algos: seq<string>, algo: string)
    requires forall a :: a in algos ==> KnownAlgo(a)
    requires algo in algos && HasSuffix(rest, "-" + algo)
    ensures FirstSuffix(rest, algos) == algo
  {
    if rest == algos[0] || HasSuffix(rest, "-" + algos[0]) {
      AlgoEndings(rest, algo, algos[0]);
    } else {
      FirstSuffixIs(rest, algos[1..], algo);
    }
  }

  /** With a letter or digit, rather than a dash, before the type, only the type
      that is assumed when none is found comes back. */
  lemma {:induction false} FirstSuffixWithoutDash(front: string, algo: string, algos: seq<string>)
    requires KnownAlgo(algo) && (forall a :: a in algos ==> KnownAlgo(a))
    requires front != "" && IsAlnum(front[|front| - 1])
    ensures FirstSuffix(front + algo, algos) == algo <==> algo == "ed25519"
  {
    var rest := front + algo;
    if algos != [] {
      var a := algos[0];
      FirstSuffixWithoutDash(front, algo, algos[1..]);
      assert rest[|front| - 1] == front[|front| - 1] && rest[|rest| - 1] == algo[|algo| - 1];
      if rest == a || HasSuffix(rest, "-" + a) { WrongType(front, algo, a); }
    }
  }

  lemma WrongType(front: string, algo: string, a: string)
    requires KnownAlgo(algo) && KnownAlgo(a) && front != "" && IsAlnum(front[|front| - 1])
    requires front + algo == a || HasSuffix(front + algo, "-" + a)
    ensures a != algo && algo != "ed25519"
  {
    var rest := front + algo;
    assert FromEnd(rest, 1) == FromEnd(algo, 1) && FromEnd(rest, |algo| + 1) == front[|front| - 1];
    if HasSuffix(rest, "-" + a) {
      SuffixChar(rest, "-" + a, 1);
      SuffixChar(rest, "-" + a, |a| + 1);
      assert FromEnd("-" + a, 1) == FromEnd(a, 1);
    }
  }

  // What building gives.

  /** Words of lowercase letters and digits with single dashes between them. */
  predicate Kebab(s: string) {
    && SingleDashes(s)
    && (s != "" ==> s[0] != '-' && FromEnd(s, 1) != '-')
  }

  predicate SingleDashes(s: string) {
    && (forall i :: 0 <= i < |s| ==> IsAlnum(s[i]) || s[i] == '-')
    && (forall i :: 0 < i < |s| && s[i] == '-' ==> s[i - 1] != '-')
  }

  lemma {:induction false} RunEnds(s: string)
    ensures OtherRun(s) < |s| ==> IsAlnum(Lower(s[OtherRun(s)]))
  {
    if s != "" && !IsAlnum(Lower(s[0])) { RunEnds(s[1..]); }
  }

  lemma {:induction false} CollapseSingle(s: string)
    ensures SingleDashes(Collapse(s))
    ensures s != "" && IsAlnum(Lower(s[0])) ==> Collapse(s) != "" && Collapse(s)[0] != '-'
    decreases |s|
  {
    if s != "" {
      if IsAlnum(Lower(s[0])) {
        CollapseSingle(s[1..]);
        SingleCons(Lower(s[0]), Collapse(s[1..]));
      } else {
        var rest := s[1 + OtherRun(s[1..])..];
        RunEnds(s[1..]);
        CollapseSingle(rest);
        SingleCons('-', Collapse(rest));
      }
    }
  }

  lemma SingleCons(c: char, s: string)
    requires SingleDashes(s) && (IsAlnum(c) || (c == '-' && (s == "" || s[0] != '-')))
    ensures SingleDashes([c] + s)
  {
  }

  lemma {:induction false} TrimsLeft(s: string)
    requires SingleDashes(s)
    ensures SingleDashes(TrimLeft(s, '-')) && (TrimLeft(s, '-') != "" ==> TrimLeft(s, '-')[0] != '-')
    ensures s == "" || s[0] != '-' ==> TrimLeft(s, '-') == s
  {
    if s != "" && s[0] == '-' { TrimsLeft(s[1..]); }
  }

  lemma {:induction false} TrimsRight(s: string)
    requires SingleDashes(s) && (s != "" ==> s[0] != '-')
    ensures Kebab(TrimRight(s, '-'))
    ensures s == "" || FromEnd(s, 1) != '-' ==> TrimRight(s, '-') == s
  {
    if s != "" && s[|s| - 1] == '-' { TrimsRight(s[..|s| - 1]); }
  }

  /** Normalising gives words with single dashes, and leaves such words alone: doing
      it twice is doing it once. */
  lemma NormalizesOnce(value: string)
    ensures Kebab(NormalizeSegment(value))
    ensures Kebab(value) ==> NormalizeSegment(value) == value
  {
    CollapseSingle(value);
    TrimsLeft(Collapse(value));
    TrimsRight(TrimLeft(Collapse(value), '-'));
    if Kebab(value) { CollapseKebab(value); }
  }

  lemma {:induction false} CollapseKebab(s: string)
    requires SingleDashes(s)
    ensures Collapse(s) == s
  {
    if s != "" {
      CollapseKebab(s[1..]);
      assert s == [s[0]] + s[1..];
      if s[0] == '-' {
        assert OtherRun(s[1..]) == 0 by { if |s| > 1 { assert s[1] != '-'; } }
      }
    }
  }

  lemma {:induction false} WithoutDash(s: string)
    requires forall i :: 0 <= i < |s| ==> IsAlnum(s[i]) || s[i] == '-'
    ensures AllAlnum(Strip(s, '-'))
  {
    if s != "" { WithoutDash(s[1..]); }
  }

  lemma ProfileTokenPlain(profile: string)
    ensures AllAlnum(ProfileToken(profile)) && '_' !in ProfileToken(profile)
  {
    NormalizesOnce(profile);
    WithoutDash(NormalizeSegment(profile));
  }

  /** A built name splits back to its profile, and its key type is found again. */
  lemma BuiltReadsBack(profile: string, service: string, algo: string)
    requires algo == "" || KnownAlgo(algo)
    ensures BuildKeyName(profile, service, algo).Err? <==> ProfileToken(profile) == "" || NormalizeSegment(service) == ""
    ensures var used := if algo == "" then "ed25519" else algo;
            var built := BuildKeyName(profile, service, algo);
            built.Ok? ==>
              && SplitKeyName(built.value) == Ok((ProfileToken(profile), NormalizeSegment(service) + "-" + used))
              && AlgoOf(built.value) == Ok(used)
  {
    var used := if algo == "" then "ed25519" else algo;
    ProfileTokenPlain(profile);
    ReadsBack(ProfileToken(profile), NormalizeSegment(service), used);
  }

  lemma ReadsBack(prof: string, svc: string, algo: string)
    requires '_' !in prof && KnownAlgo(algo)
    ensures SplitKeyName(prof + "_" + svc + "-" + algo) == Ok((prof, svc + "-" + algo))
    ensures AlgoOf(prof + "_" + svc + "-" + algo) == Ok(algo)
  {
    var rest := svc + "-" + algo;
    assert prof + "_" + svc + "-" + algo == prof + "_" + rest;
    CutAtFirst(prof, rest);
    assert rest[|rest| - |algo| - 1..] == "-" + algo;
    FirstSuffixIs(rest, ALGORITHMS, algo);
  }

  // What is left of a text.

  predicate Kept(s: string, i: nat)
    requires i < |s|
  {
    IsAlnum(Lower(s[i]))
  }

  /** The text's runs of letters and digits, in lowercase. */
  function Runs(s: string): (runs: seq<string>)
    ensures s != "" && Kept(s, 0) ==> runs != []
  {
    if s == "" then []
    else
      var c, rest := Lower(s[0]), Runs(s[1..]);
      if !Kept(s, 0) then rest else if |s| == 1 || !Kept(s, 1) then [[c]] + rest else [[c] + rest[0]] + rest[1..]
  }

  lemma {:induction false} RunsAfterOthers(s: string)
    ensures Runs(s[OtherRun(s)..]) == Runs(s)
  {
    if s == "" || Kept(s, 0) {
      assert s[0..] == s;
    } else {
      RunsAfterOthers(s[1..]);
      assert s[1..][OtherRun(s[1..])..] == s[OtherRun(s)..];
    }
  }

  lemma {:induction false} NoRuns(s: string)
    requires Runs(s) == []
    ensures forall i :: 0 <= i < |s| ==> !Kept(s, i)
  {
    if s != "" {
      NoRuns(s[1..]);
      assert forall i :: 0 < i < |s| ==> s[i] == s[1..][i - 1] && !Kept(s[1..], i - 1);
    }
  }

  /** Where collapsing puts a dash at an end. */
  function Front(s: string): string { if s != "" && !Kept(s, 0) then "-" else "" }

  function Back(s: string): string { if Runs(s) != [] && s != "" && !Kept(s, |s| - 1) then "-" else "" }

  /** Collapsing puts one dash between the runs, and one at an end that is no letter or
      digit. */
  lemma {:induction false} CollapseIs(s: string)
    ensures Collapse(s) == Front(s) + (Join(Runs(s), "-") + Back(s))
    decreases |s|
  {
    if s == "" {
    } else if Kept(s, 0) {
      CollapseIs(s[1..]);
      CollapseKept(s);
    } else {
      var rest := s[1 + OtherRun(s[1..])..];
      RunsAfterOthers(s[1..]);
      assert s[1..][OtherRun(s[1..])..] == rest;
      RunEnds(s[1..]);
      CollapseIs(rest);
      CollapseOthers(s, rest);
    }
  }

  lemma CollapseOthers(s: string, rest: string)
    requires s != "" && !Kept(s, 0) && (rest != "" ==> Kept(rest, 0) && rest[|rest| - 1] == s[|s| - 1]) && Runs(rest) == Runs(s)
    requires Collapse(s) == "-" + Collapse(rest) && Collapse(rest) == Front(rest) + (Join(Runs(rest), "-") + Back(rest))
    ensures Collapse(s) == Front(s) + (Join(Runs(s), "-") + Back(s))
  {
    assert Front(rest) == "" && "" + (Join(Runs(rest), "-") + Back(rest)) == Join(Runs(rest), "-") + Back(rest);
    assert rest == "" ==> Runs(s) == [];
  }

  lemma CollapseKept(s: string)
    requires s != "" && Kept(s, 0) && Collapse(s[1..]) == Front(s[1..]) + (Join(Runs(s[1..]), "-") + Back(s[1..]))
    ensures Collapse(s) == Front(s) + (Join(Runs(s), "-") + Back(s))
  {
    var c, t := Lower(s[0]), s[1..];
    if t == "" {
      assert Runs(s) == [[c]];
    } else {
      assert s[|s| - 1] == t[|t| - 1];
      if Kept(t, 0) {
        JoinLonger(c, Runs(t), "-");
        Joined([c], "", Join(Runs(t), "-"), Back(t));
      } else {
        CollapseEnded(s);
      }
    }
  }

  lemma CollapseEnded(s: string)
    requires |s| > 1 && Kept(s, 0) && !Kept(s, 1) && Collapse(s[1..]) == "-" + (Join(Runs(s[1..]), "-") + Back(s[1..]))
    ensures Collapse(s) == "" + (Join(Runs(s), "-") + Back(s))
  {
    var c, t := Lower(s[0]), s[1..];
    assert s[|s| - 1] == t[|t| - 1];
    if Runs(t) != [] {
      JoinFirst([c], Runs(t), "-");
      Joined([c], "-", Join(Runs(t), "-"), Back(t));
    } else {
      NoRuns(t);
      assert !Kept(t, |t| - 1);
      assert Runs(s) == [[c]] && Back(s) == "-";
    }
  }

  lemma Joined(a: string, b: string, c: string, d: string)
    ensures a + (b + (c + d)) == "" + ((a + b + c) + d)
    ensures a + ("" + (c + d)) == "" + ((a + c) + d)
  {
  }

  predicate PlainRuns(runs: seq<string>) {
    forall i :: 0 <= i < |runs| ==> runs[i] != "" && forall j :: 0 <= j < |runs[i]| ==> runs[i][j] != '-'
  }

  lemma {:induction false} RunsPlain(s: string)
    ensures PlainRuns(Runs(s))
  {
    if s != "" { RunsPlain(s[1..]); }
  }

  lemma {:induction false} StripJoin(runs: seq<string>)
    requires PlainRuns(runs)
    ensures Strip(Join(runs, "-"), '-') == Join(runs, "")
    ensures runs != [] ==> Join(runs, "-") != "" && Join(runs, "-")[0] != '-' && FromEnd(Join(runs, "-"), 1) != '-'
  {
    if |runs| == 1 {
      StripFront(runs[0], "");
      assert runs[0] + "" == runs[0];
    } else if runs != [] {
      StripJoin(runs[1..]);
      StripNext(runs[0], Join(runs[1..], "-"));
      assert FromEnd(Join(runs, "-"), 1) == FromEnd(Join(runs[1..], "-"), 1);
      assert runs[0] + "" == runs[0];
    }
  }

  lemma StripNext(run: string, rest: string)
    requires '-' !in run
    ensures Strip(run + "-" + rest, '-') == run + Strip(rest, '-')
  {
    StripFront(run, "-" + rest);
    assert run + "-" + rest == run + ("-" + rest) && ("-" + rest)[1..] == rest;
    assert "" + Strip(rest, '-') == Strip(rest, '-');
  }

  lemma {:induction false} StripFront(run: string, rest: string)
    requires '-' !in run
    ensures Strip(run + rest, '-') == run + Strip(rest, '-')
  {
    if run == "" {
      assert run + rest == rest;
    } else {
      StripFront(run[1..], rest);
      assert (run + rest)[1..] == run[1..] + rest;
    }
  }

  /** Normalising joins the runs of letters and digits with dashes, and a profile's token is
      the same without them. */
  lemma NormalizedIs(s: string)
    ensures NormalizeSegment(s) == Join(Runs(s), "-") && ProfileToken(s) == Join(Runs(s), "")
  {
    CollapseIs(s);
    RunsPlain(s);
    StripJoin(Runs(s));
    if Runs(s) != [] {
      TrimBoth(Front(s), Join(Runs(s), "-"), Back(s));
    } else {
      assert Collapse(s) == "" || Collapse(s) == "-";
      assert "-"[1..] == "";
    }
  }

  lemma TrimBoth(front: string, core: string, tail: string)
    requires front in {"", "-"} && tail in {"", "-"} && core != "" && core[0] != '-' && FromEnd(core, 1) != '-'
    ensures TrimRight(TrimLeft(front + (core + tail), '-'), '-') == core
  {
    var s := core + tail;
    assert front == "-" ==> (front + s)[1..] == s;
    assert TrimLeft(front + s, '-') == s;
    assert tail == "-" ==> s[..|s| - 1] == core;
    assert tail == "" ==> s == core;
  }
}
