/** The texts commands show before they are agreed to, and what they tell. */
module Previews {
  import opened Text
  import opened KeyRefs

  // Lines.

  predicate OneLine(s: string) { '\n' !in s }

  predicate Lines(ls: seq<string>) { forall i :: 0 <= i < |ls| ==> OneLine(ls[i]) }

  function Report(lines: seq<string>): string { Join(lines, "\n") }

  lemma ReportTells(a: seq<string>, b: seq<string>)
    requires Lines(a) && Lines(b) && a != [] && b != []
    ensures Report(a) == Report(b) ==> a == b
  {
    assert "\n" == ['\n'];
    SplitJoin(a, '\n');
    SplitJoin(b, '\n');
  }

  /** Lines that start alike, up to the first that does not, can be told. */
  lemma RunTells(a: seq<string>, s: seq<string>, b: seq<string>, t: seq<string>, mark: string)
    requires forall i :: 0 <= i < |a| ==> mark <= a[i]
    requires forall i :: 0 <= i < |b| ==> mark <= b[i]
    requires (s != [] ==> !(mark <= s[0])) && (t != [] ==> !(mark <= t[0]))
    requires a + s == b + t
    ensures a == b && s == t
  {
    RunNoLonger(a, s, b, t, mark);
    RunNoLonger(b, t, a, s, mark);
    assert (a + s)[..|a|] == a && (b + t)[..|b|] == b && (a + s)[|a|..] == s && (b + t)[|b|..] == t;
  }

  lemma RunNoLonger(a: seq<string>, s: seq<string>, b: seq<string>, t: seq<string>, mark: string)
    requires forall i :: 0 <= i < |b| ==> mark <= b[i]
    requires (s != [] ==> !(mark <= s[0])) && a + s == b + t
    ensures |b| <= |a|
  {
    if s != [] {
      assert (a + s)[|a|] == s[0];
      assert forall i :: 0 <= i < |b| ==> (b + t)[i] == b[i];
    }
  }

  lemma MiddleTells(head: string, a: string, b: string, tail: string)
    requires head + a + tail == head + b + tail
    ensures a == b
  {
    var x := head + a + tail;
    assert a == x[|head|..|x| - |tail|] && b == x[|head|..|x| - |tail|];
  }

  /** One line for each item, between a head and a tail. */
  function Each(head: string, items: seq<string>, tail: string): (lines: seq<string>)
    ensures |lines| == |items| && forall i :: 0 <= i < |items| ==> lines[i] == head + items[i] + tail && head <= lines[i]
  {
    seq(|items|, i requires 0 <= i < |items| => head + items[i] + tail)
  }

  lemma EachTells(head: string, a: seq<string>, b: seq<string>, tail: string)
    requires Each(head, a, tail) == Each(head, b, tail)
    ensures a == b
  {
    assert |a| == |b|;
    forall i | 0 <= i < |a| ensures a[i] == b[i] {
      assert Each(head, a, tail)[i] == Each(head, b, tail)[i];
      MiddleTells(head, a[i], b[i], tail);
    }
  }

  // A reconcile's.

  /** What a reconcile would do: the keys it would mint and record, how many are there
      already, and the configuration files it would write and remove. */
  datatype Reconcile = Reconcile(mint: seq<KeyRef>, present: nat, record: seq<string>, write: seq<string>, prune: seq<string>)

  function KeyNames(refs: seq<KeyRef>): (names: seq<string>)
    ensures |names| == |refs| && forall i :: 0 <= i < |refs| ==> names[i] == refs[i].name
  {
    seq(|refs|, i requires 0 <= i < |refs| => refs[i].name)
  }

  const MINT := "  mint would: "
  const NEW := "  (new)  (not-deployed)"
  const RECORD := "  record would: "
  const ON_DISK := "  (on disk, had no inventory record)"
  const RECONCILE := "reconcile (dry-run):"

  function MintLines(r: Reconcile): seq<string> { Each(MINT, KeyNames(r.mint), NEW) }

  function PresentLines(r: Reconcile): seq<string> {
    if r.mint == [] then ["  keys: all " + Decimal(r.present) + " present (none minted)"] else []
  }

  function RecordLines(r: Reconcile): seq<string> { Each(RECORD, r.record, ON_DISK) }

  function ConfigLines(r: Reconcile): seq<string> {
    if r.write == [] && r.prune == [] then ["  config: already in sync"]
    else
      (if r.write == [] then [] else ["  config would write: " + Join(r.write, ", ")])
      + (if r.prune == [] then [] else ["  config would prune: " + Join(r.prune, ", ")])
  }

  function ReconcileLines(r: Reconcile): seq<string> {
    [RECONCILE] + (MintLines(r) + (PresentLines(r) + (RecordLines(r) + ConfigLines(r))))
  }

  /** No name is two lines long: the manifest refuses control characters. */
  predicate Named(r: Reconcile) {
    && Lines(KeyNames(r.mint)) && Lines(r.record)
    && OneLine(Join(r.write, ", ")) && OneLine(Join(r.prune, ", "))
  }

  lemma NamedLines(r: Reconcile)
    requires Named(r)
    ensures Lines(ReconcileLines(r))
  {
    LinesOfEach(MINT, KeyNames(r.mint), NEW);
    LinesOfEach(RECORD, r.record, ON_DISK);
    PresentOneLine(r);
    ConfigOneLine(r);
    assert OneLine(RECONCILE);
    LinesTogether(RecordLines(r), ConfigLines(r));
    LinesTogether(PresentLines(r), RecordLines(r) + ConfigLines(r));
    LinesTogether(MintLines(r), PresentLines(r) + (RecordLines(r) + ConfigLines(r)));
    LinesTogether([RECONCILE], MintLines(r) + (PresentLines(r) + (RecordLines(r) + ConfigLines(r))));
  }

  lemma PresentOneLine(r: Reconcile)
    ensures Lines(PresentLines(r))
  {
    OneLineOf("  keys: all ", Decimal(r.present), " present (none minted)");
  }

  lemma ConfigOneLine(r: Reconcile)
    requires Named(r)
    ensures Lines(ConfigLines(r))
  {
    OneLineOf("  config would write: ", Join(r.write, ", "), "");
    OneLineOf("  config would prune: ", Join(r.prune, ", "), "");
    assert "  config would write: " + Join(r.write, ", ") + "" == "  config would write: " + Join(r.write, ", ");
    assert "  config would prune: " + Join(r.prune, ", ") + "" == "  config would prune: " + Join(r.prune, ", ");
  }

  lemma LinesTogether(a: seq<string>, b: seq<string>)
    requires Lines(a) && Lines(b)
    ensures Lines(a + b)
  {
  }

  lemma OneLineOf(a: string, b: string, c: string)
    requires OneLine(a) && OneLine(b) && OneLine(c)
    ensures OneLine(a + b + c)
  {
  }

  lemma LinesOfEach(head: string, items: seq<string>, tail: string)
    requires OneLine(head) && Lines(items) && OneLine(tail)
    ensures Lines(Each(head, items, tail))
  {
    forall i | 0 <= i < |items| ensures OneLine(Each(head, items, tail)[i]) { OneLineOf(head, items[i], tail); }
  }

  /** What follows the keys to mint starts otherwise, and so does what follows the keys
      to record. */
  lemma OtherStarts(r: Reconcile)
    ensures var rest := PresentLines(r) + (RecordLines(r) + ConfigLines(r)); rest != [] && !(MINT <= rest[0])
    ensures ConfigLines(r) != [] && !(RECORD <= ConfigLines(r)[0])
  {
    var config := ConfigLines(r)[0];
    assert config[2] == 'c';
    if r.record != [] { assert RecordLines(r)[0][2] == 'r'; }
    if r.mint == [] { assert PresentLines(r)[0][2] == 'k'; }
    assert MINT[2] == 'm' && RECORD[2] == 'r';
  }

  /** A reconcile's preview tells the names of the keys to mint and of those to record, in
      order, and what the configuration lines say. Whose profile a key is in it does not. */
  lemma ReconcileTells(a: Reconcile, b: Reconcile)
    requires Named(a) && Named(b)
    ensures Report(ReconcileLines(a)) == Report(ReconcileLines(b)) <==>
            && KeyNames(a.mint) == KeyNames(b.mint) && PresentLines(a) == PresentLines(b)
            && a.record == b.record && ConfigLines(a) == ConfigLines(b)
  {
    if Report(ReconcileLines(a)) == Report(ReconcileLines(b)) {
      NamedLines(a);
      NamedLines(b);
      ReportTells(ReconcileLines(a), ReconcileLines(b));
      assert ReconcileLines(a)[1..] == ReconcileLines(b)[1..];
      OtherStarts(a);
      OtherStarts(b);
      RunTells(MintLines(a), PresentLines(a) + (RecordLines(a) + ConfigLines(a)),
               MintLines(b), PresentLines(b) + (RecordLines(b) + ConfigLines(b)), MINT);
      EachTells(MINT, KeyNames(a.mint), KeyNames(b.mint), NEW);
      RestTells(a, b);
    }
  }

  lemma RestTells(a: Reconcile, b: Reconcile)
    requires |a.mint| == |b.mint|
    requires PresentLines(a) + (RecordLines(a) + ConfigLines(a)) == PresentLines(b) + (RecordLines(b) + ConfigLines(b))
    ensures PresentLines(a) == PresentLines(b) && a.record == b.record && ConfigLines(a) == ConfigLines(b)
  {
    var x, y := RecordLines(a) + ConfigLines(a), RecordLines(b) + ConfigLines(b);
    var n := |PresentLines(a)|;
    assert (PresentLines(a) + x)[..n] == PresentLines(a) && (PresentLines(b) + y)[..n] == PresentLines(b);
    assert (PresentLines(a) + x)[n..] == x && (PresentLines(b) + y)[n..] == y;
    OtherStarts(a);
    OtherStarts(b);
    RunTells(RecordLines(a), ConfigLines(a), RecordLines(b), ConfigLines(b), RECORD);
    EachTells(RECORD, a.record, b.record, ON_DISK);
  }

  lemma PresentTells(a: Reconcile, b: Reconcile)
    requires a.mint == [] <==> b.mint == []
    ensures PresentLines(a) == PresentLines(b) <==> a.mint != [] || a.present == b.present
  {
    if a.mint == [] && PresentLines(a) == PresentLines(b) {
      var head, tail := "  keys: all ", " present (none minted)";
      var x, y := head + Decimal(a.present) + tail, head + Decimal(b.present) + tail;
      assert x == PresentLines(a)[0] && y == PresentLines(b)[0];
      MiddleTells(head, Decimal(a.present), Decimal(b.present), tail);
      NumberOfDecimal(a.present);
      NumberOfDecimal(b.present);
    }
  }

  /** The two lists of files, as the text shows them. */
  predicate SameFiles(a: seq<string>, b: seq<string>) { (a == [] <==> b == []) && Join(a, ", ") == Join(b, ", ") }

  lemma ConfigTells(a: Reconcile, b: Reconcile)
    ensures ConfigLines(a) == ConfigLines(b) <==> SameFiles(a.write, b.write) && SameFiles(a.prune, b.prune)
  {
    var w, p := "  config would write: ", "  config would prune: ";
    assert w[15] == 'w' && p[15] == 'p' && w[8] == ' ' && p[8] == ' ' && "  config: already in sync"[8] == ':';
    var x, y := ConfigLines(a), ConfigLines(b);
    if x == y {
      assert a.write != [] ==> x[0] == w + Join(a.write, ", ") && x[0][8] == ' ' && x[0][15] == 'w';
      assert b.write != [] ==> y[0] == w + Join(b.write, ", ") && y[0][8] == ' ' && y[0][15] == 'w';
      assert a.write == [] && a.prune != [] ==> x[0][8] == ' ' && x[0][15] == 'p';
      assert b.write == [] && b.prune != [] ==> y[0][8] == ' ' && y[0][15] == 'p';
      assert a.write == [] <==> b.write == [];
      assert |x| == |y|;
      assert a.prune == [] <==> b.prune == [];
      if a.write != [] { AfterHead(w, Join(a.write, ", "), Join(b.write, ", ")); }
      if a.prune != [] {
        assert x[|x| - 1] == p + Join(a.prune, ", ") && y[|y| - 1] == p + Join(b.prune, ", ");
        AfterHead(p, Join(a.prune, ", "), Join(b.prune, ", "));
      }
    }
  }

  lemma AfterHead(head: string, a: string, b: string)
    requires head + a == head + b
    ensures a == b
  {
    assert (head + a)[|head|..] == a && (head + b)[|head|..] == b;
  }

  /** Two reconciles have one preview exactly when they do the same: keys of the same names
      minted, the same recorded, the same files written and removed, and, with none to
      mint, as many there. */
  predicate SamePlan(a: Reconcile, b: Reconcile) {
    && KeyNames(a.mint) == KeyNames(b.mint) && (a.mint != [] || a.present == b.present)
    && a.record == b.record && SameFiles(a.write, b.write) && SameFiles(a.prune, b.prune)
  }

  lemma ReconcileToldExactly(a: Reconcile, b: Reconcile)
    requires Named(a) && Named(b)
    ensures Report(ReconcileLines(a)) == Report(ReconcileLines(b)) <==> SamePlan(a, b)
  {
    ReconcileTells(a, b);
    if KeyNames(a.mint) == KeyNames(b.mint) {
      assert |a.mint| == |b.mint|;
      PresentTells(a, b);
      ConfigTells(a, b);
    }
  }

  // A host batch's.

  datatype Action = Added | Updated | Unchanged

  /** What a batch would do with one host. */
  datatype HostResult = HostResult(alias: string, action: Action, changes: seq<string>)

  /** The action, as wide as the widest. */
  function Verb(a: Action): (v: string)
    ensures |v| == 9
  {
    match a case Added => "added    " case Updated => "updated  " case Unchanged => "unchanged"
  }

  function Note(r: HostResult): string { if r.changes == [] then "" else "  (" + Join(r.changes, "; ") + ")" }

  function ResultLine(r: HostResult): string { "  " + Verb(r.action) + " " + (r.alias + Note(r)) }

  function ResultLines(rs: seq<HostResult>): (lines: seq<string>)
    ensures |lines| == |rs| && forall i :: 0 <= i < |rs| ==> lines[i] == ResultLine(rs[i])
  {
    seq(|rs|, i requires 0 <= i < |rs| => ResultLine(rs[i]))
  }

  function Count(rs: seq<HostResult>, a: Action): nat {
    if rs == [] then 0 else (if rs[0].action == a then 1 else 0) + Count(rs[1..], a)
  }

  function CountLine(added: nat, updated: nat, same: nat): string {
    "  " + Decimal(added) + " added, " + Decimal(updated) + " updated, " + Decimal(same) + " unchanged"
  }

  function CountsLine(rs: seq<HostResult>): string { CountLine(Count(rs, Added), Count(rs, Updated), Count(rs, Unchanged)) }

  function HeadLine(profile: string): string { "host apply " + profile + " (dry-run):" }

  function ProfileLine(profile: string): string { "  profile: would create " + profile }

  function HeadLines(profile: string, creates: bool): seq<string> {
    [HeadLine(profile)] + if creates then [ProfileLine(profile)] else []
  }

  /** What `host apply` shows: the profile when it would be made, a line for each host,
      and how many there are of each kind. */
  function BatchLines(profile: string, creates: bool, rs: seq<HostResult>): seq<string> {
    HeadLines(profile, creates) + (ResultLines(rs) + [CountsLine(rs)])
  }

  /** The report as the code writes it, counting as it goes. */
  method FormatBatch(profile: string, creates: bool, rs: seq<HostResult>) returns (text: string)
    ensures text == Report(BatchLines(profile, creates, rs))
  {
    var lines := [HeadLine(profile)];
    if creates { lines := lines + [ProfileLine(profile)]; }
    ghost var first := lines;
    assert first == HeadLines(profile, creates);
    var counts: map<Action, nat> := map[Added := 0, Updated := 0, Unchanged := 0];
    assert rs[0..] == rs;
    forall a: Action ensures a in counts && counts[a] == 0 { match a case Added => case Updated => case Unchanged => }
    for i := 0 to |rs|
      invariant lines == first + ResultLines(rs[..i])
      invariant forall a :: a in counts && counts[a] + Count(rs[i..], a) == Count(rs, a)
    {
      var act := rs[i].action;
      NextResult(rs, i);
      counts := counts[act := counts[act] + 1];
      lines := lines + [ResultLine(rs[i])];
      assert lines == first + (ResultLines(rs[..i]) + [ResultLine(rs[i])]);
    }
    assert rs[..|rs|] == rs && forall a :: counts[a] == Count(rs, a);
    lines := lines + [CountLine(counts[Added], counts[Updated], counts[Unchanged])];
    assert lines == first + (ResultLines(rs) + [CountsLine(rs)]);
    text := Join(lines, "\n");
  }

  lemma NextResult(rs: seq<HostResult>, i: nat)
    requires i < |rs|
    ensures ResultLines(rs[..i + 1]) == ResultLines(rs[..i]) + [ResultLine(rs[i])]
    ensures forall a :: Count(rs[i..], a) == (if rs[i].action == a then 1 else 0) + Count(rs[i + 1..], a)
  {
    assert rs[i..][1..] == rs[i + 1..];
  }

  /** An alias is one word; a change is on one line. */
  predicate Batch(rs: seq<HostResult>) {
    forall i :: 0 <= i < |rs| ==>
      (forall j :: 0 <= j < |rs[i].alias| ==> !IsSpace(rs[i].alias[j])) && OneLine(Note(rs[i]))
  }

  lemma BatchOneLine(profile: string, creates: bool, rs: seq<HostResult>)
    requires Batch(rs) && OneLine(profile)
    ensures Lines(BatchLines(profile, creates, rs))
  {
    forall i | 0 <= i < |rs| ensures OneLine(ResultLine(rs[i])) {
      assert forall c :: c in rs[i].alias ==> !IsSpace(c);
      OneLineOf("  ", Verb(rs[i].action), " ");
    }
    CountOneLine(Count(rs, Added), Count(rs, Updated), Count(rs, Unchanged));
    HeadOneLine(profile, creates);
    LinesTogether(ResultLines(rs), [CountsLine(rs)]);
    LinesTogether(HeadLines(profile, creates), ResultLines(rs) + [CountsLine(rs)]);
  }

  lemma HeadOneLine(profile: string, creates: bool)
    requires OneLine(profile)
    ensures Lines(HeadLines(profile, creates))
  {
    OneLineOf("host apply ", profile, " (dry-run):");
    OneLineOf("  profile: would create ", profile, "");
    assert ProfileLine(profile) == "  profile: would create " + profile + "";
  }

  lemma CountOneLine(a: nat, b: nat, c: nat)
    ensures OneLine(CountLine(a, b, c))
  {
    var x, y := "  " + Decimal(a) + " added, ", Decimal(b) + " updated, ";
    OneLineOf("  ", Decimal(a), " added, ");
    OneLineOf(x, Decimal(b), " updated, ");
    OneLineOf(x + Decimal(b) + " updated, ", Decimal(c), " unchanged");
  }

  lemma ResultTells(a: HostResult, b: HostResult)
    requires ResultLine(a) == ResultLine(b)
    requires Batch([a]) && Batch([b])
    ensures a.action == b.action && a.alias == b.alias && Note(a) == Note(b)
  {
    var x, y := ResultLine(a), ResultLine(b);
    assert x[2] == Verb(a.action)[0] && x[3] == Verb(a.action)[1] && y[2] == Verb(b.action)[0] && y[3] == Verb(b.action)[1];
    assert Verb(a.action)[0] == Verb(b.action)[0] && Verb(a.action)[1] == Verb(b.action)[1];
    assert a.action == b.action;
    assert x[12..] == a.alias + Note(a) && y[12..] == b.alias + Note(b);
    assert [a][0] == a && [b][0] == b;
    WordRunIs(a.alias, Note(a));
    WordRunIs(b.alias, Note(b));
    assert (a.alias + Note(a))[|a.alias|..] == Note(a) && (b.alias + Note(b))[|b.alias|..] == Note(b);
    assert (a.alias + Note(a))[..|a.alias|] == a.alias && (b.alias + Note(b))[..|b.alias|] == b.alias;
  }

  /** What is told of a batch: whether the profile is made, and for each host its alias,
      what is done and with which changes. */
  datatype Told = Told(creates: bool, hosts: seq<(string, Action, string)>)

  function ToldOf(creates: bool, rs: seq<HostResult>): Told {
    Told(creates, seq(|rs|, i requires 0 <= i < |rs| => (rs[i].alias, rs[i].action, Note(rs[i]))))
  }

  /** A host's line starts with its verb, the last with a number; the profile's starts
      otherwise. */
  lemma ProfileLineOther(profile: string, creates: bool, rs: seq<HostResult>)
    ensures |BatchLines(profile, creates, rs)| >= 2 && |BatchLines(profile, creates, rs)[1]| > 2
    ensures creates <==> BatchLines(profile, creates, rs)[1][2] == 'p'
  {
    var lines := BatchLines(profile, creates, rs);
    if creates {
      assert lines[1] == ProfileLine(profile);
    } else if rs != [] {
      assert lines[1] == ResultLine(rs[0]) && ResultLine(rs[0])[2] == Verb(rs[0].action)[0];
    } else {
      assert lines[1] == CountsLine(rs) && CountsLine(rs)[2] == Decimal(Count(rs, Added))[0];
    }
  }

  /** A batch's preview tells all of that. */
  lemma BatchTells(profile: string, c: bool, rs: seq<HostResult>, d: bool, ss: seq<HostResult>)
    requires OneLine(profile) && Batch(rs) && Batch(ss)
    ensures Report(BatchLines(profile, c, rs)) == Report(BatchLines(profile, d, ss)) ==> ToldOf(c, rs) == ToldOf(d, ss)
  {
    if Report(BatchLines(profile, c, rs)) == Report(BatchLines(profile, d, ss)) {
      BatchOneLine(profile, c, rs);
      BatchOneLine(profile, d, ss);
      ReportTells(BatchLines(profile, c, rs), BatchLines(profile, d, ss));
      ProfileLineOther(profile, c, rs);
      ProfileLineOther(profile, d, ss);
      SameHosts(profile, c, rs, ss);
    }
  }

  lemma SameHosts(profile: string, c: bool, rs: seq<HostResult>, ss: seq<HostResult>)
    requires Batch(rs) && Batch(ss) && BatchLines(profile, c, rs) == BatchLines(profile, c, ss)
    ensures ToldOf(c, rs) == ToldOf(c, ss)
  {
    var head, x, y := HeadLines(profile, c), ResultLines(rs) + [CountsLine(rs)], ResultLines(ss) + [CountsLine(ss)];
    assert (head + x)[|head|..] == x && (head + y)[|head|..] == y;
    SameResults(rs, CountsLine(rs), ss, CountsLine(ss));
  }

  lemma SameResults(rs: seq<HostResult>, x: string, ss: seq<HostResult>, y: string)
    requires Batch(rs) && Batch(ss) && ResultLines(rs) + [x] == ResultLines(ss) + [y]
    ensures |rs| == |ss|
    ensures forall i :: 0 <= i < |rs| ==> rs[i].action == ss[i].action && rs[i].alias == ss[i].alias && Note(rs[i]) == Note(ss[i])
  {
    assert |ResultLines(rs) + [x]| == |rs| + 1 && |ResultLines(ss) + [y]| == |ss| + 1;
    forall i | 0 <= i < |rs|
      ensures rs[i].action == ss[i].action && rs[i].alias == ss[i].alias && Note(rs[i]) == Note(ss[i])
    {
      assert (ResultLines(rs) + [x])[i] == ResultLine(rs[i]);
      assert (ResultLines(ss) + [y])[i] == ResultLine(ss[i]);
      assert Batch([rs[i]]) && Batch([ss[i]]);
      ResultTells(rs[i], ss[i]);
    }
  }

  /** The same host, action and changes, as the text of each shows them. */
  predicate SameHost(a: HostResult, b: HostResult) {
    && a.alias == b.alias && a.action == b.action
    && (a.changes == [] <==> b.changes == []) && Join(a.changes, "; ") == Join(b.changes, "; ")
  }

  predicate SameTold(rs: seq<HostResult>, ss: seq<HostResult>) {
    |rs| == |ss| && forall i :: 0 <= i < |rs| ==> SameHost(rs[i], ss[i])
  }

  lemma NoteTells(a: HostResult, b: HostResult)
    ensures Note(a) == Note(b) <==> (a.changes == [] <==> b.changes == []) && Join(a.changes, "; ") == Join(b.changes, "; ")
  {
    if a.changes != [] && b.changes != [] && Note(a) == Note(b) {
      MiddleTells("  (", Join(a.changes, "; "), Join(b.changes, "; "), ")");
    }
  }

  lemma {:induction false} SameCounts(rs: seq<HostResult>, ss: seq<HostResult>, a: Action)
    requires SameTold(rs, ss)
    ensures Count(rs, a) == Count(ss, a)
  {
    if rs != [] {
      assert SameHost(rs[0], ss[0]);
      assert forall i :: 0 < i < |rs| ==> SameHost(rs[i], ss[i]);
      SameCounts(rs[1..], ss[1..], a);
    }
  }

  /** Two batches have one preview exactly when they do the same: the profile, and for each
      host its alias, action and changes. */
  lemma BatchToldExactly(profile: string, c: bool, rs: seq<HostResult>, d: bool, ss: seq<HostResult>)
    requires OneLine(profile) && Batch(rs) && Batch(ss)
    ensures Report(BatchLines(profile, c, rs)) == Report(BatchLines(profile, d, ss)) <==> c == d && SameTold(rs, ss)
  {
    if Report(BatchLines(profile, c, rs)) == Report(BatchLines(profile, d, ss)) {
      BatchTells(profile, c, rs, d, ss);
      var x, y := ToldOf(c, rs), ToldOf(d, ss);
      assert |x.hosts| == |rs| && |y.hosts| == |ss|;
      forall i | 0 <= i < |rs| ensures SameHost(rs[i], ss[i]) {
        assert x.hosts[i] == y.hosts[i];
        NoteTells(rs[i], ss[i]);
      }
    }
    if c == d && SameTold(rs, ss) {
      forall i | 0 <= i < |rs| ensures ResultLines(rs)[i] == ResultLines(ss)[i] {
        assert SameHost(rs[i], ss[i]);
        NoteTells(rs[i], ss[i]);
      }
      assert ResultLines(rs) == ResultLines(ss);
      forall a ensures Count(rs, a) == Count(ss, a) { SameCounts(rs, ss, a); }
    }
  }
}
