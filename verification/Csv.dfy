/** Shaping a list's CSV: choosing rows by profile, key and text, cutting a row's keys
    down to those chosen, and the counts its preview shows. */
module Csv {
  import opened Text

  type Row = seq<string>

  datatype Table = Table(header: Row, rows: seq<Row>)

  /** What was asked for; `hosts` is how many hosts use each key, for a list that says. */
  datatype Shape = Shape(
    profiles: seq<string>, keys: seq<string>, drop: seq<string>, exclude: string,
    narrow: bool, hosts: Option<map<string, nat>>)

  const PROFILE_COLUMNS: seq<string> := ["profile", "Groups"]
  const KEY_COLUMNS: seq<string> := ["key"]
  const KEY_LIST_COLUMNS: seq<string> := ["key_names"]

  /** The first column with one of the names. */
  function Column(header: Row, names: seq<string>): (c: Option<nat>)
    ensures c.Some? ==> c.value < |header| && header[c.value] in names && forall j :: 0 <= j < c.value ==> header[j] !in names
    ensures c.None? ==> forall j :: 0 <= j < |header| ==> header[j] !in names
  {
    if header == [] then None
    else if header[0] in names then Some(0)
    else match Column(header[1..], names) case None => None case Some(c) => Some(c + 1)
  }

  // What happens to one row.

  /** Only: the row's cell is one of the values; no value or no column keeps every row. */
  predicate Chosen(row: Row, col: Option<nat>, values: seq<string>) {
    col.Some? && values != [] ==> col.value < |row| && row[col.value] in values
  }

  /** The words that are wanted, in order. */
  function Wanted(words: seq<string>, want: seq<string>): (kept: seq<string>)
    ensures forall k :: k in kept ==> k in words && k in want
  {
    if words == [] then [] else (if words[0] in want then [words[0]] else []) + Wanted(words[1..], want)
  }

  function HostsOf(hosts: map<string, nat>, k: string): nat { if k in hosts then hosts[k] else 0 }

  function HostSum(hosts: map<string, nat>, kept: seq<string>): nat {
    if kept == [] then 0 else HostsOf(hosts, kept[0]) + HostSum(hosts, kept[1..])
  }

  /** The sum is over the keys kept, each counted as often as it is there, and one that no
      host is known to use as none. */
  lemma {:induction false} HostSumIs(hosts: map<string, nat>, kept: seq<string>, k: string)
    ensures HostSum(hosts, []) == 0
    ensures HostSum(hosts, kept + [k]) == HostSum(hosts, kept) + if k in hosts then hosts[k] else 0
  {
    if kept == [] {
      assert kept + [k] == [k] && [k][1..] == [];
    } else {
      HostSumIs(hosts, kept[1..], k);
      assert (kept + [k])[1..] == kept[1..] + [k];
    }
  }

  function Set(row: Row, col: Option<nat>, cell: string): (r: Row)
    ensures |r| == |row|
  {
    if col.Some? && col.value < |row| then row[col.value := cell] else row
  }

  /** The row with its key list, and the counts beside it, cut down to the keys kept. */
  function Narrowed(s: Shape, header: Row, row: Row, lc: nat, kept: seq<string>): Row {
    var a := Set(row, Some(lc), Join(kept, " "));
    var b := Set(a, Column(header, ["keys"]), Decimal(|kept|));
    match s.hosts
    case None => b
    case Some(hosts) => Set(b, Column(header, ["hosts"]), Decimal(HostSum(hosts, kept)))
  }

  /** What the key filter makes of a row; None leaves it out. */
  function ByKey(s: Shape, header: Row, row: Row): Option<Row> {
    var kc, lc := Column(header, KEY_COLUMNS), Column(header, KEY_LIST_COLUMNS);
    if s.keys == [] then Some(row)
    else if kc.Some? then if Chosen(row, kc, s.keys) then Some(row) else None
    else if lc.None? then Some(row)
    else if lc.value >= |row| then None
    else
      var kept := Wanted(Fields(row[lc.value]), s.keys);
      if kept == [] then None
      else if s.narrow then Some(Narrowed(s, header, row, lc.value, kept))
      else Some(row)
  }

  predicate Contains(s: string, text: string) {
    text <= s || (s != "" && Contains(s[1..], text))
  }

  /** No cell contains the text, whatever the case; an empty text is in no row. */
  predicate Free(row: Row, text: string) {
    text != "" ==> forall c :: c in row ==> !Contains(LowerAll(c), text)
  }

  /** All the filters, on one row. */
  function Shaped(s: Shape, header: Row, row: Row): Option<Row> {
    if !Chosen(row, Column(header, PROFILE_COLUMNS), s.profiles) then None
    else match ByKey(s, header, row)
      case None => None
      case Some(r) => if Free(r, LowerAll(Trim(s.exclude))) then Some(r) else None
  }

  // Which rows are kept.

  /** The cell has the text in it somewhere, in whatever case. */
  ghost predicate Holds(cell: string, text: string) {
    exists i: nat :: HoldsAt(cell, text, i)
  }

  predicate HoldsAt(cell: string, text: string, i: nat) {
    i + |text| <= |cell| && forall j :: 0 <= j < |text| ==> Lower(cell[i + j]) == Lower(text[j])
  }

  lemma {:induction false} ContainsExactly(cell: string, text: string)
    ensures Contains(LowerAll(cell), LowerAll(text)) <==> Holds(cell, text)
  {
    StartHolds(cell, text);
    if cell != "" {
      ContainsExactly(cell[1..], text);
      assert LowerAll(cell)[1..] == LowerAll(cell[1..]);
      if i: nat :| HoldsAt(cell[1..], text, i) { assert HoldsAt(cell, text, i + 1); }
      if i: nat :| HoldsAt(cell, text, i) {
        if i > 0 { assert HoldsAt(cell[1..], text, i - 1); }
      }
    }
  }

  lemma StartHolds(cell: string, text: string)
    ensures LowerAll(text) <= LowerAll(cell) <==> HoldsAt(cell, text, 0)
  {
    var low, whole := LowerAll(text), LowerAll(cell);
    if low <= whole {
      forall j | 0 <= j < |text| ensures Lower(cell[0 + j]) == Lower(text[j]) { assert low[j] == whole[j]; }
    }
    if HoldsAt(cell, text, 0) {
      forall j | 0 <= j < |text| ensures low[j] == whole[j] { assert Lower(cell[0 + j]) == Lower(text[j]); }
      assert low == whole[..|low|];
    }
  }

  /** A row is kept exactly when its profile is among those chosen, if any are and there is
      a column for it, a key it has among those chosen, likewise, and no cell of what is
      then kept of it holds the text to leave out. */
  lemma KeptExactly(s: Shape, header: Row, row: Row)
    ensures var p, k, l := Column(header, ["profile", "Groups"]), Column(header, ["key"]), Column(header, ["key_names"]);
            var kept := Shaped(s, header, row);
            var text := Trim(s.exclude);
            kept.Some? <==>
              && (s.profiles == [] || p.None? || (p.value < |row| && row[p.value] in s.profiles))
              && (s.keys == [] || (k.None? && l.None?) || (k.Some? && k.value < |row| && row[k.value] in s.keys)
                  || (k.None? && l.value < |row| && exists w :: w in Fields(row[l.value]) && w in s.keys))
              && (text == "" || (ByKey(s, header, row).Some? ==> forall c :: c in ByKey(s, header, row).value ==> !Holds(c, text)))
    ensures Shaped(s, header, row).Some? ==> Shaped(s, header, row) == ByKey(s, header, row)
  {
    var text := Trim(s.exclude);
    assert LowerAll(text) == "" <==> text == "";
    forall c ensures Contains(LowerAll(c), LowerAll(text)) <==> Holds(c, text) { ContainsExactly(c, text); }
    var l := Column(header, KEY_LIST_COLUMNS);
    if l.Some? && l.value < |row| { WantedSome(Fields(row[l.value]), s.keys); }
  }

  lemma {:induction false} WantedSome(words: seq<string>, want: seq<string>)
    ensures Wanted(words, want) != [] <==> exists w :: w in words && w in want
  {
    if words != [] {
      WantedSome(words[1..], want);
      assert words == [words[0]] + words[1..];
    }
  }

  // What happens to the rows.

  function Select(rows: seq<Row>, f: Row -> Option<Row>): (out: seq<Row>)
    ensures |out| <= |rows|
  {
    if rows == [] then [] else (if f(rows[0]).Some? then [f(rows[0]).value] else []) + Select(rows[1..], f)
  }

  function Only(header: Row, col: Option<nat>, values: seq<string>): Row -> Option<Row> {
    row => if Chosen(row, col, values) then Some(row) else None
  }

  function Keyed(s: Shape, header: Row): Row -> Option<Row> { row => ByKey(s, header, row) }

  function Excluding(text: string): Row -> Option<Row> { row => if Free(row, text) then Some(row) else None }

  function InProfiles(s: Shape, t: Table): Table {
    t.(rows := Select(t.rows, Only(t.header, Column(t.header, PROFILE_COLUMNS), s.profiles)))
  }

  function InKeys(s: Shape, t: Table): Table {
    t.(rows := Select(InProfiles(s, t).rows, Keyed(s, t.header)))
  }

  function Remaining(s: Shape, t: Table): Table {
    t.(rows := Select(InKeys(s, t).rows, Excluding(LowerAll(Trim(s.exclude)))))
  }

  lemma SelectStep(out: seq<Row>, rows: seq<Row>, i: nat, f: Row -> Option<Row>)
    requires i < |rows|
    ensures out + Select(rows[i..], f) ==
            (match f(rows[i]) case None => out case Some(r) => out + [r]) + Select(rows[i + 1..], f)
  {
    assert rows[i..][1..] == rows[i + 1..];
    var rest := Select(rows[i + 1..], f);
    assert [] + rest == rest;
    if f(rows[i]).Some? { assert out + ([f(rows[i]).value] + rest) == out + [f(rows[i]).value] + rest; }
  }

  method FilterOnly(header: Row, rows: seq<Row>, col: Option<nat>, values: seq<string>) returns (out: seq<Row>)
    ensures out == Select(rows, Only(header, col, values))
  {
    if col.None? || values == [] {
      SelectAll(rows, Only(header, col, values));
      return rows;
    }
    out := [];
    assert rows[0..] == rows;
    for i := 0 to |rows|
      invariant out + Select(rows[i..], Only(header, col, values)) == Select(rows, Only(header, col, values))
    {
      SelectStep(out, rows, i, Only(header, col, values));
      if col.value < |rows[i]| && rows[i][col.value] in values { out := out + [rows[i]]; }
    }
    assert out + [] == out;
  }

  lemma {:induction false} SelectAll(rows: seq<Row>, f: Row -> Option<Row>)
    requires forall r :: r in rows ==> f(r) == Some(r)
    ensures Select(rows, f) == rows
  {
    if rows != [] { SelectAll(rows[1..], f); }
  }

  lemma {:induction false} WantedMore(words: seq<string>, want: seq<string>, i: nat)
    requires i < |words|
    ensures Wanted(words[..i + 1], want) == Wanted(words[..i], want) + if words[i] in want then [words[i]] else []
    decreases |words|
  {
    if i > 0 {
      WantedMore(words[1..], want, i - 1);
      assert words[..i + 1][1..] == words[1..][..i] && words[..i][1..] == words[1..][..i - 1];
      var first := if words[0] in want then [words[0]] else [];
      var last := if words[i] in want then [words[i]] else [];
      assert first + (Wanted(words[1..][..i - 1], want) + last) == first + Wanted(words[1..][..i - 1], want) + last;
    } else {
      assert words[..1][1..] == [] && words[..0] == [];
    }
  }

  /** A row's keys that were chosen. */
  method ChosenKeys(words: seq<string>, want: seq<string>) returns (kept: seq<string>)
    ensures kept == Wanted(words, want)
  {
    kept := [];
    for i := 0 to |words|
      invariant kept == Wanted(words[..i], want)
    {
      WantedMore(words, want, i);
      if words[i] in want { kept := kept + [words[i]]; }
    }
    assert words[..|words|] == words;
  }

  lemma {:induction false} HostSumMore(hosts: map<string, nat>, kept: seq<string>, i: nat)
    requires i < |kept|
    ensures HostSum(hosts, kept[..i + 1]) == HostSum(hosts, kept[..i]) + HostsOf(hosts, kept[i])
    decreases |kept|
  {
    if i > 0 {
      HostSumMore(hosts, kept[1..], i - 1);
      assert kept[..i + 1][1..] == kept[1..][..i] && kept[..i][1..] == kept[1..][..i - 1];
    } else {
      assert kept[..1][1..] == [];
    }
  }

  method SumHosts(hosts: map<string, nat>, kept: seq<string>) returns (n: nat)
    ensures n == HostSum(hosts, kept)
  {
    n := 0;
    for i := 0 to |kept|
      invariant n == HostSum(hosts, kept[..i])
    {
      HostSumMore(hosts, kept, i);
      n := n + HostsOf(hosts, kept[i]);
    }
    assert kept[..|kept|] == kept;
  }

  /** One row with a key list: the cells overwritten one after another. */
  method NarrowRow(s: Shape, header: Row, row: Row, lc: nat, kept: seq<string>) returns (r: Row)
    requires lc < |row|
    ensures r == Narrowed(s, header, row, lc, kept)
  {
    r := row;
    r := r[lc := Join(kept, " ")];
    var keysCol, hostsCol := Column(header, ["keys"]), Column(header, ["hosts"]);
    if keysCol.Some? && keysCol.value < |r| { r := r[keysCol.value := Decimal(|kept|)]; }
    if hostsCol.Some? && hostsCol.value < |r| && s.hosts.Some? {
      var n := SumHosts(s.hosts.value, kept);
      r := r[hostsCol.value := Decimal(n)];
    }
  }

  method ByKeys(s: Shape, header: Row, rows: seq<Row>) returns (out: seq<Row>)
    ensures out == Select(rows, Keyed(s, header))
  {
    var f := Keyed(s, header);
    if s.keys == [] {
      SelectAll(rows, f);
      return rows;
    }
    var kc, lc := Column(header, KEY_COLUMNS), Column(header, KEY_LIST_COLUMNS);
    if kc.Some? {
      out := FilterOnly(header, rows, kc, s.keys);
      SelectSame(rows, Only(header, kc, s.keys), f);
      return;
    }
    if lc.None? {
      SelectAll(rows, f);
      return rows;
    }
    out := [];
    assert rows[0..] == rows;
    for i := 0 to |rows|
      invariant out + Select(rows[i..], f) == Select(rows, f)
    {
      SelectStep(out, rows, i, f);
      var r := rows[i];
      if lc.value < |r| {
        var kept := ChosenKeys(Fields(r[lc.value]), s.keys);
        if kept != [] {
          if s.narrow { r := NarrowRow(s, header, r, lc.value, kept); }
          out := out + [r];
        }
      }
    }
    assert out + [] == out;
  }

  lemma {:induction false} SelectSame(rows: seq<Row>, f: Row -> Option<Row>, g: Row -> Option<Row>)
    requires forall r :: r in rows ==> f(r) == g(r)
    ensures Select(rows, f) == Select(rows, g)
  {
    if rows != [] { SelectSame(rows[1..], f, g); }
  }

  method FilterWithout(rows: seq<Row>, exclude: string) returns (out: seq<Row>)
    ensures out == Select(rows, Excluding(LowerAll(Trim(exclude))))
  {
    var text := LowerAll(Trim(exclude));
    if text == "" {
      SelectAll(rows, Excluding(text));
      return rows;
    }
    out := [];
    assert rows[0..] == rows;
    for i := 0 to |rows|
      invariant out + Select(rows[i..], Excluding(text)) == Select(rows, Excluding(text))
    {
      SelectStep(out, rows, i, Excluding(text));
      var hit := false;
      for j := 0 to |rows[i]|
        invariant hit <==> exists k :: 0 <= k < j && Contains(LowerAll(rows[i][k]), text)
      {
        if Contains(LowerAll(rows[i][j]), text) { hit := true; }
      }
      assert hit <==> !Free(rows[i], text);
      if !hit { out := out + [rows[i]]; }
    }
    assert out + [] == out;
  }

  /** The table after each filter in turn. */
  method Stages(s: Shape, t: Table) returns (inProfiles: Table, inKeys: Table, kept: Table)
    ensures inProfiles == InProfiles(s, t) && inKeys == InKeys(s, t) && kept == Remaining(s, t)
  {
    var rows := FilterOnly(t.header, t.rows, Column(t.header, PROFILE_COLUMNS), s.profiles);
    inProfiles := t.(rows := rows);
    rows := ByKeys(s, t.header, rows);
    inKeys := t.(rows := rows);
    rows := FilterWithout(rows, s.exclude);
    kept := t.(rows := rows);
  }

  // Columns left out.

  /** The places of the columns that stay. */
  function Stay(header: Row, drop: seq<string>, i: nat): (keep: seq<nat>)
    requires i <= |header|
    ensures forall j :: 0 <= j < |keep| ==> i <= keep[j] < |header| && header[keep[j]] !in drop
    ensures forall k :: i <= k < |header| && header[k] !in drop ==> k in keep
    ensures forall a, b :: 0 <= a < b < |keep| ==> keep[a] < keep[b]
    decreases |header| - i
  {
    if i == |header| then [] else (if header[i] !in drop then [i] else []) + Stay(header, drop, i + 1)
  }

  /** A row's cells in those columns; a row too short for one has an empty cell there. */
  function CellsAt(row: Row, keep: seq<nat>): (cells: Row)
    ensures |cells| == |keep|
  {
    seq(|keep|, i requires 0 <= i < |keep| => if keep[i] < |row| then row[keep[i]] else "")
  }

  function Trimmed(names: seq<string>): seq<string> {
    seq(|names|, i requires 0 <= i < |names| => Trim(names[i]))
  }

  function Dropped(t: Table, names: seq<string>): (out: Table)
    ensures |out.rows| == |t.rows|
  {
    if names == [] then t
    else
      var keep := Stay(t.header, Trimmed(names), 0);
      Table(CellsAt(t.header, keep), seq(|t.rows|, i requires 0 <= i < |t.rows| => CellsAt(t.rows[i], keep)))
  }

  /** Dropping columns drops no row, squares every row with the header, and keeps every
      other column's cells in order under their names. */
  lemma DroppedCells(t: Table, names: seq<string>)
    requires names != []
    ensures var out, keep := Dropped(t, names), Stay(t.header, Trimmed(names), 0);
            && (forall i :: 0 <= i < |out.rows| ==> |out.rows[i]| == |out.header| == |keep|)
            && (forall j :: 0 <= j < |keep| ==> out.header[j] == t.header[keep[j]] && out.header[j] !in Trimmed(names))
            && (forall i, j :: 0 <= i < |out.rows| && 0 <= j < |keep| ==>
                  out.rows[i][j] == if keep[j] < |t.rows[i]| then t.rows[i][keep[j]] else "")
  {
  }

  // The filters one after another are one pass.

  function AllFilters(s: Shape, header: Row): Row -> Option<Row> { row => Shaped(s, header, row) }

  lemma {:induction false} SelectTwice(rows: seq<Row>, f: Row -> Option<Row>, g: Row -> Option<Row>, both: Row -> Option<Row>)
    requires forall r :: both(r) == match f(r) { case None => None case Some(q) => g(q) }
    ensures Select(Select(rows, f), g) == Select(rows, both)
  {
    if rows != [] {
      SelectTwice(rows[1..], f, g, both);
      if f(rows[0]).Some? {
        var first := [f(rows[0]).value];
        assert (first + Select(rows[1..], f))[1..] == Select(rows[1..], f);
      } else {
        assert [] + Select(rows[1..], f) == Select(rows[1..], f);
      }
      assert both(rows[0]) == match f(rows[0]) { case None => None case Some(q) => g(q) };
    }
  }

  function Then(f: Row -> Option<Row>, g: Row -> Option<Row>): Row -> Option<Row> {
    r => match f(r) case None => None case Some(q) => g(q)
  }

  /** The rows kept are each row of the table put through all the filters, in order; and
      each filter leaves no more than the one before it. */
  lemma OnePass(s: Shape, t: Table)
    ensures Remaining(s, t).rows == Select(t.rows, AllFilters(s, t.header))
    ensures |t.rows| >= |InProfiles(s, t).rows| >= |InKeys(s, t).rows| >= |Remaining(s, t).rows|
  {
    var f := Only(t.header, Column(t.header, PROFILE_COLUMNS), s.profiles);
    var g := Keyed(s, t.header);
    var h := Excluding(LowerAll(Trim(s.exclude)));
    SelectTwice(t.rows, f, g, Then(f, g));
    SelectTwice(t.rows, Then(f, g), h, AllFilters(s, t.header));
  }

  /** The places from k on of the rows that pass. */
  function Where(rows: seq<Row>, f: Row -> Option<Row>, k: nat): seq<nat>
    requires k <= |rows|
    decreases |rows| - k
  {
    if k == |rows| then [] else (if f(rows[k]).Some? then [k] else []) + Where(rows, f, k + 1)
  }

  lemma {:induction false} WhereFrom(rows: seq<Row>, f: Row -> Option<Row>, k: nat)
    requires k <= |rows|
    ensures var at, out := Where(rows, f, k), Select(rows[k..], f);
            && |at| == |out|
            && (forall i :: 0 <= i < |at| ==> k <= at[i] < |rows| && f(rows[at[i]]) == Some(out[i]))
            && (forall i, j :: 0 <= i < j < |at| ==> at[i] < at[j])
    decreases |rows| - k
  {
    if k < |rows| {
      WhereFrom(rows, f, k + 1);
      assert rows[k..][1..] == rows[k + 1..];
    }
  }

  lemma {:induction false} WhereAll(rows: seq<Row>, f: Row -> Option<Row>, k: nat)
    requires k <= |rows|
    ensures forall j :: k <= j < |rows| && f(rows[j]).Some? ==> j in Where(rows, f, k)
    decreases |rows| - k
  {
    if k < |rows| { WhereAll(rows, f, k + 1); }
  }

  /** Where the rows kept came from: an increasing list of the places of exactly the rows
      that pass, each row kept being what its own row was made into. */
  lemma Subsequence(rows: seq<Row>, f: Row -> Option<Row>)
    ensures var at, out := Where(rows, f, 0), Select(rows, f);
            && |at| == |out|
            && (forall i :: 0 <= i < |at| ==> at[i] < |rows| && f(rows[at[i]]) == Some(out[i]))
            && (forall i, j :: 0 <= i < j < |at| ==> at[i] < at[j])
            && (forall j :: 0 <= j < |rows| && f(rows[j]).Some? ==> j in at)
  {
    WhereFrom(rows, f, 0);
    WhereAll(rows, f, 0);
    assert rows[0..] == rows;
  }

  // Narrowing.

  lemma {:induction false} ColumnName(header: Row, name: string)
    ensures Column(header, [name]).Some? ==> header[Column(header, [name]).value] == name
  {
  }

  lemma {:induction false} WantedWords(words: seq<string>, want: seq<string>)
    requires Words(words)
    ensures Words(Wanted(words, want))
  {
    if words != [] { WantedWords(words[1..], want); }
  }

  /** A narrowed row lists its chosen keys in order, its keys cell is their number, its
      hosts cell the sum of their hosts, and every other cell is as it was. */
  lemma NarrowedRow(s: Shape, header: Row, row: Row, lc: nat)
    requires Column(header, KEY_LIST_COLUMNS) == Some(lc) && lc < |row|
    ensures var kept := Wanted(Fields(row[lc]), s.keys);
            var out := Narrowed(s, header, row, lc, kept);
            var kc, hc := Column(header, ["keys"]), Column(header, ["hosts"]);
            && |out| == |row| && Fields(out[lc]) == kept
            && (kc.Some? && kc.value < |row| ==> out[kc.value] == Decimal(|kept|))
            && (hc.Some? && hc.value < |row| && s.hosts.Some? ==> out[hc.value] == Decimal(HostSum(s.hosts.value, kept)))
            && forall i :: 0 <= i < |row| && i != lc && Some(i) != kc && (Some(i) != hc || s.hosts.None?) ==> out[i] == row[i]
  {
    var words := Fields(row[lc]);
    FieldsAreWords(row[lc]);
    WantedWords(words, s.keys);
    FieldsOfJoin(Wanted(words, s.keys));
    ColumnName(header, "keys");
    ColumnName(header, "hosts");
    ColumnName(header, "key_names");
    assert KEY_LIST_COLUMNS == ["key_names"];
    assert "keys"[0] != "hosts"[0] && "key_names"[3] != "keys"[3] && "key_names"[0] != "hosts"[0];
  }

  // Counting.

  /** Items in first-seen order, each once. */
  function Distinct<T(==,!new)>(items: seq<T>): (d: seq<T>)
    ensures forall x :: x in d <==> x in items
  {
    if items == [] then []
    else
      var before, last := Distinct(items[..|items| - 1]), items[|items| - 1];
      assert items == items[..|items| - 1] + [last];
      if last in before then before else before + [last]
  }

  function Count<T(==)>(items: seq<T>, x: T): nat {
    if items == [] then 0 else Count(items[..|items| - 1], x) + if items[|items| - 1] == x then 1 else 0
  }

  function Total<T>(tally: seq<(T, nat)>): nat {
    if tally == [] then 0 else Total(tally[..|tally| - 1]) + tally[|tally| - 1].1
  }

  lemma {:induction false} TotalUpdate<T>(tally: seq<(T, nat)>, i: nat)
    requires i < |tally|
    ensures Total(tally[i := (tally[i].0, tally[i].1 + 1)]) == Total(tally) + 1
  {
    var n := |tally| - 1;
    var more := tally[i := (tally[i].0, tally[i].1 + 1)];
    if i == n {
      assert more[..n] == tally[..n];
    } else {
      TotalUpdate(tally[..n], i);
      assert more[..n] == tally[..n][i := (tally[i].0, tally[i].1 + 1)];
    }
  }

  /** Each item with how often it comes, in first-seen order. */
  ghost predicate Tallied<T(!new)>(tally: seq<(T, nat)>, items: seq<T>) {
    && |tally| == |Distinct(items)| && Total(tally) == |items|
    && forall i :: 0 <= i < |tally| ==> tally[i] == (Distinct(items)[i], Count(items, Distinct(items)[i]))
  }

  lemma {:induction false} DistinctApart<T(!new)>(items: seq<T>)
    ensures forall i, j :: 0 <= i < j < |Distinct(items)| ==> Distinct(items)[i] != Distinct(items)[j]
  {
    if items != [] { DistinctApart(items[..|items| - 1]); }
  }

  lemma More<T(!new)>(items: seq<T>, x: T)
    ensures Distinct(items + [x]) == if x in items then Distinct(items) else Distinct(items) + [x]
    ensures forall y :: Count(items + [x], y) == Count(items, y) + if y == x then 1 else 0
  {
    assert (items + [x])[..|items|] == items;
  }

  lemma NewItem<T(!new)>(tally: seq<(T, nat)>, items: seq<T>, x: T)
    requires Tallied(tally, items) && x !in items
    ensures Tallied(tally + [(x, 1)], items + [x])
  {
    More(items, x);
    CountAbsent(items, x);
    var more := tally + [(x, 1)];
    assert more[..|tally|] == tally;
    forall i | 0 <= i < |more| ensures more[i] == (Distinct(items + [x])[i], Count(items + [x], Distinct(items + [x])[i])) {
      if i < |tally| { assert Distinct(items)[i] in Distinct(items); }
    }
  }

  lemma SeenItem<T(!new)>(tally: seq<(T, nat)>, items: seq<T>, x: T, i: nat)
    requires Tallied(tally, items) && i < |tally| && Distinct(items)[i] == x
    ensures x in items && Tallied(tally[i := (tally[i].0, tally[i].1 + 1)], items + [x])
  {
    assert Distinct(items)[i] in Distinct(items);
    More(items, x);
    DistinctApart(items);
    TotalUpdate(tally, i);
  }

  /** Each item's place among the distinct ones. */
  ghost predicate Placed<T(!new)>(at: map<T, nat>, items: seq<T>) {
    && (forall x :: x in at <==> x in items)
    && forall x :: x in at ==> at[x] < |Distinct(items)| && Distinct(items)[at[x]] == x
  }

  lemma PlacedMore<T(!new)>(at: map<T, nat>, items: seq<T>, x: T)
    requires Placed(at, items)
    ensures Placed(if x in at then at else at[x := |Distinct(items)|], items + [x])
  {
    More(items, x);
  }

  /** What profilesOf and keysOf do, with a map from an item to its place. */
  method Tally<T(==,!new)>(items: seq<T>) returns (tally: seq<(T, nat)>)
    ensures Tallied(tally, items)
  {
    tally := [];
    var at: map<T, nat> := map[];
    for n := 0 to |items|
      invariant Tallied(tally, items[..n]) && Placed(at, items[..n])
    {
      var x := items[n];
      assert items[..n + 1] == items[..n] + [x];
      PlacedMore(at, items[..n], x);
      if x !in at {
        NewItem(tally, items[..n], x);
        at := at[x := |tally|];
        tally := tally + [(x, 1)];
      } else {
        SeenItem(tally, items[..n], x, at[x]);
        tally := tally[at[x] := (tally[at[x]].0, tally[at[x]].1 + 1)];
      }
    }
    assert items[..|items|] == items;
  }

  lemma {:induction false} CountAbsent<T>(items: seq<T>, x: T)
    requires x !in items
    ensures Count(items, x) == 0
  {
    if items != [] { CountAbsent(items[..|items| - 1], x); }
  }

  /** The profile cells of the rows wide enough to have one. */
  function Cells(rows: seq<Row>, col: nat): seq<string> {
    if rows == [] then [] else (if col < |rows[0]| then [rows[0][col]] else []) + Cells(rows[1..], col)
  }

  function Wide(rows: seq<Row>, col: nat): nat {
    if rows == [] then 0 else (if col < |rows[0]| then 1 else 0) + Wide(rows[1..], col)
  }

  lemma {:induction false} WideCells(rows: seq<Row>, col: nat)
    ensures |Cells(rows, col)| == Wide(rows, col)
  {
    if rows != [] { WideCells(rows[1..], col); }
  }

  /** The profiles the rows belong to, and how many rows each has; None for a list with
      no profile column. The counts add up to the rows wide enough to have one. */
  method ProfilesOf(t: Table) returns (out: Option<seq<(string, nat)>>)
    ensures out.None? <==> Column(t.header, PROFILE_COLUMNS).None?
    ensures out.Some? ==>
              var cells := Cells(t.rows, Column(t.header, PROFILE_COLUMNS).value);
              Tallied(out.value, cells)
              && Total(out.value) == Wide(t.rows, Column(t.header, PROFILE_COLUMNS).value)
  {
    var col := Column(t.header, PROFILE_COLUMNS);
    if col.None? { return None; }
    WideCells(t.rows, col.value);
    var tally := Tally(Cells(t.rows, col.value));
    out := Some(tally);
  }

  /** The keys a row names: its key cell, or every key in its list. */
  function NamesOf(row: Row, kc: Option<nat>, lc: Option<nat>): seq<string> {
    if kc.Some? then (if kc.value < |row| && row[kc.value] != "" then [row[kc.value]] else [])
    else if lc.Some? && lc.value < |row| then Fields(row[lc.value]) else []
  }

  function ProfileOf(row: Row, pc: Option<nat>): string {
    if pc.Some? && pc.value < |row| then row[pc.value] else ""
  }

  /** Every mention of a key, with the profile of its row. */
  function Mentions(header: Row, rows: seq<Row>): seq<(string, string)> {
    if rows == [] then []
    else
      var names := NamesOf(rows[0], Column(header, KEY_COLUMNS), Column(header, KEY_LIST_COLUMNS));
      var p := ProfileOf(rows[0], Column(header, PROFILE_COLUMNS));
      seq(|names|, i requires 0 <= i < |names| => (p, names[i])) + Mentions(header, rows[1..])
  }

  function MentionCount(header: Row, rows: seq<Row>): nat {
    if rows == [] then 0
    else |NamesOf(rows[0], Column(header, KEY_COLUMNS), Column(header, KEY_LIST_COLUMNS))| + MentionCount(header, rows[1..])
  }

  lemma {:induction false} AllMentions(header: Row, rows: seq<Row>)
    ensures |Mentions(header, rows)| == MentionCount(header, rows)
  {
    if rows != [] { AllMentions(header, rows[1..]); }
  }

  /** A row names a key: in its key cell or, in a list without that column, as one of the
      words of its list. Its profile is its profile cell, or none. */
  predicate Mentioned(header: Row, row: Row, p: string, k: string) {
    var kc, lc, pc := Column(header, ["key"]), Column(header, ["key_names"]), Column(header, ["profile", "Groups"]);
    && (if pc.Some? && pc.value < |row| then row[pc.value] == p else p == "")
    && (if kc.Some? then k != "" && kc.value < |row| && row[kc.value] == k
        else lc.Some? && lc.value < |row| && k in Fields(row[lc.value]))
  }

  lemma {:induction false} MentionsAre(header: Row, rows: seq<Row>, p: string, k: string)
    ensures (p, k) in Mentions(header, rows) <==> exists i :: 0 <= i < |rows| && Mentioned(header, rows[i], p, k)
  {
    if rows != [] {
      var row, rest := rows[0], rows[1..];
      MentionsAre(header, rest, p, k);
      var names := NamesOf(row, Column(header, KEY_COLUMNS), Column(header, KEY_LIST_COLUMNS));
      var q := ProfileOf(row, Column(header, PROFILE_COLUMNS));
      var first := seq(|names|, i requires 0 <= i < |names| => (q, names[i]));
      assert (p, k) in first <==> q == p && k in names by {
        if q == p && k in names { var i :| 0 <= i < |names| && names[i] == k; assert first[i] == (p, k); }
      }
      assert Mentioned(header, row, p, k) <==> q == p && k in names;
      assert forall i :: 0 <= i < |rest| ==> rest[i] == rows[i + 1];
      assert forall i :: 0 < i < |rows| ==> rows[i] == rest[i - 1];
    }
  }

  /** The keys the rows name, by profile, and how many mentions each has; None for a list
      with neither column. The counts add up to all mentions. */
  method KeysOf(t: Table) returns (out: Option<seq<((string, string), nat)>>)
    ensures out.None? <==> Column(t.header, KEY_COLUMNS).None? && Column(t.header, KEY_LIST_COLUMNS).None?
    ensures out.Some? ==>
              var all := Mentions(t.header, t.rows);
              Tallied(out.value, all)
              && Total(out.value) == MentionCount(t.header, t.rows)
              && forall p, k :: (p, k) in all <==> exists i :: 0 <= i < |t.rows| && Mentioned(t.header, t.rows[i], p, k)
  {
    if Column(t.header, KEY_COLUMNS).None? && Column(t.header, KEY_LIST_COLUMNS).None? { return None; }
    AllMentions(t.header, t.rows);
    forall p, k ensures (p, k) in Mentions(t.header, t.rows) <==> exists i :: 0 <= i < |t.rows| && Mentioned(t.header, t.rows[i], p, k) {
      MentionsAre(t.header, t.rows, p, k);
    }
    var tally := Tally(Mentions(t.header, t.rows));
    out := Some(tally);
  }
}
