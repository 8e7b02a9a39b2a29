/** When each key is due for rotation, most urgent first. How a day is read and written
    is a parameter here, so that the laws do not depend on the calendar. */
module Expiry {
  import opened Text
  import Calendar

  datatype Days = Days(read: string -> Option<int>, write: int -> string)

  /** The program's own days: Gregorian dates. */
  function Gregorian(): Days { Days(s => Calendar.ReadDay(s), n => Calendar.WriteDay(n)) }

  /** A day is read back as written exactly when it is one that has a text. */
  ghost predicate ReadsBack(cal: Days, writable: int -> bool) {
    forall n :: cal.read(cal.write(n)) == if writable(n) then Some(n) else None
  }

  function FourDigitYear(): int -> bool { n => 0 <= Calendar.YearOf(n) <= 9999 }

  lemma GregorianReadsBack()
    ensures ReadsBack(Gregorian(), FourDigitYear())
  {
    forall n ensures Gregorian().read(Gregorian().write(n)) == if FourDigitYear()(n) then Some(n) else None {
      Calendar.DayReadsBack(n);
    }
  }

  /** One key in the inventory. */
  datatype KeyRecord = KeyRecord(profile: string, path: string, created: Option<string>, rotateAfterDays: int, expiresOn: Option<string>)

  datatype Due = Ok | DueSoon | Overdue | Unknown

  datatype Status = Status(fingerprint: string, profile: string, path: string, expiresOn: Option<string>, days: Option<int>, due: Due)

  /** A rotated-out predecessor, in a profile's old/ under the key root. */
  predicate Archived(path: string, root: string) {
    var parts := Split(path, '/');
    var n := |parts|;
    n >= 4 && parts[n - 2] == "old" && (parts[n - 4] == root || (n >= 5 && parts[n - 5] == root))
  }

  predicate NoSlash(parts: seq<string>) { forall i :: 0 <= i < |parts| ==> '/' !in parts[i] }

  function PathOf(parts: seq<string>): string { Join(parts, "/") }

  /** A predecessor's path is one, with a category before its profile or without. */
  lemma PredecessorsArchived(dir: seq<string>, root: string, category: string, profile: string, name: string)
    requires NoSlash(dir + [root, category, profile, name])
    ensures Archived(PathOf(dir + [root, profile, "old", name]), root)
    ensures Archived(PathOf(dir + [root, category, profile, "old", name]), root)
  {
    var whole := dir + [root, category, profile, name];
    var n := |dir|;
    assert whole[n] == root && whole[n + 1] == category && whole[n + 2] == profile && whole[n + 3] == name;
    assert forall i :: 0 <= i < n ==> dir[i] == whole[i];
    SplitJoin(dir + [root, profile, "old", name], '/');
    SplitJoin(dir + [root, category, profile, "old", name], '/');
  }

  /** A live key's path is taken for one exactly when its profile is called old and it is in
      a category, or the root's name comes again above the root. */
  lemma LiveInCategory(dir: seq<string>, root: string, category: string, profile: string, name: string)
    requires NoSlash(dir + [root, category, profile, name])
    ensures Archived(PathOf(dir + [root, category, profile, name]), root) <==> profile == "old"
  {
    SplitJoin(dir + [root, category, profile, name], '/');
  }

  lemma LiveWithout(dir: seq<string>, root: string, profile: string, name: string)
    requires NoSlash(dir + [root, profile, name])
    ensures Archived(PathOf(dir + [root, profile, name]), root) <==>
            profile == "old" && ((|dir| >= 1 && dir[|dir| - 1] == root) || (|dir| >= 2 && dir[|dir| - 2] == root))
  {
    SplitJoin(dir + [root, profile, name], '/');
  }

  /** The parts of a key's path: its root, its category if it has one, and its profile. */
  function Home(dir: seq<string>, root: string, category: string, profile: string): seq<string> {
    dir + [root] + (if category == "" then [] else [category]) + [profile]
  }

  /** The manifest lets no profile called old be in a category. Then live keys and
      predecessors are told apart, under a root whose name does not come above it. */
  lemma ArchivedTells(dir: seq<string>, root: string, category: string, profile: string, name: string)
    requires NoSlash(dir + [root, category, profile, name]) && NoSlash(dir + [root, profile, name]) && root !in dir
    requires category == "" || profile != "old"
    ensures !Archived(PathOf(Home(dir, root, category, profile) + [name]), root)
    ensures Archived(PathOf(Home(dir, root, category, profile) + ["old", name]), root)
  {
    LiveInCategory(dir, root, category, profile, name);
    LiveWithout(dir, root, profile, name);
    PredecessorsArchived(dir, root, category, profile, name);
    var home := Home(dir, root, category, profile);
    if category == "" {
      assert home + [name] == dir + [root, profile, name] && home + ["old", name] == dir + [root, profile, "old", name];
    } else {
      assert home + [name] == dir + [root, category, profile, name];
      assert home + ["old", name] == dir + [root, category, profile, "old", name];
    }
  }

  /** The day a key made on a day is due, as text; None when that day is no date. */
  function ComputeExpiry(cal: Days, created: string, rotateAfterDays: int): Option<string> {
    match cal.read(created)
    case None => None
    case Some(base) => Some(cal.write(base + rotateAfterDays))
  }

  /** The largest whole number of days a time.Duration holds. */
  const MAX_DAYS := 106751

  /** The days from one midnight to another, as a time.Duration gives them. */
  function DaysBetween(from: int, to: int): int {
    if to - from > MAX_DAYS then MAX_DAYS else if to - from < -MAX_DAYS then -MAX_DAYS else to - from
  }

  function WarnWindow(warnBefore: seq<int>): int {
    if warnBefore == [] then 30
    else if |warnBefore| == 1 then warnBefore[0]
    else
      var rest := WarnWindow(warnBefore[..|warnBefore| - 1]);
      if warnBefore[|warnBefore| - 1] > rest then warnBefore[|warnBefore| - 1] else rest
  }

  method LargestWarning(warnBefore: seq<int>) returns (w: int)
    ensures w == WarnWindow(warnBefore)
    ensures warnBefore != [] ==> w in warnBefore && forall d :: d in warnBefore ==> d <= w
  {
    if warnBefore == [] { return 30; }
    w := warnBefore[0];
    var i := 1;
    while i < |warnBefore|
      invariant 1 <= i <= |warnBefore|
      invariant w == WarnWindow(warnBefore[..i]) && w in warnBefore
      invariant forall j :: 0 <= j < i ==> warnBefore[j] <= w
    {
      assert warnBefore[..i + 1][..i] == warnBefore[..i];
      if warnBefore[i] > w { w := warnBefore[i]; }
      i := i + 1;
    }
    assert warnBefore[..i] == warnBefore;
  }

  /** The stored day, or the one worked out from when the key was made. */
  function ExpiryText(cal: Days, r: KeyRecord): Option<string> {
    if r.expiresOn.Some? then r.expiresOn
    else if r.created.Some? && r.created.value != "" then ComputeExpiry(cal, r.created.value, r.rotateAfterDays)
    else None
  }

  function StatusOf(cal: Days, fp: string, r: KeyRecord, warn: int, today: int): Status {
    match ExpiryText(cal, r)
    case None => Status(fp, r.profile, r.path, None, None, Unknown)
    case Some(text) =>
      match cal.read(text)
      case None => Status(fp, r.profile, r.path, None, None, Unknown)
      case Some(due) =>
        var days := DaysBetween(today, due);
        Status(fp, r.profile, r.path, Some(text), Some(days), if days < 0 then Overdue else if days <= warn then DueSoon else Due.Ok)
  }

  // What a status says.

  /** A day known is the days from today to it, as a duration holds them; a text that is
      no day makes the key unknown. */
  lemma KnownDays(cal: Days, fp: string, r: KeyRecord, warn: int, today: int, text: string)
    requires ExpiryText(cal, r) == Some(text)
    ensures var s := StatusOf(cal, fp, r, warn, today);
            match cal.read(text)
            case None => s.due.Unknown? && s.days.None? && s.expiresOn.None?
            case Some(due) =>
              && s.days == Some(DaysBetween(today, due)) && s.expiresOn == Some(text)
              && s.due == if due < today then Overdue else if DaysBetween(today, due) <= warn then DueSoon else Due.Ok
  {
  }

  /** The state is that of the real number of days, although a duration holds only so many:
      for every day and today, exactly unless the warning starts further ahead than a
      duration reaches. */
  lemma StateIsTrue(cal: Days, fp: string, r: KeyRecord, warn: int, today: int, text: string, due: int)
    requires ExpiryText(cal, r) == Some(text) && cal.read(text) == Some(due)
    ensures StatusOf(cal, fp, r, warn, today).due == (if due < today then Overdue else if due - today <= warn then DueSoon else Due.Ok)
       <==> !(due - today > warn >= MAX_DAYS)
  {
    KnownDays(cal, fp, r, warn, today, text);
  }

  /** A status is about its key. A stored day is the day, whenever the key was made; with
      neither a stored day nor one to work it out from, the key is unknown. */
  lemma StoredDay(cal: Days, fp: string, r: KeyRecord, warn: int, today: int)
    ensures var s := StatusOf(cal, fp, r, warn, today);
            && s.fingerprint == fp && s.profile == r.profile && s.path == r.path
            && (r.expiresOn.Some? ==>
                  match cal.read(r.expiresOn.value)
                  case None => s.due.Unknown?
                  case Some(due) => s.days == Some(DaysBetween(today, due)) && s.expiresOn == r.expiresOn)
            && (r.expiresOn.None? && (r.created.None? || r.created.value == "" || cal.read(r.created.value).None?) ==> s.due.Unknown?)
            && (s.due.Unknown? <==> s.days.None?)
  {
  }

  /** With no stored day, the day is worked out from when the key was made, printed and
      read again: the key has its days exactly when that day has a text. */
  lemma ComputedDays(cal: Days, writable: int -> bool, fp: string, r: KeyRecord, warn: int, today: int, made: int)
    requires ReadsBack(cal, writable)
    requires r.expiresOn.None? && r.created.Some? && r.created.value != "" && cal.read(r.created.value) == Some(made)
    ensures var s, due := StatusOf(cal, fp, r, warn, today), made + r.rotateAfterDays;
            if writable(due) then !s.due.Unknown? && s.days == Some(DaysBetween(today, due))
            else s.due.Unknown? && s.days.None?
  {
    KnownDays(cal, fp, r, warn, today, cal.write(made + r.rotateAfterDays));
  }

  /** And those days are the interval less the key's age exactly when they fit. */
  lemma DaysExact(today: int, made: int, interval: int)
    ensures DaysBetween(today, made + interval) == interval - (today - made)
       <==> -MAX_DAYS <= interval - (today - made) <= MAX_DAYS
  {
  }

  // The order.

  /** Text order, byte by byte. */
  predicate LessText(a: string, b: string) {
    b != "" && (a == "" || a[0] < b[0] || (a[0] == b[0] && LessText(a[1..], b[1..])))
  }

  function DaysOrInf(d: Option<int>): int { if d.None? then 0x4000_0000 else d.value }

  /** More urgent: fewer days, then the fingerprint. */
  predicate Less(a: Status, b: Status) {
    if DaysOrInf(a.days) != DaysOrInf(b.days) then DaysOrInf(a.days) < DaysOrInf(b.days)
    else LessText(a.fingerprint, b.fingerprint)
  }

  lemma {:induction false} TextTotal(a: string, b: string)
    ensures !(LessText(a, b) && LessText(b, a))
    ensures a != b <==> LessText(a, b) || LessText(b, a)
    decreases |a|
  {
    if a != "" && b != "" {
      TextTotal(a[1..], b[1..]);
      if a[0] == b[0] && a[1..] == b[1..] { assert a == [a[0]] + a[1..] && b == [b[0]] + b[1..]; }
    }
  }

  /** a is a start of b, or at the first place they differ has the smaller character. */
  lemma {:induction false} TextOrder(a: string, b: string)
    ensures LessText(a, b) <==>
            exists k :: 0 <= k <= |a| && k < |b| && a[..k] == b[..k] && (k == |a| || a[k] < b[k])
    decreases |a|
  {
    if a == "" {
      assert b != "" ==> a[..0] == b[..0];
    } else if b != "" && a[0] == b[0] {
      TextOrder(a[1..], b[1..]);
      if LessText(a, b) {
        var k :| 0 <= k <= |a| - 1 && k < |b| - 1 && a[1..][..k] == b[1..][..k] && (k == |a| - 1 || a[1..][k] < b[1..][k]);
        assert a[..k + 1] == [a[0]] + a[1..][..k] && b[..k + 1] == [b[0]] + b[1..][..k];
        assert k + 1 == |a| || a[k + 1] < b[k + 1];
      }
      if k :| 0 <= k <= |a| && k < |b| && a[..k] == b[..k] && (k == |a| || a[k] < b[k]) {
        assert k > 0;
        assert a[1..][..k - 1] == a[..k][1..] && b[1..][..k - 1] == b[..k][1..];
        assert k == |a| || a[1..][k - 1] < b[1..][k - 1];
      }
    } else if b != "" && a[0] < b[0] {
      assert a[..0] == b[..0];
    } else if b != "" {
      assert forall k :: 0 < k <= |a| && k < |b| && a[..k] == b[..k] ==> a[..k][0] == b[..k][0];
    }
  }

  lemma {:induction false} TextTransitive(a: string, b: string, c: string)
    requires LessText(a, b) && LessText(b, c)
    ensures LessText(a, c)
    decreases |a|
  {
    if a != "" && a[0] == b[0] && b[0] == c[0] { TextTransitive(a[1..], b[1..], c[1..]); }
  }

  lemma LessTransitive(a: Status, b: Status, c: Status)
    requires Less(a, b) && Less(b, c)
    ensures Less(a, c)
  {
    if DaysOrInf(a.days) == DaysOrInf(b.days) == DaysOrInf(c.days) {
      TextTransitive(a.fingerprint, b.fingerprint, c.fingerprint);
    }
  }

  predicate Sorted(out: seq<Status>) {
    forall i, j :: 0 <= i < j < |out| ==> Less(out[i], out[j])
  }

  /** The status of each record that is not archived. */
  function Live(cal: Days, keys: map<string, KeyRecord>, warn: int, today: int, root: string): map<string, Status> {
    map fp | fp in keys && !Archived(keys[fp].path, root) :: StatusOf(cal, fp, keys[fp], warn, today)
  }

  /** out holds exactly the statuses of live. */
  ghost predicate Lists(out: seq<Status>, live: map<string, Status>) {
    forall s :: s in out <==> s.fingerprint in live && live[s.fingerprint] == s
  }

  lemma Irreflexive(a: Status)
    ensures !Less(a, a)
  {
    TextTotal(a.fingerprint, a.fingerprint);
  }

  lemma FirstIsFirst(a: seq<Status>, b: seq<Status>)
    requires Sorted(a) && Sorted(b) && a != [] && b != []
    requires forall s :: s in a <==> s in b
    ensures a[0] == b[0]
  {
    assert a[0] in b && b[0] in a;
    var i :| 0 <= i < |b| && b[i] == a[0];
    var j :| 0 <= j < |a| && a[j] == b[0];
    if i > 0 && j > 0 {
      LessTransitive(a[0], a[j], b[i]);
      Irreflexive(a[0]);
    }
  }

  lemma RestSame(a: seq<Status>, b: seq<Status>, s: Status)
    requires Sorted(a) && a != [] && b != [] && a[0] == b[0]
    requires (forall t :: t in a ==> t in b) && s in a[1..]
    ensures s in b[1..]
  {
    var i :| 0 < i < |a| && a[i] == s by { var j :| 0 <= j < |a| - 1 && a[1..][j] == s; assert a[j + 1] == s; }
    assert Less(a[0], s);
    Irreflexive(s);
    assert a[i] in b;
  }

  /** Two sorted lists of the same statuses are the same list. */
  lemma {:induction false} SortedOnce(a: seq<Status>, b: seq<Status>)
    requires Sorted(a) && Sorted(b)
    requires forall s :: s in a <==> s in b
    ensures a == b
  {
    assert |a| > 0 ==> a[0] in b;
    assert |b| > 0 ==> b[0] in a;
    if |a| > 0 {
      FirstIsFirst(a, b);
      forall s ensures s in a[1..] <==> s in b[1..] {
        if s in a[1..] { RestSame(a, b, s); }
        if s in b[1..] { RestSame(b, a, s); }
      }
      SortedOnce(a[1..], b[1..]);
    }
  }

  /** In whatever order the inventory's records came, the result is the same. */
  lemma OneOrder(a: seq<Status>, b: seq<Status>, live: map<string, Status>)
    requires Lists(a, live) && Lists(b, live) && Sorted(a) && Sorted(b)
    ensures a == b
  {
    SortedOnce(a, b);
  }

  /** Each live record has one status. */
  lemma OnceEach(out: seq<Status>, live: map<string, Status>, i: nat, j: nat)
    requires Lists(out, live) && Sorted(out) && i < j < |out|
    ensures out[i].fingerprint != out[j].fingerprint
  {
    assert out[i] in out && out[j] in out && Less(out[i], out[j]);
    Irreflexive(out[i]);
  }

  /** Keys whose day is not known come last. */
  lemma UnknownLast(cal: Days, out: seq<Status>, keys: map<string, KeyRecord>, warn: int, today: int, root: string, i: nat, j: nat)
    requires Lists(out, Live(cal, keys, warn, today, root)) && Sorted(out)
    requires i < j < |out| && out[i].days.None?
    ensures out[j].days.None?
  {
    assert Less(out[i], out[j]);
    assert out[j] in out;
    DaysSmall(cal, out[j].fingerprint, keys[out[j].fingerprint], warn, today);
  }

  /** a comes no later than b: fewer days first, a day that is known before one that is
      not, and at the same day the lower fingerprint. */
  predicate InOrder(a: Status, b: Status) {
    match a.days
    case Some(x) => b.days.None? || x < b.days.value || (x == b.days.value && LessText(a.fingerprint, b.fingerprint))
    case None => b.days.None? && LessText(a.fingerprint, b.fingerprint)
  }

  lemma UrgentFirst(cal: Days, out: seq<Status>, keys: map<string, KeyRecord>, warn: int, today: int, root: string)
    requires Lists(out, Live(cal, keys, warn, today, root)) && Sorted(out)
    ensures forall i, j :: 0 <= i < j < |out| ==> InOrder(out[i], out[j])
  {
    forall i, j | 0 <= i < j < |out| ensures InOrder(out[i], out[j]) {
      assert out[i] in out && out[j] in out && Less(out[i], out[j]);
      DaysSmall(cal, out[i].fingerprint, keys[out[i].fingerprint], warn, today);
      DaysSmall(cal, out[j].fingerprint, keys[out[j].fingerprint], warn, today);
    }
  }

  lemma DaysSmall(cal: Days, fp: string, r: KeyRecord, warn: int, today: int)
    ensures var d := StatusOf(cal, fp, r, warn, today).days; d.Some? ==> -MAX_DAYS <= d.value <= MAX_DAYS
  {
  }

  /** One more in its place. */
  method Insert(out: seq<Status>, s: Status) returns (more: seq<Status>)
    requires Sorted(out) && forall t :: t in out ==> t.fingerprint != s.fingerprint
    ensures Sorted(more) && forall t :: t in more <==> t in out || t == s
  {
    var k := 0;
    while k < |out| && Less(out[k], s)
      invariant 0 <= k <= |out| && forall i :: 0 <= i < k ==> Less(out[i], s)
    {
      k := k + 1;
    }
    more := out[..k] + [s] + out[k..];
    if k < |out| {
      assert out[k] in out;
      TextTotal(out[k].fingerprint, s.fingerprint);
    }
    InPlace(out, k, s);
  }

  lemma InPlace(out: seq<Status>, k: nat, s: Status)
    requires Sorted(out) && k <= |out| && (forall i :: 0 <= i < k ==> Less(out[i], s))
    requires k < |out| ==> Less(s, out[k])
    ensures var more := out[..k] + [s] + out[k..];
            Sorted(more) && forall t :: t in more <==> t in out || t == s
  {
    assert out == out[..k] + out[k..];
    forall i | k < i < |out| ensures Less(s, out[i]) { LessTransitive(s, out[k], out[i]); }
  }

  /** One more status of those there are. */
  method AddStatus(out: seq<Status>, s: Status, ghost live: map<string, Status>) returns (more: seq<Status>)
    requires Lists(out, live) && Sorted(out) && s.fingerprint !in live
    ensures Lists(more, live[s.fingerprint := s]) && Sorted(more)
  {
    more := Insert(out, s);
  }

  lemma Removed(live: map<string, Status>, left: set<string>, fp: string)
    requires fp in left
    ensures live - (left - {fp}) == if fp in live then (live - left)[fp := live[fp]] else live - left
  {
  }

  method ComputeStatesIn(cal: Days, keys: map<string, KeyRecord>, warnBefore: seq<int>, today: int, root: string)
    returns (out: seq<Status>)
    ensures Lists(out, Live(cal, keys, WarnWindow(warnBefore), today, root)) && Sorted(out)
    ensures forall i, j :: 0 <= i < j < |out| ==> out[i].fingerprint != out[j].fingerprint && InOrder(out[i], out[j])
    ensures forall i, j :: 0 <= i < j < |out| && out[i].days.Some? && out[j].days.Some? ==> out[i].days.value <= out[j].days.value
  {
    var warn := LargestWarning(warnBefore);
    ghost var live := Live(cal, keys, warn, today, root);
    out := [];
    var left := keys.Keys;
    while left != {}
      invariant left <= keys.Keys && Sorted(out)
      invariant Lists(out, live - left)
      decreases |left|
    {
      var fp :| fp in left;
      if Archived(keys[fp].path, root) {
        Removed(live, left, fp);
      } else {
        var s := StatusOf(cal, fp, keys[fp], warn, today);
        Removed(live, left, fp);
        out := AddStatus(out, s, live - left);
      }
      left := left - {fp};
    }
    assert live - left == live;
    forall i, j | 0 <= i < j < |out| ensures out[i].fingerprint != out[j].fingerprint { OnceEach(out, live, i, j); }
    UrgentFirst(cal, out, keys, warn, today, root);
  }

  // The reminder's rhythm.

  predicate NeedsAttention(s: Status) { s.due.DueSoon? || s.due.Overdue? }

  method Cadence(states: seq<Status>) returns (daily: bool)
    ensures daily <==> exists s :: s in states && s.due in {DueSoon, Overdue}
  {
    for i := 0 to |states|
      invariant forall j :: 0 <= j < i ==> !NeedsAttention(states[j])
    {
      if NeedsAttention(states[i]) {
        assert states[i] in states;
        return true;
      }
    }
    return false;
  }
}
