/** The table of signed-in sessions: its ceiling, and its passage to the server that
    replaces this one. Times are seconds since some start. */
module Sessions {
  import opened Text

  const MAX_SESSIONS := 64

  /** What is known of one session. `unlocked` is when it first gave the PIN, `stepped`
      when it last did. */
  datatype State = State(csrf: string, created: int, unlocked: Option<int>, stepped: Option<int>)

  /** What is handed over of one session. */
  datatype Handed = Handed(id: string, csrf: string, created: int)

  class Session {
    const csrf: string
    const created: int
    var unlocked: Option<int>
    var stepped: Option<int>

    constructor (csrf: string, created: int)
      ensures this.csrf == csrf && this.created == created && unlocked.None? && stepped.None?
    {
      this.csrf, this.created, unlocked, stepped := csrf, created, None, None;
    }

    function View(): State
      reads this
    {
      State(csrf, created, unlocked, stepped)
    }

    /** The right PIN was given: the first time counts for the sign-in, every time for
        the changes that follow. */
    method Unlock(now: int)
      modifies this
      ensures View() == Unlocked(old(View()), now)
    {
      if unlocked.None? { unlocked := Some(now); }
      stepped := Some(now);
    }
  }

  function Unlocked(s: State, now: int): State {
    s.(unlocked := if s.unlocked.None? then Some(now) else s.unlocked, stepped := Some(now))
  }

  /** A session after the right PIN was given at each of those times. */
  function AfterUnlocks(s: State, times: seq<int>): State {
    if times == [] then s else Unlocked(AfterUnlocks(s, times[..|times| - 1]), times[|times| - 1])
  }

  /** However often the PIN is given, a session knows when it first was and when it last
      was, is unlocked from the first time on, and is otherwise the same. */
  lemma {:induction false} FirstAndLast(s: State, times: seq<int>)
    requires s.unlocked.None? && s.stepped.None?
    ensures var t := AfterUnlocks(s, times);
            && t.csrf == s.csrf && t.created == s.created
            && (t.unlocked.Some? <==> times != []) && (t.stepped.Some? <==> times != [])
            && (times != [] ==> t.unlocked == Some(times[0]) && t.stepped == Some(times[|times| - 1]))
  {
    if times != [] { FirstAndLast(s, times[..|times| - 1]); }
  }

  // What the table's operations mean.

  predicate TableOk(t: map<string, State>) {
    |t| <= MAX_SESSIONS && "" !in t && forall id :: id in t ==> t[id].csrf != ""
  }

  /** id was created earliest, or as early as any. */
  ghost predicate Oldest(t: map<string, State>, id: string) {
    id in t && forall other :: other in t ==> t[id].created <= t[other].created
  }

  /** A full table without one of its oldest sessions; any other table as it is. */
  ghost predicate Room(t: map<string, State>, after: map<string, State>) {
    if |t| < MAX_SESSIONS then after == t else exists gone :: Oldest(t, gone) && after == t - {gone}
  }

  /** One more session; with a full table, in place of an oldest one. */
  ghost predicate Created(t: map<string, State>, now: int, id: string, csrf: string, after: map<string, State>) {
    exists kept :: Room(t, kept) && after == kept[id := State(csrf, now, None, None)]
  }

  /** One state taken in, if it is whole and there is room. */
  function AdoptedOne(t: map<string, State>, st: Handed): map<string, State> {
    if st.id != "" && st.csrf != "" && |t| < MAX_SESSIONS then t[st.id := State(st.csrf, st.created, None, None)] else t
  }

  function Adopted(t: map<string, State>, states: seq<Handed>): map<string, State> {
    if states == [] then t else AdoptedOne(Adopted(t, states[..|states| - 1]), states[|states| - 1])
  }

  /** states is every session of t, each once, in some order. */
  ghost predicate Lists(t: map<string, State>, states: seq<Handed>) {
    && (forall i :: 0 <= i < |states| ==>
          states[i].id in t && states[i].csrf == t[states[i].id].csrf && states[i].created == t[states[i].id].created)
    && (forall i, j :: 0 <= i < j < |states| ==> states[i].id != states[j].id)
    && (forall id :: id in t ==> exists i :: 0 <= i < |states| && states[i].id == id)
  }

  /** Every session, with what it knew of the PIN forgotten. */
  function Relocked(t: map<string, State>): map<string, State> {
    map id | id in t :: t[id].(unlocked := None, stepped := None)
  }

  class Table {
    var byID: map<string, Session>

    constructor ()
      ensures byID == map[] && Valid()
    {
      byID := map[];
    }

    /** The ids name different sessions, and the table is one it can be. */
    ghost predicate Valid()
      reads this, byID.Values
    {
      TableOk(View()) && forall a, b :: a in byID && b in byID && a != b ==> byID[a] != byID[b]
    }

    function View(): (t: map<string, State>)
      reads this, byID.Values
      ensures t.Keys == byID.Keys && |t| == |byID|
    {
      var t := map id | id in byID :: byID[id].View();
      SameSize(t, byID);
      t
    }

    /** One that was created earliest, in whatever order the ids come. */
    method EarliestId() returns (oldest: string)
      requires "" !in byID && byID != map[]
      ensures oldest in byID && forall k :: k in byID ==> byID[oldest].created <= byID[k].created
    {
      oldest := "";
      var left := byID.Keys;
      while left != {}
        invariant left <= byID.Keys
        invariant oldest == "" ==> left == byID.Keys
        invariant oldest != "" ==> oldest in byID && forall k :: k in byID.Keys - left ==> byID[oldest].created <= byID[k].created
        decreases |left|
      {
        var k :| k in left;
        if oldest == "" || byID[k].created < byID[oldest].created { oldest := k; }
        left := left - {k};
      }
    }

    method Delete(id: string)
      requires Valid() && id in byID
      modifies this
      ensures Valid() && View() == old(View()) - {id} && byID == old(byID) - {id} && |byID| == old(|byID|) - 1
    {
      ghost var t := View();
      RemovedSize(byID, id);
      TableShrinks(t, id);
      ghost var was := byID;
      byID := byID - {id};
      ghost var u := View();
      assert forall k :: k in byID <==> k in was && k != id;
      assert forall k :: k in byID ==> byID[k] == was[k] && u[k] == t[k];
      assert u == t - {id};
    }

    /** Puts a session under an id, in place of one that is there. */
    method Insert(id: string, sess: Session)
      requires Valid() && id != "" && sess.csrf != "" && sess !in byID.Values
      requires |byID| < MAX_SESSIONS
      modifies this
      ensures byID == old(byID)[id := sess] && View() == old(View())[id := sess.View()]
      ensures Valid()
    {
      ghost var t := View();
      byID := byID[id := sess];
      assert View() == t[id := sess.View()];
      TableGrows(t, id, sess.View());
    }

    /** A full table loses one session that was created earliest. */
    method MakeRoom()
      requires Valid()
      modifies this
      ensures Valid() && |byID| < MAX_SESSIONS && byID.Keys <= old(byID.Keys) && byID.Values <= old(byID.Values)
      ensures Room(old(View()), View())
    {
      ghost var t := View();
      if |byID| >= MAX_SESSIONS {
        var oldest := EarliestId();
        assert forall k :: k in t ==> t[k].created == byID[k].created;
        OldestGoes(t, oldest);
        Delete(oldest);
      }
    }

    /** A new session under a fresh id. */
    method Create(now: int, id: string, csrf: string) returns (sess: Session)
      requires Valid() && id != "" && csrf != "" && id !in byID
      modifies this
      ensures Valid() && fresh(sess) && id in byID && byID[id] == sess
      ensures Created(old(View()), now, id, csrf, View())
    {
      sess := new Session(csrf, now);
      MakeRoom();
      Insert(id, sess);
    }

    method AdoptOne(st: Handed)
      requires Valid()
      modifies this
      ensures Valid() && View() == AdoptedOne(old(View()), st)
    {
      if st.id != "" && st.csrf != "" && |byID| < MAX_SESSIONS {
        var sess := new Session(st.csrf, st.created);
        Insert(st.id, sess);
      }
    }

    /** Takes over the sessions a server that restarted handed over. */
    method Adopt(states: seq<Handed>)
      requires Valid()
      modifies this
      ensures Valid() && View() == Adopted(old(View()), states)
    {
      var i := 0;
      assert states[..0] == [];
      ghost var t := View();
      while i < |states|
        invariant 0 <= i <= |states| && Valid() && View() == Adopted(t, states[..i])
      {
        assert states[..i + 1][..i] == states[..i];
        AdoptOne(states[i]);
        i := i + 1;
      }
      assert states[..i] == states;
    }

    /** Every signed-in session, in whatever order the ids come. */
    method List() returns (states: seq<Handed>)
      ensures Lists(View(), states)
    {
      states := [];
      var t := View();
      var left := t.Keys;
      while left != {}
        invariant left <= t.Keys && Lists(t - left, states)
        decreases |left|
      {
        var k :| k in left;
        ListsOneMore(t - left, states, k, t[k]);
        assert (t - left)[k := t[k]] == t - (left - {k});
        left := left - {k};
        states := states + [Handed(k, t[k].csrf, t[k].created)];
      }
      assert t - left == t;
    }

    method Get(id: string) returns (sess: Option<Session>)
      ensures sess == if id in byID then Some(byID[id]) else None
    {
      sess := if id in byID then Some(byID[id]) else None;
    }
  }

  lemma TableGrows(t: map<string, State>, id: string, v: State)
    requires TableOk(t) && |t| < MAX_SESSIONS && id != "" && v.csrf != ""
    ensures TableOk(t[id := v])
  {
    AddedSize(t, id, v);
  }

  lemma {:induction false} SameSize<K, A, B>(a: map<K, A>, b: map<K, B>)
    requires a.Keys == b.Keys
    ensures |a| == |b|
  {
    assert |a.Keys| == |a| && |b.Keys| == |b|;
  }

  lemma RemovedSize<K, A>(a: map<K, A>, k: K)
    requires k in a
    ensures |a - {k}| == |a| - 1
  {
    assert (a - {k}).Keys == a.Keys - {k};
    assert |a.Keys| == |a| && |(a - {k}).Keys| == |a - {k}|;
  }

  lemma OldestGoes(t: map<string, State>, oldest: string)
    requires |t| >= MAX_SESSIONS && oldest in t && forall k :: k in t ==> t[oldest].created <= t[k].created
    ensures Room(t, t - {oldest})
  {
    assert Oldest(t, oldest);
  }

  lemma TableShrinks(t: map<string, State>, id: string)
    requires TableOk(t) && id in t
    ensures TableOk(t - {id})
  {
    RemovedSize(t, id);
  }

  lemma AddedSize<K, A>(a: map<K, A>, k: K, v: A)
    ensures |a[k := v]| == if k in a then |a| else |a| + 1
  {
    assert a[k := v].Keys == a.Keys + {k};
    assert |a.Keys| == |a| && |a[k := v].Keys| == |a[k := v]|;
  }

  lemma ListsOneMore(t: map<string, State>, states: seq<Handed>, k: string, v: State)
    requires Lists(t, states) && k !in t
    ensures Lists(t[k := v], states + [Handed(k, v.csrf, v.created)])
  {
    var longer := states + [Handed(k, v.csrf, v.created)];
    assert longer[|states|].id == k;
    forall id | id in t ensures exists i :: 0 <= i < |longer| && longer[i].id == id {
      var i :| 0 <= i < |states| && states[i].id == id;
      assert longer[i].id == id;
    }
  }

  // The table over any run.

  /** A full create evicts exactly one session, one created earliest, and the new one
      is there whatever its time. */
  lemma CreateKeeps(t: map<string, State>, now: int, id: string, csrf: string, after: map<string, State>)
    requires TableOk(t) && id !in t && id != "" && csrf != "" && Created(t, now, id, csrf, after)
    ensures TableOk(after) && id in after && after[id] == State(csrf, now, None, None)
    ensures |t| < MAX_SESSIONS ==> after - {id} == t
    ensures |t| == MAX_SESSIONS ==> |after| == MAX_SESSIONS && exists gone :: Oldest(t, gone) && after - {id} == t - {gone}
  {
    var kept :| Room(t, kept) && after == kept[id := State(csrf, now, None, None)];
    assert after - {id} == kept;
    AddedSize(kept, id, State(csrf, now, None, None));
    if |t| == MAX_SESSIONS {
      var gone :| Oldest(t, gone) && kept == t - {gone};
      RemovedSize(t, gone);
    }
  }

  lemma {:induction false} AdoptKeeps(t: map<string, State>, states: seq<Handed>)
    requires TableOk(t)
    ensures TableOk(Adopted(t, states))
  {
    if states != [] {
      var last := states[|states| - 1];
      AdoptKeeps(t, states[..|states| - 1]);
      AddedSize(Adopted(t, states[..|states| - 1]), last.id, State(last.csrf, last.created, None, None));
    }
  }

  datatype Op = Make(now: int, id: string, csrf: string) | Take(states: seq<Handed>)

  ghost predicate Does(t: map<string, State>, op: Op, after: map<string, State>) {
    match op
    case Make(now, id, csrf) => id !in t && id != "" && csrf != "" && Created(t, now, id, csrf, after)
    case Take(states) => after == Adopted(t, states)
  }

  /** tables are what the operations make of an empty table, one after another. */
  ghost predicate History(tables: seq<map<string, State>>, ops: seq<Op>) {
    && |tables| == |ops| + 1 && tables[0] == map[]
    && forall i :: 0 <= i < |ops| ==> Does(tables[i], ops[i], tables[i + 1])
  }

  /** After any sequence of sign-ins and hand-overs the table is within its ceiling. */
  lemma {:induction false} NeverOverfull(tables: seq<map<string, State>>, ops: seq<Op>, n: nat)
    requires History(tables, ops) && n <= |ops|
    ensures TableOk(tables[n])
  {
    if n > 0 {
      NeverOverfull(tables, ops, n - 1);
      assert Does(tables[n - 1], ops[n - 1], tables[n]);
      DoesKeeps(tables[n - 1], ops[n - 1], tables[n]);
    }
  }

  lemma DoesKeeps(t: map<string, State>, op: Op, after: map<string, State>)
    requires TableOk(t) && Does(t, op, after)
    ensures TableOk(after)
  {
    match op
    case Make(now, id, csrf) => CreateKeeps(t, now, id, csrf, after);
    case Take(states) => AdoptKeeps(t, states);
  }

  // Handing over.

  /** t's sessions that the first n of states name, relocked. */
  function FirstOf(t: map<string, State>, states: seq<Handed>, n: nat): map<string, State>
    requires n <= |states|
  {
    map id | id in t && (exists i :: 0 <= i < n && states[i].id == id) :: State(t[id].csrf, t[id].created, None, None)
  }

  lemma FirstOfSize(t: map<string, State>, states: seq<Handed>, n: nat)
    requires TableOk(t) && Lists(t, states) && n < |states|
    ensures states[n].id !in FirstOf(t, states, n) && |FirstOf(t, states, n)| < MAX_SESSIONS
  {
    var before, id := FirstOf(t, states, n), states[n].id;
    assert before.Keys <= t.Keys - {id};
    FewerKeys(before.Keys, t.Keys - {id});
    assert |t.Keys| == |t| && |before.Keys| == |before|;
  }

  lemma FirstOfNext(t: map<string, State>, states: seq<Handed>, n: nat)
    requires Lists(t, states) && n < |states|
    ensures FirstOf(t, states, n)[states[n].id := State(states[n].csrf, states[n].created, None, None)]
            == FirstOf(t, states, n + 1)
  {
    assert states[n].id in t;
  }

  lemma AdoptedMore(t: map<string, State>, states: seq<Handed>, n: nat)
    requires n < |states|
    ensures Adopted(t, states[..n + 1]) == AdoptedOne(Adopted(t, states[..n]), states[n])
  {
    var part := states[..n + 1];
    assert part[..|part| - 1] == states[..n] && part[|part| - 1] == states[n];
  }

  lemma {:induction false} AdoptedPart(t: map<string, State>, states: seq<Handed>, n: nat)
    requires TableOk(t) && Lists(t, states) && n <= |states|
    ensures Adopted(map[], states[..n]) == FirstOf(t, states, n)
  {
    if n == 0 {
      FirstOfNone(t, states);
    } else {
      AdoptedPart(t, states, n - 1);
      AdoptedStep(t, states, n - 1);
    }
  }

  lemma AdoptedStep(t: map<string, State>, states: seq<Handed>, n: nat)
    requires TableOk(t) && Lists(t, states) && n < |states| && Adopted(map[], states[..n]) == FirstOf(t, states, n)
    ensures Adopted(map[], states[..n + 1]) == FirstOf(t, states, n + 1)
  {
    FirstOfStep(t, states, n);
    AdoptedMore(map[], states, n);
  }

  lemma FirstOfNone(t: map<string, State>, states: seq<Handed>)
    ensures FirstOf(t, states, 0) == map[] && Adopted(map[], states[..0]) == map[]
  {
  }

  lemma FirstOfStep(t: map<string, State>, states: seq<Handed>, n: nat)
    requires TableOk(t) && Lists(t, states) && n < |states|
    ensures AdoptedOne(FirstOf(t, states, n), states[n]) == FirstOf(t, states, n + 1)
  {
    FirstOfSize(t, states, n);
    FirstOfNext(t, states, n);
    assert states[n].id in t && states[n].id != "" && states[n].csrf != "";
  }

  lemma {:induction false} FewerKeys<K>(a: set<K>, b: set<K>)
    requires a <= b
    ensures |a| <= |b|
  {
    if a != {} {
      var k :| k in a;
      FewerKeys(a - {k}, b - {k});
    }
  }

  lemma FirstOfAll(t: map<string, State>, states: seq<Handed>)
    requires Lists(t, states)
    ensures FirstOf(t, states, |states|) == Relocked(t)
  {
    assert forall id :: id in t ==> exists i :: 0 <= i < |states| && states[i].id == id;
  }

  /** A successor that adopts what its predecessor listed, in any order, has every
      session with its id, form token and time of sign-in, and none unlocked. */
  lemma HandedOver(t: map<string, State>, states: seq<Handed>)
    requires TableOk(t) && Lists(t, states)
    ensures Adopted(map[], states) == Relocked(t)
  {
    AdoptedPart(t, states, |states|);
    assert states[..|states|] == states;
    FirstOfAll(t, states);
  }
}
