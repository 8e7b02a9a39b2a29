/** The secrets typed into a form, held between its preview and its confirmation. Times
    are in seconds. */
module Stash {
  import opened Text

  const TTL := 900

  datatype Stashed<S> = Stashed(value: string, owner: S, expires: int)

  /** What was done to the stash, oldest first. */
  datatype Op<S> =
    | Put(owner: S, value: string, ref: string, now: int)
    | Drop(ref: string)

  // What the code does with its map.

  function Swept<S>(m: map<string, Stashed<S>>, now: int): map<string, Stashed<S>> {
    map ref | ref in m && now <= m[ref].expires :: m[ref]
  }

  function Apply<S>(m: map<string, Stashed<S>>, op: Op<S>): map<string, Stashed<S>> {
    match op
    case Put(owner, value, ref, now) => Swept(m, now)[ref := Stashed(value, owner, now + TTL)]
    case Drop(ref) => m - {ref}
  }

  function Lookup<S(==)>(m: map<string, Stashed<S>>, owner: Option<S>, ref: string, now: int): Option<string> {
    if ref in m && owner == Some(m[ref].owner) && now <= m[ref].expires then Some(m[ref].value) else None
  }

  function Held<S>(log: seq<Op<S>>): map<string, Stashed<S>> {
    if log == [] then map[] else Apply(Held(log[..|log| - 1]), log[|log| - 1])
  }

  // What it means: a log that forgets nothing.

  /** The secret ref stood for, read off the whole log: put by this session, not put
      longer than its time ago, and not dropped since. */
  function Recalled<S(==)>(log: seq<Op<S>>, owner: Option<S>, ref: string, now: int): Option<string> {
    if log == [] then None
    else
      match log[|log| - 1]
      case Put(putter, value, r, at) =>
        if r == ref then if owner == Some(putter) && now - at <= TTL then Some(value) else None
        else Recalled(log[..|log| - 1], owner, ref, now)
      case Drop(r) => if r == ref then None else Recalled(log[..|log| - 1], owner, ref, now)
  }

  /** The clock did not go back behind a put. */
  predicate Past<S>(log: seq<Op<S>>, now: int) {
    forall i :: 0 <= i < |log| && log[i].Put? ==> log[i].now <= now
  }

  /** When the secret ref stands for was put, read off the log. */
  function PutAt<S>(log: seq<Op<S>>, ref: string): Option<int> {
    if log == [] then None
    else
      match log[|log| - 1]
      case Put(_, _, r, at) => if r == ref then Some(at) else PutAt(log[..|log| - 1], ref)
      case Drop(r) => if r == ref then None else PutAt(log[..|log| - 1], ref)
  }

  /** A secret put later swept that one away. */
  predicate SweptAway<S>(log: seq<Op<S>>, ref: string) {
    log != [] && log[|log| - 1].ref != ref
    && var before := log[..|log| - 1];
       || SweptAway(before, ref)
       || (log[|log| - 1].Put? && PutAt(before, ref).Some? && log[|log| - 1].now > PutAt(before, ref).value + TTL)
  }

  /** Whatever the clock did, the stash holds a secret exactly when the log has it and it
      was not swept away. */
  lemma {:induction false} HeldUnlessSwept<S>(log: seq<Op<S>>, ref: string)
    ensures ref in Held(log) <==> PutAt(log, ref).Some? && !SweptAway(log, ref)
    ensures ref in Held(log) ==> Held(log)[ref].expires == PutAt(log, ref).value + TTL
  {
    if log != [] { HeldUnlessSwept(log[..|log| - 1], ref); }
  }

  /** So it answers as the whole log would exactly when no secret still good was swept
      away, which takes a clock that goes back. */
  lemma {:induction false} AnswersUnlessSwept<S>(log: seq<Op<S>>, owner: Option<S>, ref: string, now: int)
    ensures Lookup(Held(log), owner, ref, now) == if SweptAway(log, ref) then None else Recalled(log, owner, ref, now)
    ensures Lookup(Held(log), owner, ref, now) == Recalled(log, owner, ref, now) <==>
            !(SweptAway(log, ref) && Recalled(log, owner, ref, now).Some?)
  {
    HeldUnlessSwept(log, ref);
    if log != [] {
      AnswersUnlessSwept(log[..|log| - 1], owner, ref, now);
      HeldUnlessSwept(log[..|log| - 1], ref);
    }
  }

  lemma {:induction false} SweptIsOld<S>(log: seq<Op<S>>, owner: Option<S>, ref: string, now: int)
    requires Past(log, now) && SweptAway(log, ref)
    ensures Recalled(log, owner, ref, now).None?
  {
    var before, last := log[..|log| - 1], log[|log| - 1];
    assert Past(before, now) by {
      forall i | 0 <= i < |before| && before[i].Put? ensures before[i].now <= now { assert log[i].Put?; }
    }
    if SweptAway(before, ref) {
      SweptIsOld(before, owner, ref, now);
    } else {
      assert log[|log| - 1].Put?;
      OldIsForgotten(before, owner, ref, now);
    }
  }

  lemma {:induction false} OldIsForgotten<S>(log: seq<Op<S>>, owner: Option<S>, ref: string, now: int)
    requires PutAt(log, ref).Some? && now > PutAt(log, ref).value + TTL
    ensures Recalled(log, owner, ref, now).None?
  {
    if log[|log| - 1].ref != ref { OldIsForgotten(log[..|log| - 1], owner, ref, now); }
  }

  /** Sweeping what has expired, and forgetting it, is never noticed when no put was later
      than now: whatever was put and dropped, by whichever sessions, the stash answers as
      the whole log would. */
  lemma {:induction false} AnswersAsLog<S>(log: seq<Op<S>>, owner: Option<S>, ref: string, now: int)
    requires Past(log, now)
    ensures Lookup(Held(log), owner, ref, now) == Recalled(log, owner, ref, now)
  {
    AnswersUnlessSwept(log, owner, ref, now);
    if SweptAway(log, ref) { SweptIsOld(log, owner, ref, now); }
  }

  /** A secret answers only to the session that put it, for its time and no longer. */
  lemma {:induction false} OnlyItsOwn<S>(log: seq<Op<S>>, owner: Option<S>, ref: string, now: int)
    requires Past(log, now)
    ensures match Lookup(Held(log), owner, ref, now)
            case None => true
            case Some(value) =>
              exists i :: 0 <= i < |log| && log[i].Put? && log[i].ref == ref && owner == Some(log[i].owner)
                && log[i].value == value && now - log[i].now <= TTL
                && forall j :: i < j < |log| ==> log[j].ref != ref
  {
    AnswersAsLog(log, owner, ref, now);
    RecalledPut(log, owner, ref, now);
  }

  lemma {:induction false} RecalledPut<S>(log: seq<Op<S>>, owner: Option<S>, ref: string, now: int)
    ensures match Recalled(log, owner, ref, now)
            case None => true
            case Some(value) =>
              exists i :: 0 <= i < |log| && log[i].Put? && log[i].ref == ref && owner == Some(log[i].owner)
                && log[i].value == value && now - log[i].now <= TTL
                && forall j :: i < j < |log| ==> log[j].ref != ref
  {
    if log != [] && Recalled(log, owner, ref, now).Some? {
      var n := |log| - 1;
      if log[n].ref == ref {
        assert log[n].Put?;
      } else {
        RecalledPut(log[..n], owner, ref, now);
        var i :| 0 <= i < n && log[..n][i].Put? && log[..n][i].ref == ref && owner == Some(log[..n][i].owner)
          && log[..n][i].value == Recalled(log, owner, ref, now).value && now - log[..n][i].now <= TTL
          && forall j :: i < j < n ==> log[..n][j].ref != ref;
        assert log[i] == log[..n][i];
        assert forall j :: i < j < n ==> log[j] == log[..n][j];
      }
    }
  }

  /** The stash a server has. `log` is everything that was ever done to it. */
  class Secrets<S(==)> {
    var m: map<string, Stashed<S>>
    ghost var log: seq<Op<S>>

    constructor ()
      ensures m == map[] && log == [] && Valid()
    {
      m, log := map[], [];
    }

    ghost predicate Valid()
      reads this
    {
      m == Held(log)
    }

    /** Drops what has expired and stores value under a fresh reference. */
    method PutSecret(owner: S, value: string, ref: string, now: int)
      requires Valid() && Past(log, now) && ref !in m
      modifies this
      ensures Valid() && log == old(log) + [Put(owner, value, ref, now)]
      ensures m == Apply(old(m), Put(owner, value, ref, now))
    {
      var left := m.Keys;
      ghost var was := m;
      while left != {}
        invariant log == old(log) && left <= was.Keys
        invariant forall r :: r in m <==> r in was && (r in left || now <= was[r].expires)
        invariant forall r :: r in m ==> m[r] == was[r]
        decreases |left|
      {
        var r :| r in left;
        if now > m[r].expires { m := m - {r}; }
        left := left - {r};
      }
      assert m == Swept(was, now);
      m := m[ref := Stashed(value, owner, now + TTL)];
      log := log + [Put(owner, value, ref, now)];
      assert log[..|log| - 1] == old(log);
    }

    method GetSecret(owner: Option<S>, ref: string, now: int) returns (value: Option<string>)
      requires Valid() && Past(log, now)
      ensures value == Recalled(log, owner, ref, now)
    {
      AnswersAsLog(log, owner, ref, now);
      if ref !in m { return None; }
      var e := m[ref];
      if owner != Some(e.owner) || now > e.expires { return None; }
      value := Some(e.value);
    }

    method DropSecret(ref: string)
      requires Valid()
      modifies this
      ensures Valid() && log == old(log) + [Drop(ref)] && m == Apply(old(m), Drop(ref))
    {
      m := m - {ref};
      log := log + [Drop(ref)];
      assert log[..|log| - 1] == old(log);
    }
  }
}
