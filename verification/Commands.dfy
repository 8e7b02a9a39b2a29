/** The code the commands that ask share, run step by step inside the protocol. */
module Commands {
  import opened Text
  import opened Protocol

  datatype Outcome<H> =
    | NothingAsked(seen: H)
    | Aborted(seen: H)
    | Changed(seen: H, found: H)
    | Done(asked: Option<H>, found: H)

  lemma Onward<H, T>(cmds: Commands<H, T>, s: System<H, T>, events: seq<Event>, e: Event)
    requires Run(cmds, s, events).Some?
    ensures Run(cmds, s, events + [e]) == Next(cmds, Run(cmds, s, events).value, e)
  {
    assert (events + [e])[..|events|] == events;
  }

  /** One process of a running system. Every method makes this process's own events;
      between them the others make theirs. */
  class Process<H(!new), T(==,!new)> {
    const cmds: Commands<H, T>
    const me: nat
    const home0: H
    const pids: set<nat>
    var sys: System<H, T>
    ghost var events: seq<Event>

    constructor (cmds: Commands<H, T>, me: nat, home0: H, pids: set<nat>)
      requires me in pids
      ensures Valid()
      ensures Mine() == Ready
      ensures this.cmds == cmds && this.me == me
    {
      this.cmds, this.me, this.home0, this.pids := cmds, me, home0, pids;
      sys := Start(home0, pids);
      events := [];
    }

    ghost predicate Valid()
      reads this
    {
      && Run(cmds, Start(home0, pids), events) == Some(sys) && LockWorks(events)
      && me in sys.procs
    }

    function Mine(): Phase<H, T>
      requires me in sys.procs
      reads this
    {
      sys.procs[me]
    }

    ghost predicate Holding()
      reads this
    {
      Valid() && sys.holder == Some(me) && Mine().Inside?
    }

    method Take(e: Event)
      requires Valid() && e.pid in sys.procs && !e.AcquireFails? && Next(cmds, sys, e).Some?
      modifies this
      ensures Valid() && Some(sys) == old(Next(cmds, sys, e))
    {
      Onward(cmds, Start(home0, pids), events, e);
      sys := Next(cmds, sys, e).value;
      events := events + [e];
    }

    /** The other processes go on for a while. Nothing is known of it but that this
        process stays as it is and, while it holds the lock, so does the home. */
    method Meanwhile()
      requires Valid()
      modifies this
      ensures Valid() && Mine() == old(Mine())
      ensures sys.holder == Some(me) <==> old(sys.holder) == Some(me)
      ensures sys.holder == Some(me) ==> sys.home == old(sys.home)
    {
    }

    /** Waits until the lock is free and takes it. The wait ends when whoever holds it
        does. */
    method LockForMutation()
      requires Valid() && sys.holder != Some(me) && Wants(cmds(me), Mine()).Some?
      modifies this
      ensures Holding()
      ensures Mine() == Entering(cmds(me), old(Wants(cmds(me), Mine())).value, sys.home)
    {
      RunsInTurn(cmds, home0, pids, events);
      if sys.holder.Some? { Take(Exit(sys.holder.value)); }
      Take(Acquire(me));
    }

    /** The lock, then the question again: whether the home still answers it as the one
        that was shown did. */
    method Recheck(seen: H) returns (same: bool, found: H)
      requires Valid() && sys.holder != Some(me) && Mine() == Waiting(Agreed(seen)) && cmds(me).before == []
      modifies this
      ensures Holding() && Mine().start == found == sys.home && Mine().answer == Agreed(seen)
      ensures same <==> cmds(me).bind(found) == cmds(me).bind(seen)
      ensures Mine().work == if same then Work([], Items(cmds(me).after), Some(found)) else Work([], [], None)
    {
      LockForMutation();
      found := sys.home;
      var c := cmds(me);
      assert Mine().work.left == [Check(c.bind(seen))] + Items(c.after);
      assert Mine().work.left[1..] == Items(c.after);
      same := c.bind(found) == c.bind(seen);
      Meanwhile();
      Take(Go(me));
    }

    /** Everything there is left to do, a step at a time. */
    method Apply(ghost work: Work<H, T>, ghost home: H)
      requires Holding() && work == Mine().work && home == sys.home
      modifies this
      ensures Holding() && Finished(Mine().work) && Mine().start == old(Mine().start)
      ensures sys.home == Rest(cmds(me), work, home)
    {
      while !Finished(Mine().work)
        invariant Holding() && Mine().start == old(Mine().start)
        invariant Rest(cmds(me), Mine().work, sys.home) == Rest(cmds(me), work, home)
        decreases |Mine().work.left|, |Mine().work.todo|
      {
        Meanwhile();
        Take(Go(me));
      }
    }

    /** A reconcile, a host batch, a key deletion, a VM sync: ask without the lock, if there
        is anything to ask, look again with it, and write. `says` is the person's answer. */
    method AskAndApply(willAsk: bool, says: bool) returns (out: Outcome<H>)
      requires Valid() && Mine() == Ready && sys.holder != Some(me)
      requires cmds(me).early == !willAsk && cmds(me).before == []
      modifies this
      ensures Valid()
      ensures match out
              case NothingAsked(seen) => willAsk && !cmds(me).asks(seen) && Mine().Gone?
              case Aborted(seen) => willAsk && cmds(me).asks(seen) && !says && Mine().Gone?
              case Changed(seen, found) =>
                && willAsk && cmds(me).asks(seen) && says && Holding() && Mine().start == found == sys.home
                && cmds(me).bind(found) != cmds(me).bind(seen)
              case Done(asked, found) =>
                && (willAsk <==> asked.Some?)
                && (willAsk ==> cmds(me).asks(asked.value) && says && cmds(me).bind(found) == cmds(me).bind(asked.value))
                && Holding() && Mine().start == found && sys.home == Applied(cmds(me).after, found)
    {
      Meanwhile();
      if !willAsk {
        LockForMutation();
        RestIsEffect(cmds(me), Nobody, sys.home);
        var found := sys.home;
        Apply(Mine().work, sys.home);
        return Done(None, found);
      }
      var seen := sys.home;
      Take(Preview(me));
      if !cmds(me).asks(seen) { return NothingAsked(seen); }
      Meanwhile();
      Take(Reply(me, says));
      if !says { return Aborted(seen); }
      Meanwhile();
      var same, found := Recheck(seen);
      if !same { return Changed(seen, found); }
      RestOfItems(cmds(me), [], cmds(me).after, [], Some(found), found);
      assert Items<H, T>(cmds(me).after) + [] == Items(cmds(me).after);
      Apply(Mine().work, sys.home);
      return Done(Some(seen), found);
    }

    /** doctor --fix: its first stage is done whether or not there was anything to ask,
        whatever the answer was, and whether or not the home moved; the rest only when
        none of these stops it. */
    method FixAndApply(says: bool) returns (answer: Answer<H>, found: H)
      requires Valid() && Mine() == Ready && sys.holder != Some(me)
      requires !cmds(me).early && cmds(me).before != []
      modifies this
      ensures Holding() && Mine().start == found && !answer.Nobody?
      ensures answer.Agreed? <==> says && cmds(me).asks(answer.seen)
      ensures sys.home == Effect(cmds(me), answer, found)
    {
      Meanwhile();
      var seen := sys.home;
      answer := if says && cmds(me).asks(seen) then Agreed(seen) else Declined(seen);
      Take(Preview(me));
      if cmds(me).asks(seen) {
        Meanwhile();
        Take(Reply(me, says));
      }
      Meanwhile();
      LockForMutation();
      found := sys.home;
      RestIsEffect(cmds(me), answer, found);
      Apply(Mine().work, sys.home);
    }
  }
}
