/** Ask, then lock, then look again: any number of processes change one home, each
    asking its person before it takes the lock and working its question out again
    once it has it. */
module Protocol {
  import opened Text

  /** A stage reads the home and works out a list of writes, made one at a time. */
  type Stage<!H> = H -> seq<H -> H>

  datatype Item<!H, !T> = Do(stage: Stage<H>) | Check(bound: T)

  /** A command. `early` takes the lock before it reads, as a command that asks nobody
      does. `asks` says whether there is anything to ask about, `show` is the text its
      person then reads, and `bind` is what is compared again under the lock. `before` is
      done under the lock whatever the answer was. */
  datatype Command<!H, !T> = Command(
    early: bool,
    asks: H -> bool,
    show: H -> T,
    bind: H -> T,
    before: seq<Stage<H>>,
    after: seq<Stage<H>>)

  /** What a process inside has yet to do. `checked` is the home its check passed on. */
  datatype Work<!H, !T> = Work(todo: seq<H -> H>, left: seq<Item<H, T>>, checked: Option<H>)

  datatype Answer<H> = Nobody | Agreed(seen: H) | Declined(seen: H)

  datatype Phase<!H, !T> =
    | Ready
    | Asking(seen: H)
    | Waiting(answer: Answer<H>)
    | Inside(answer: Answer<H>, start: H, done: nat, work: Work<H, T>)
    | Gone

  /** One holding of the lock: who, on what answer, and how many of its steps. */
  datatype Turn<H> = Turn(pid: nat, answer: Answer<H>, done: nat)

  datatype System<!H, !T> = System(
    home: H,
    holder: Option<nat>,
    procs: map<nat, Phase<H, T>>,
    turns: seq<Turn<H>>)

  type Commands<!H, !T> = nat -> Command<H, T>

  // One process at work.

  function Items<H, T>(stages: seq<Stage<H>>): (items: seq<Item<H, T>>)
    ensures |items| == |stages| && forall i :: 0 <= i < |stages| ==> items[i] == Do(stages[i])
  {
    if stages == [] then [] else [Do(stages[0])] + Items(stages[1..])
  }

  /** What a process has to do once it has the lock. */
  function FirstWork<H, T>(c: Command<H, T>, a: Answer<H>): Work<H, T> {
    match a
    case Nobody => Work([], Items(c.before) + Items(c.after), None)
    case Agreed(seen) => Work([], Items(c.before) + [Check(c.bind(seen))] + Items(c.after), None)
    case Declined(_) => Work([], Items(c.before), None)
  }

  predicate Finished<H, T>(w: Work<H, T>) { w.todo == [] && w.left == [] }

  /** One step: the next write, or reading the home for the next stage, or the check,
      after which a home that moved leaves nothing to do. */
  function Micro<H, T(==)>(c: Command<H, T>, w: Work<H, T>, h: H): (Work<H, T>, H)
    requires !Finished(w)
  {
    if w.todo != [] then (w.(todo := w.todo[1..]), w.todo[0](h))
    else match w.left[0]
      case Do(stage) => (w.(todo := stage(h), left := w.left[1..]), h)
      case Check(bound) =>
        if c.bind(h) == bound then (w.(left := w.left[1..], checked := Some(h)), h) else (w.(left := []), h)
  }

  /** n steps of a process that has the home to itself. */
  function Solo<H, T(==)>(c: Command<H, T>, w: Work<H, T>, h: H, n: nat): (Work<H, T>, H)
  {
    if n == 0 then (w, h)
    else
      var (w1, h1) := Solo(c, w, h, n - 1);
      if Finished(w1) then (w1, h1) else Micro(c, w1, h1)
  }

  // The system.

  datatype Event =
    | Preview(pid: nat)
    | Reply(pid: nat, yes: bool)
    | Acquire(pid: nat)
    | AcquireFails(pid: nat)
    | Go(pid: nat)
    | Exit(pid: nat)

  /** What an event makes of the system; None when it cannot happen there. Acquiring
      blocks while another process holds the lock; a lock that cannot be made is
      reported and gone without. Exit is the end of the command, an error or a crash;
      any of them gives the lock back. */
  function Next<H, T(==)>(cmds: Commands<H, T>, s: System<H, T>, e: Event): Option<System<H, T>> {
    if e.pid !in s.procs then None
    else
      var p, c, phase := e.pid, cmds(e.pid), s.procs[e.pid];
      match e
      case Preview(_) =>
        if phase.Ready? && !c.early then
          Some(s.(procs := s.procs[p := if c.asks(s.home) then Asking(s.home) else Refused(c, s.home)]))
        else None
      case Reply(_, yes) =>
        if !phase.Asking? then None
        else if yes then Some(s.(procs := s.procs[p := Waiting(Agreed(phase.seen))]))
        else Some(s.(procs := s.procs[p := Refused(c, phase.seen)]))
      case Acquire(_) =>
        (match Wants(c, phase)
         case Some(a) =>
           if s.holder.Some? then None
           else Some(System(s.home, Some(p), s.procs[p := Entering(c, a, s.home)], s.turns + [Turn(p, a, 0)]))
         case None => None)
      case AcquireFails(_) =>
        (match Wants(c, phase)
         case Some(a) => Some(s.(procs := s.procs[p := Entering(c, a, s.home)]))
         case None => None)
      case Go(_) =>
        if !phase.Inside? || Finished(phase.work) then None
        else
          var (work, home) := Micro(c, phase.work, s.home);
          var turns := if s.holder == Some(p) && s.turns != [] then Longer(s.turns) else s.turns;
          Some(System(home, s.holder, s.procs[p := phase.(done := phase.done + 1, work := work)], turns))
      case Exit(_) =>
        if phase.Gone? then None
        else Some(s.(holder := if s.holder == Some(p) then None else s.holder, procs := s.procs[p := Gone]))
  }

  /** After a "no", or with nothing to ask, a command ends, unless it has something to do
      in any case. */
  function Refused<H, T>(c: Command<H, T>, seen: H): Phase<H, T> {
    if c.before == [] then Gone else Waiting(Declined(seen))
  }

  /** The answer a process is about to take the lock with, if it is about to. */
  function Wants<H, T>(c: Command<H, T>, phase: Phase<H, T>): Option<Answer<H>> {
    if phase.Ready? && c.early then Some(Nobody)
    else if phase.Waiting? then Some(phase.answer)
    else None
  }

  function Entering<H, T>(c: Command<H, T>, a: Answer<H>, home: H): Phase<H, T> {
    Inside(a, home, 0, FirstWork(c, a))
  }

  function Longer<H>(turns: seq<Turn<H>>): seq<Turn<H>>
    requires turns != []
  {
    var i := |turns| - 1;
    turns[i := turns[i].(done := turns[i].done + 1)]
  }

  function Start<H, T>(home: H, pids: set<nat>): System<H, T> {
    System(home, None, map p | p in pids :: Ready, [])
  }

  function Run<H, T(==)>(cmds: Commands<H, T>, s: System<H, T>, events: seq<Event>): Option<System<H, T>> {
    if events == [] then Some(s)
    else
      var before := Run(cmds, s, events[..|events| - 1]);
      if before.None? then None else Next(cmds, before.value, events[|events| - 1])
  }

  /** Every process that asked for the lock got it. */
  predicate LockWorks(events: seq<Event>) {
    forall i :: 0 <= i < |events| ==> !events[i].AcquireFails?
  }

  // What every run keeps.

  /** The home after the turns, each run on its own from where the last one left it. */
  function Replay<H, T(==)>(cmds: Commands<H, T>, home: H, turns: seq<Turn<H>>): H {
    if turns == [] then home
    else
      var last := turns[|turns| - 1];
      var c := cmds(last.pid);
      Solo(c, FirstWork(c, last.answer), Replay(cmds, home, turns[..|turns| - 1]), last.done).1
  }

  ghost predicate HolderInside<H, T>(cmds: Commands<H, T>, home: H, s: System<H, T>)
  {
    s.holder.Some? ==>
      var p := s.holder.value;
      && p in s.procs && s.procs[p].Inside? && s.turns != []
      && var ph, last := s.procs[p], s.turns[|s.turns| - 1];
      && last == Turn(p, ph.answer, ph.done)
      && ph.start == Replay(cmds, home, s.turns[..|s.turns| - 1])
      && (ph.work, s.home) == Solo(cmds(p), FirstWork(cmds(p), ph.answer), ph.start, ph.done)
  }

  ghost predicate Inv<H, T>(cmds: Commands<H, T>, home: H, s: System<H, T>)
  {
    && s.home == Replay(cmds, home, s.turns)
    && (forall p :: p in s.procs && s.procs[p].Inside? ==> s.holder == Some(p))
    && HolderInside(cmds, home, s)
  }

  lemma ReplayLonger<H, T>(cmds: Commands<H, T>, home: H, turns: seq<Turn<H>>, t: Turn<H>)
    ensures Replay(cmds, home, turns + [t]) ==
            Solo(cmds(t.pid), FirstWork(cmds(t.pid), t.answer), Replay(cmds, home, turns), t.done).1
  {
    assert (turns + [t])[..|turns|] == turns;
  }

  lemma LongerLast<H>(turns: seq<Turn<H>>)
    requires turns != []
    ensures var last := turns[|turns| - 1];
            Longer(turns) == turns[..|turns| - 1] + [last.(done := last.done + 1)]
  {
  }

  /** The lock holder makes one step. */
  lemma GoKeeps<H, T>(cmds: Commands<H, T>, home: H, s: System<H, T>, e: Event)
    requires Inv(cmds, home, s) && e.Go? && Next(cmds, s, e).Some?
    ensures Inv(cmds, home, Next(cmds, s, e).value)
  {
    var p := e.pid;
    var c, ph, last, was := cmds(p), s.procs[p], s.turns[|s.turns| - 1], s.turns[..|s.turns| - 1];
    assert s.holder == Some(p);
    LongerLast(s.turns);
    var t := last.(done := last.done + 1);
    ReplayLonger(cmds, home, was, t);
    assert Solo(c, FirstWork(c, ph.answer), ph.start, ph.done + 1) == Micro(c, ph.work, s.home);
    assert (was + [t])[..|was|] == was;
  }

  /** A process takes the free lock. */
  lemma AcquireKeeps<H, T>(cmds: Commands<H, T>, home: H, s: System<H, T>, e: Event)
    requires Inv(cmds, home, s) && e.Acquire? && Next(cmds, s, e).Some?
    ensures Inv(cmds, home, Next(cmds, s, e).value)
  {
    var p := e.pid;
    var t := Turn(p, Wants(cmds(p), s.procs[p]).value, 0);
    ReplayLonger(cmds, home, s.turns, t);
    assert (s.turns + [t])[..|s.turns|] == s.turns;
  }

  lemma NextKeeps<H, T>(cmds: Commands<H, T>, home: H, s: System<H, T>, e: Event)
    requires Inv(cmds, home, s) && Next(cmds, s, e).Some? && !e.AcquireFails?
    ensures Inv(cmds, home, Next(cmds, s, e).value)
  {
    match e
    case Go(_) => GoKeeps(cmds, home, s, e);
    case Acquire(_) => AcquireKeeps(cmds, home, s, e);
    case _ =>
  }

  /** While one process holds the lock, whatever the others do leaves the home, the lock
      and the holder as they are. */
  lemma OthersKeep<H, T>(cmds: Commands<H, T>, home: H, s: System<H, T>, e: Event)
    requires Inv(cmds, home, s) && s.holder.Some? && e.pid != s.holder.value
    requires Next(cmds, s, e).Some? && !e.AcquireFails?
    ensures var t := Next(cmds, s, e).value;
            && t.home == s.home && t.holder == s.holder && t.turns == s.turns
            && s.holder.value in t.procs && t.procs[s.holder.value] == s.procs[s.holder.value]
  {
  }

  /** In every run in which the lock works: at most one process is inside at a time,
      and the home is what the turns give one after another, in the order the lock was
      taken. No update is lost and none is made twice. */
  lemma {:induction false} RunsInTurn<H, T>(cmds: Commands<H, T>, home: H, pids: set<nat>, events: seq<Event>)
    requires LockWorks(events) && Run(cmds, Start(home, pids), events).Some?
    ensures Inv(cmds, home, Run(cmds, Start(home, pids), events).value)
  {
    if events != [] {
      var i := |events| - 1;
      assert LockWorks(events[..i]);
      RunsInTurn(cmds, home, pids, events[..i]);
      NextKeeps(cmds, home, Run(cmds, Start(home, pids), events[..i]).value, events[i]);
    }
  }

  // A turn that runs to its end.

  function Written<H>(todo: seq<H -> H>, h: H): H {
    if todo == [] then h else Written(todo[1..], todo[0](h))
  }

  /** The stages one after another, each made of what it reads. */
  function Applied<H>(stages: seq<Stage<H>>, h: H): H {
    if stages == [] then h else Applied(stages[1..], Written(stages[0](h), h))
  }

  /** What one command does to the home it finds when it gets the lock: a "no" does
      only what is done in any case, and so does a home that moved. */
  function Effect<H, T(==)>(c: Command<H, T>, a: Answer<H>, h: H): H {
    var ready := Applied(c.before, h);
    match a
    case Nobody => Applied(c.after, ready)
    case Declined(_) => ready
    case Agreed(seen) => if c.bind(ready) == c.bind(seen) then Applied(c.after, ready) else ready
  }

  /** What is left to do, done. */
  function Rest<H, T(==)>(c: Command<H, T>, w: Work<H, T>, h: H): H
    decreases |w.left|, |w.todo|
  {
    if Finished(w) then h else var (w1, h1) := Micro(c, w, h); Rest(c, w1, h1)
  }

  lemma {:induction false} SoloKeepsRest<H, T>(c: Command<H, T>, w: Work<H, T>, h: H, n: nat)
    ensures var (w1, h1) := Solo(c, w, h, n); Rest(c, w1, h1) == Rest(c, w, h)
  {
    if n > 0 { SoloKeepsRest(c, w, h, n - 1); }
  }

  lemma {:induction false} RestOfItems<H, T>(c: Command<H, T>, todo: seq<H -> H>, stages: seq<Stage<H>>,
                                            more: seq<Item<H, T>>, checked: Option<H>, h: H)
    ensures Rest(c, Work(todo, Items(stages) + more, checked), h) ==
            Rest(c, Work([], more, checked), Applied(stages, Written(todo, h)))
    decreases |stages|, |todo|
  {
    var w := Work(todo, Items(stages) + more, checked);
    if todo != [] {
      RestOfItems(c, todo[1..], stages, more, checked, todo[0](h));
    } else if stages != [] {
      RestOfItems(c, stages[0](h), stages[1..], more, checked, h);
      assert w.left[1..] == Items(stages[1..]) + more;
    } else {
      assert w.left == more;
    }
  }

  lemma RestIsEffect<H, T>(c: Command<H, T>, a: Answer<H>, h: H)
    ensures Rest(c, FirstWork(c, a), h) == Effect(c, a, h)
  {
    var none: seq<Item<H, T>> := [];
    var ready := Applied(c.before, h);
    match a
    case Nobody =>
      RestOfItems(c, [], c.before, Items(c.after), None, h);
      assert Items<H, T>(c.after) + none == Items(c.after);
      RestOfItems(c, [], c.after, none, None, ready);
    case Declined(_) =>
      assert Items<H, T>(c.before) + none == Items(c.before);
      RestOfItems(c, [], c.before, none, None, h);
    case Agreed(seen) =>
      var check := [Check(c.bind(seen))];
      assert Items<H, T>(c.before) + check + Items(c.after) == Items(c.before) + (check + Items(c.after));
      RestOfItems(c, [], c.before, check + Items(c.after), None, h);
      assert (check + Items<H, T>(c.after))[1..] == Items(c.after) + none;
      RestOfItems(c, [], c.after, none, Some(ready), ready);
  }

  ghost predicate AllFinished<H, T>(cmds: Commands<H, T>, home: H, turns: seq<Turn<H>>) {
    turns != [] ==>
      var i := |turns| - 1;
      var c := cmds(turns[i].pid);
      && Finished(Solo(c, FirstWork(c, turns[i].answer), Replay(cmds, home, turns[..i]), turns[i].done).0)
      && AllFinished(cmds, home, turns[..i])
  }

  /** The commands' effects composed in the order they took the lock. */
  function Composed<H, T(==)>(cmds: Commands<H, T>, home: H, turns: seq<Turn<H>>): H {
    if turns == [] then home
    else
      var last := turns[|turns| - 1];
      Effect(cmds(last.pid), last.answer, Composed(cmds, home, turns[..|turns| - 1]))
  }

  lemma {:induction false} FinishedTurns<H, T>(cmds: Commands<H, T>, home: H, turns: seq<Turn<H>>)
    requires AllFinished(cmds, home, turns)
    ensures Replay(cmds, home, turns) == Composed(cmds, home, turns)
  {
    if turns != [] {
      var i := |turns| - 1;
      var c := cmds(turns[i].pid);
      FinishedTurns(cmds, home, turns[..i]);
      var start := Replay(cmds, home, turns[..i]);
      SoloKeepsRest(c, FirstWork(c, turns[i].answer), start, turns[i].done);
      RestIsEffect(c, turns[i].answer, start);
    }
  }

  /** When nobody was cut off half way, the home is the effects of the commands that
      took the lock, composed in that order. */
  lemma InOrder<H, T>(cmds: Commands<H, T>, home: H, pids: set<nat>, events: seq<Event>)
    requires LockWorks(events) && Run(cmds, Start(home, pids), events).Some?
    requires AllFinished(cmds, home, Run(cmds, Start(home, pids), events).value.turns)
    ensures var s := Run(cmds, Start(home, pids), events).value; s.home == Composed(cmds, home, s.turns)
  {
    RunsInTurn(cmds, home, pids, events);
    FinishedTurns(cmds, home, Run(cmds, Start(home, pids), events).value.turns);
  }

  // What a person agreed to.

  function Step<H, T(==)>(c: Command<H, T>, at: (Work<H, T>, H)): (Work<H, T>, H) {
    if Finished(at.0) then at else Micro(c, at.0, at.1)
  }

  /** A process that was agreed to beside one that was declined, from the same home:
      until the check passes they have done the same. */
  ghost predicate Beside<H, T>(c: Command<H, T>, seen: H, ready: H, yes: (Work<H, T>, H), no: (Work<H, T>, H)) {
    && (forall i :: 0 <= i < |no.0.left| ==> no.0.left[i].Do?) && no.0.checked.None?
    && match yes.0.checked
       case None =>
         && yes.1 == no.1 && yes.0.todo == no.0.todo
         && if Finished(yes.0) then Finished(no.0)
            else yes.0.left == no.0.left + [Check(c.bind(seen))] + Items(c.after)
       case Some(at) =>
         && at == ready && c.bind(at) == c.bind(seen)
         && forall i :: 0 <= i < |yes.0.left| ==> yes.0.left[i].Do?
  }

  lemma BesideStep<H, T>(c: Command<H, T>, seen: H, ready: H, yes: (Work<H, T>, H), no: (Work<H, T>, H))
    requires Beside(c, seen, ready, yes, no) && Rest(c, no.0, no.1) == ready
    ensures Beside(c, seen, ready, Step(c, yes), Step(c, no))
  {
    var (w, w1) := (yes.0, no.0);
    if w.checked.None? && !Finished(w) && w.todo == [] {
      if w1.left == [] {
        assert w.left[0] == Check(c.bind(seen));
      } else {
        assert w.left[0] == w1.left[0];
        assert w.left[1..] == w1.left[1..] + [Check(c.bind(seen))] + Items(c.after);
      }
    }
  }

  /** Unless the check passed, a process that was agreed to has done no more than one
      that was declined; and the home it passed on answers the question as the home
      the person was shown did. */
  lemma {:induction false} CheckedFirst<H, T>(c: Command<H, T>, seen: H, h: H, n: nat)
    ensures Beside(c, seen, Applied(c.before, h),
                   Solo(c, FirstWork(c, Agreed(seen)), h, n), Solo(c, FirstWork(c, Declined(seen)), h, n))
  {
    if n > 0 {
      CheckedFirst(c, seen, h, n - 1);
      SoloKeepsRest(c, FirstWork(c, Declined(seen)), h, n - 1);
      RestIsEffect(c, Declined(seen), h);
      BesideStep(c, seen, Applied(c.before, h),
                 Solo(c, FirstWork(c, Agreed(seen)), h, n - 1), Solo(c, FirstWork(c, Declined(seen)), h, n - 1));
    }
  }

  /** A process that was agreed to and is inside: nobody else is; it started from what
      all earlier turns left, and the home is that changed by its own steps alone. Until
      its check passes those are no more than a declined process makes; once it passed,
      it passed on a home that answers the question as the one shown did. */
  lemma ActsOnWhatWasAgreed<H, T>(cmds: Commands<H, T>, home: H, pids: set<nat>, events: seq<Event>, p: nat)
    requires LockWorks(events) && Run(cmds, Start(home, pids), events).Some?
    requires var s := Run(cmds, Start(home, pids), events).value;
             p in s.procs && s.procs[p].Inside? && s.procs[p].answer.Agreed?
    ensures var s := Run(cmds, Start(home, pids), events).value;
            var c, ph := cmds(p), s.procs[p];
            && (forall q :: q in s.procs && q != p ==> !s.procs[q].Inside?)
            && s.turns != [] && ph.start == Replay(cmds, home, s.turns[..|s.turns| - 1])
            && s.home == Solo(c, FirstWork(c, ph.answer), ph.start, ph.done).1
            && (ph.work.checked.None? ==> s.home == Solo(c, FirstWork(c, Declined(ph.answer.seen)), ph.start, ph.done).1)
            && (ph.work.checked.Some? ==>
                  ph.work.checked.value == Applied(c.before, ph.start)
                  && c.bind(ph.work.checked.value) == c.bind(ph.answer.seen))
  {
    RunsInTurn(cmds, home, pids, events);
    var ph := Run(cmds, Start(home, pids), events).value.procs[p];
    CheckedFirst(cmds(p), ph.answer.seen, ph.start, ph.done);
  }

  /** A command's question says no more than is looked at again under the lock. */
  ghost predicate ShowsWhatItBinds<H(!new), T>(c: Command<H, T>) {
    forall h, g :: c.asks(h) && c.bind(h) == c.bind(Applied(c.before, g)) ==> c.show(h) == c.show(Applied(c.before, g))
  }

  /** p was agreed to, passed its check, and is changing a home that would have been
      asked about in other words. */
  ghost predicate Misled<H, T>(cmds: Commands<H, T>, s: System<H, T>, p: nat) {
    && p in s.procs && s.procs[p].Inside? && s.procs[p].answer.Agreed? && s.procs[p].work.checked.Some?
    && cmds(p).show(s.procs[p].work.checked.value) != cmds(p).show(s.procs[p].answer.seen)
  }

  ghost predicate NeverMisled<H(!new), T(!new)>(c: Command<H, T>) {
    forall cmds: Commands<H, T>, home: H, pids: set<nat>, events: seq<Event>, p: nat ::
      cmds(p) == c && LockWorks(events) && Run(cmds, Start(home, pids), events).Some? ==>
        !Misled(cmds, Run(cmds, Start(home, pids), events).value, p)
  }

  /** A process asks, and is agreed to, only on a home where there is something to ask. */
  predicate Asked<H, T>(c: Command<H, T>, phase: Phase<H, T>) {
    match phase
    case Asking(seen) => c.asks(seen)
    case Waiting(a) => a.Agreed? ==> c.asks(a.seen)
    case Inside(a, _, _, _) => a.Agreed? ==> c.asks(a.seen)
    case _ => true
  }

  lemma {:induction false} AgreedAsked<H, T>(cmds: Commands<H, T>, home: H, pids: set<nat>, events: seq<Event>)
    requires Run(cmds, Start(home, pids), events).Some?
    ensures var s := Run(cmds, Start(home, pids), events).value; forall p :: p in s.procs ==> Asked(cmds(p), s.procs[p])
  {
    if events != [] {
      var i := |events| - 1;
      AgreedAsked(cmds, home, pids, events[..i]);
      AskedStep(cmds, Run(cmds, Start(home, pids), events[..i]).value, events[i]);
    }
  }

  lemma AskedStep<H, T>(cmds: Commands<H, T>, s: System<H, T>, e: Event)
    requires Next(cmds, s, e).Some? && forall p :: p in s.procs ==> Asked(cmds(p), s.procs[p])
    ensures forall p :: p in Next(cmds, s, e).value.procs ==> Asked(cmds(p), Next(cmds, s, e).value.procs[p])
  {
    assert Asked(cmds(e.pid), s.procs[e.pid]);
  }

  lemma NotMisled<H(!new), T>(cmds: Commands<H, T>, home: H, pids: set<nat>, events: seq<Event>, p: nat)
    requires ShowsWhatItBinds(cmds(p)) && LockWorks(events) && Run(cmds, Start(home, pids), events).Some?
    ensures !Misled(cmds, Run(cmds, Start(home, pids), events).value, p)
  {
    var s := Run(cmds, Start(home, pids), events).value;
    RunsInTurn(cmds, home, pids, events);
    AgreedAsked(cmds, home, pids, events);
    if p in s.procs && s.procs[p].Inside? && s.procs[p].answer.Agreed? {
      assert Asked(cmds(p), s.procs[p]);
      var ph := s.procs[p];
      CheckedFirst(cmds(p), ph.answer.seen, ph.start, ph.done);
    }
  }

  lemma {:induction false} RunAppend<H, T>(cmds: Commands<H, T>, s: System<H, T>, a: seq<Event>, b: seq<Event>)
    requires Run(cmds, s, a).Some?
    ensures Run(cmds, s, a + b) == Run(cmds, Run(cmds, s, a).value, b)
  {
    if b == [] {
      assert a + b == a;
    } else {
      var i := |b| - 1;
      RunAppend(cmds, s, a, b[..i]);
      assert (a + b)[..|a + b| - 1] == a + b[..i];
    }
  }

  lemma RunOne<H, T>(cmds: Commands<H, T>, s: System<H, T>, e: Event, rest: seq<Event>)
    requires Next(cmds, s, e).Some?
    ensures Run(cmds, s, [e] + rest) == Run(cmds, Next(cmds, s, e).value, rest)
  {
    assert [e][..0] == [];
    assert Run(cmds, s, [e][..0]) == Some(s);
    assert Run(cmds, s, [e]) == Next(cmds, s, e);
    RunAppend(cmds, s, [e], rest);
  }

  /** The lock holder can go on to its check, and passes it. */
  lemma {:induction false} GoesToCheck<H, T>(cmds: Commands<H, T>, s: System<H, T>, p: nat, stages: seq<Stage<H>>, b: T,
                                            more: seq<Item<H, T>>) returns (events: seq<Event>)
    requires p in s.procs && s.procs[p].Inside? && s.procs[p].work.checked.None?
    requires s.procs[p].work.left == Items(stages) + [Check(b)] + more
    requires cmds(p).bind(Applied(stages, Written(s.procs[p].work.todo, s.home))) == b
    ensures LockWorks(events) && Run(cmds, s, events).Some?
    ensures var t := Run(cmds, s, events).value;
            && p in t.procs && t.procs[p].Inside? && t.procs[p].answer == s.procs[p].answer
            && t.procs[p].work.checked == Some(Applied(stages, Written(s.procs[p].work.todo, s.home)))
    decreases |stages|, |s.procs[p].work.todo|
  {
    var work := s.procs[p].work;
    var e := Go(p);
    var next := Next(cmds, s, e).value;
    if work.todo == [] && stages == [] {
      assert work.left[0] == Check(b);
      events := [e];
      RunOne(cmds, s, e, []);
      assert [e] + [] == [e];
    } else {
      if work.todo == [] {
        assert work.left[0] == Do(stages[0]);
        assert work.left[1..] == Items(stages[1..]) + [Check(b)] + more;
      }
      var rest := GoesToCheck(cmds, next, p, if work.todo == [] then stages[1..] else stages, b, more);
      events := [e] + rest;
      RunOne(cmds, s, e, rest);
    }
  }

  /** A command that asks nobody and leaves the home at g. */
  function Mover<H, T>(c: Command<H, T>, g: H): Command<H, T> {
    Command(true, c.asks, c.show, c.bind, [], [(h: H) => [(i: H) => g]])
  }

  function WithMover<H, T>(c: Command<H, T>, g: H): Commands<H, T> {
    (p: nat) => if p == 0 then c else Mover(c, g)
  }

  lemma RunThree<H, T>(cmds: Commands<H, T>, s: System<H, T>, a: Event, b: Event, c: Event)
    requires Next(cmds, s, a).Some? && Next(cmds, Next(cmds, s, a).value, b).Some?
    requires Next(cmds, Next(cmds, Next(cmds, s, a).value, b).value, c).Some?
    ensures Run(cmds, s, [a, b, c]) == Next(cmds, Next(cmds, Next(cmds, s, a).value, b).value, c)
  {
    var s2 := Next(cmds, Next(cmds, s, a).value, b).value;
    RunOne(cmds, s2, c, []);
    RunOne(cmds, Next(cmds, s, a).value, b, [c]);
    RunOne(cmds, s, a, [b, c]);
    assert [a, b, c] == [a] + [b, c] && [b, c] == [b] + [c] && [c] == [c] + [];
  }

  /** The mover takes the free lock and reads. */
  lemma MoverReads<H, T>(cmds: Commands<H, T>, s: System<H, T>, c: Command<H, T>, g: H)
    requires cmds(1) == Mover(c, g) && s.holder.None? && 1 in s.procs && s.procs[1] == Ready
    ensures Run(cmds, s, [Acquire(1), Go(1)]).Some?
    ensures var t := Run(cmds, s, [Acquire(1), Go(1)]).value;
            && t.holder == Some(1) && t.turns != [] && 1 in t.procs && t.procs[1].Inside? && t.procs.Keys == s.procs.Keys
            && t.procs[1].work.todo == [(i: H) => g] && (forall p :: p in s.procs && p != 1 ==> t.procs[p] == s.procs[p])
  {
    var s1 := Next(cmds, s, Acquire(1)).value;
    var after := Mover(c, g).after;
    assert s1.procs[1].work.left == Items<H, T>([]) + Items(after) == [Do(after[0])];
    RunOne(cmds, s1, Go(1), []);
    RunOne(cmds, s, Acquire(1), [Go(1)]);
    assert [Go(1)] + [] == [Go(1)] && [Acquire(1)] + [Go(1)] == [Acquire(1), Go(1)];
  }

  lemma AsksAndHears<H, T>(cmds: Commands<H, T>, s: System<H, T>)
    requires !cmds(0).early && cmds(0).asks(s.home) && 0 in s.procs && s.procs[0] == Ready
    ensures Run(cmds, s, [Preview(0), Reply(0, true)]) == Some(s.(procs := s.procs[0 := Waiting(Agreed(s.home))]))
  {
    var s1 := Next(cmds, s, Preview(0)).value;
    assert s1.procs[0 := Waiting(Agreed(s.home))] == s.procs[0 := Waiting(Agreed(s.home))];
    RunOne(cmds, s1, Reply(0, true), []);
    RunOne(cmds, s, Preview(0), [Reply(0, true)]);
    assert [Reply(0, true)] + [] == [Reply(0, true)] && [Preview(0)] + [Reply(0, true)] == [Preview(0), Reply(0, true)];
  }

  /** The mover writes and ends; then the first command gets the lock. */
  lemma MoverLeaves<H, T>(cmds: Commands<H, T>, s: System<H, T>, h: H, g: H)
    requires s.holder == Some(1) && 1 in s.procs && s.procs[1].Inside? && s.turns != []
    requires s.procs[1].work.todo == [(i: H) => g] && 0 in s.procs && s.procs[0] == Waiting(Agreed(h))
    ensures Run(cmds, s, [Go(1), Exit(1), Acquire(0)]).Some?
    ensures var t := Run(cmds, s, [Go(1), Exit(1), Acquire(0)]).value;
            t.home == g && 0 in t.procs && t.procs[0] == Entering(cmds(0), Agreed(h), g)
  {
    var s1 := Next(cmds, s, Go(1)).value;
    assert s1.home == g;
    var s2 := Next(cmds, s1, Exit(1)).value;
    var s3 := Next(cmds, s2, Acquire(0)).value;
    RunThree(cmds, s, Go(1), Exit(1), Acquire(0));
  }

  /** While its person reads, another command may leave any home behind. */
  lemma MovedMeanwhile<H, T>(cmds: Commands<H, T>, c: Command<H, T>, h: H, g: H) returns (events: seq<Event>)
    requires !c.early && c.asks(h) && cmds(0) == c && cmds(1) == Mover(c, g)
    ensures LockWorks(events) && Run(cmds, Start(h, {0, 1}), events).Some?
    ensures var s := Run(cmds, Start(h, {0, 1}), events).value;
            s.home == g && 0 in s.procs && s.procs[0] == Entering(c, Agreed(h), g)
  {
    var s0: System<H, T> := Start(h, {0, 1});
    var shown, meanwhile := [Preview(0), Reply(0, true)], [Acquire(1), Go(1)] + [Go(1), Exit(1), Acquire(0)];
    AsksAndHears(cmds, s0);
    MoverMoves(cmds, Run(cmds, s0, shown).value, c, h, g);
    RunAppend(cmds, s0, shown, meanwhile);
    events := shown + meanwhile;
  }

  /** The mover's whole run, and the first command's turn after it. */
  lemma MoverMoves<H, T>(cmds: Commands<H, T>, s: System<H, T>, c: Command<H, T>, h: H, g: H)
    requires cmds(0) == c && cmds(1) == Mover(c, g) && s.holder.None?
    requires 0 in s.procs && s.procs[0] == Waiting(Agreed(h)) && 1 in s.procs && s.procs[1] == Ready
    ensures Run(cmds, s, [Acquire(1), Go(1)] + [Go(1), Exit(1), Acquire(0)]).Some?
    ensures var t := Run(cmds, s, [Acquire(1), Go(1)] + [Go(1), Exit(1), Acquire(0)]).value;
            t.home == g && 0 in t.procs && t.procs[0] == Entering(c, Agreed(h), g)
  {
    var taken, moved := [Acquire(1), Go(1)], [Go(1), Exit(1), Acquire(0)];
    MoverReads(cmds, s, c, g);
    MoverLeaves(cmds, Run(cmds, s, taken).value, h, g);
    RunAppend(cmds, s, taken, moved);
  }

  /** What a person agrees to is what is then done, in every run beside any other
      commands, exactly when the question says no more than is looked at again. */
  lemma AgreedExactly<H(!new), T(!new)>(c: Command<H, T>)
    requires !c.early
    ensures NeverMisled(c) <==> ShowsWhatItBinds(c)
  {
    if ShowsWhatItBinds(c) {
      forall cmds: Commands<H, T>, home: H, pids: set<nat>, events: seq<Event>, p: nat
        | cmds(p) == c && LockWorks(events) && Run(cmds, Start(home, pids), events).Some?
        ensures !Misled(cmds, Run(cmds, Start(home, pids), events).value, p)
      {
        NotMisled(cmds, home, pids, events, p);
      }
    } else {
      var h, g :| c.asks(h) && c.bind(h) == c.bind(Applied(c.before, g)) && c.show(h) != c.show(Applied(c.before, g));
      CanMislead(c, h, g);
    }
  }

  lemma CanMislead<H(!new), T(!new)>(c: Command<H, T>, h: H, g: H)
    requires !c.early && c.asks(h)
    requires c.bind(h) == c.bind(Applied(c.before, g)) && c.show(h) != c.show(Applied(c.before, g))
    ensures !NeverMisled(c)
  {
    var cmds := WithMover(c, g);
    var first := MovedMeanwhile(cmds, c, h, g);
    var s := Run(cmds, Start(h, {0, 1}), first).value;
    var more := GoesToCheck(cmds, s, 0, c.before, c.bind(h), Items(c.after));
    RunAppend(cmds, Start(h, {0, 1}), first, more);
    assert cmds(0) == c && LockWorks(first + more);
    assert Misled(cmds, Run(cmds, Start(h, {0, 1}), first + more).value, 0);
  }

  /** A command that does nothing before its check changes nothing when its person
      says no, or when what was asked about moved. */
  lemma NothingDone<H, T>(c: Command<H, T>, a: Answer<H>, h: H, n: nat)
    requires c.before == []
    requires a.Declined? || (a.Agreed? && c.bind(a.seen) != c.bind(h))
    ensures Effect(c, a, h) == h && Solo(c, FirstWork(c, a), h, n).1 == h
  {
    var yes, no := FirstWork(c, Agreed(a.seen)), FirstWork(c, Declined(a.seen));
    SoloOfNothing(c, no, h, n);
    if a.Agreed? { CheckedFirst(c, a.seen, h, n); }
  }

  lemma {:induction false} SoloOfNothing<H, T>(c: Command<H, T>, w: Work<H, T>, h: H, n: nat)
    requires Finished(w)
    ensures Solo(c, w, h, n) == (w, h)
  {
    if n > 0 { SoloOfNothing(c, w, h, n - 1); }
  }

  /** Each process takes the lock at most once, so no command is in the turns twice. */
  ghost predicate OnceEach<H, T>(s: System<H, T>) {
    && (forall i :: 0 <= i < |s.turns| ==>
          s.turns[i].pid in s.procs && (s.procs[s.turns[i].pid].Inside? || s.procs[s.turns[i].pid].Gone?))
    && (forall i, j :: 0 <= i < j < |s.turns| ==> s.turns[i].pid != s.turns[j].pid)
  }

  lemma {:induction false} TakenOnce<H, T>(cmds: Commands<H, T>, home: H, pids: set<nat>, events: seq<Event>)
    requires Run(cmds, Start(home, pids), events).Some?
    ensures OnceEach(Run(cmds, Start(home, pids), events).value)
  {
    if events != [] {
      var i := |events| - 1;
      TakenOnce(cmds, home, pids, events[..i]);
      OnceEachStep(cmds, Run(cmds, Start(home, pids), events[..i]).value, events[i]);
    }
  }

  lemma OnceEachStep<H, T>(cmds: Commands<H, T>, s: System<H, T>, e: Event)
    requires OnceEach(s) && Next(cmds, s, e).Some?
    ensures OnceEach(Next(cmds, s, e).value)
  {
    var t := Next(cmds, s, e).value;
    if e.Go? && s.turns != [] { assert forall i :: 0 <= i < |s.turns| ==> t.turns[i].pid == s.turns[i].pid; }
    if e.Acquire? { assert forall i :: 0 <= i < |s.turns| ==> t.turns[i] == s.turns[i]; }
  }

  /** Until every process has ended, one of them can go on without failing: whoever
      holds the lock is working or done, and with nobody holding it anyone can go on. */
  lemma NeverStuck<H, T>(cmds: Commands<H, T>, home: H, pids: set<nat>, events: seq<Event>, p: nat) returns (e: Event)
    requires LockWorks(events) && Run(cmds, Start(home, pids), events).Some?
    requires var s := Run(cmds, Start(home, pids), events).value; p in s.procs && !s.procs[p].Gone?
    ensures var s := Run(cmds, Start(home, pids), events).value;
            && Next(cmds, s, e).Some? && !e.AcquireFails?
            && (e.Exit? ==> s.procs[e.pid].Inside? && Finished(s.procs[e.pid].work))
  {
    var s := Run(cmds, Start(home, pids), events).value;
    RunsInTurn(cmds, home, pids, events);
    if s.holder.Some? {
      var q := s.holder.value;
      e := if Finished(s.procs[q].work) then Exit(q) else Go(q);
    } else {
      match s.procs[p]
      case Ready => e := if cmds(p).early then Acquire(p) else Preview(p);
      case Asking(_) => e := Reply(p, true);
      case _ => e := Acquire(p);
    }
  }

  // Without the lock.

  /** At most one process is inside. */
  ghost predicate OneInside<H, T>(s: System<H, T>) {
    forall p, q :: p in s.procs && q in s.procs && s.procs[p].Inside? && s.procs[q].Inside? ==> p == q
  }

  /** At no point of the run are two. */
  ghost predicate NeverTogether<H, T>(cmds: Commands<H, T>, s: System<H, T>, events: seq<Event>) {
    events != [] ==>
      && NeverTogether(cmds, s, events[..|events| - 1])
      && (Run(cmds, s, events).Some? ==> OneInside(Run(cmds, s, events).value))
  }

  /** The same events, with the lock where it could not be made. */
  function Locked(events: seq<Event>): (locked: seq<Event>)
    ensures |locked| == |events| && LockWorks(locked)
  {
    if events == [] then []
    else
      var e := events[|events| - 1];
      Locked(events[..|events| - 1]) + [if e.AcquireFails? then Acquire(e.pid) else e]
  }

  /** Who comes in and is alone could have had the lock. */
  lemma LockFree<H, T>(cmds: Commands<H, T>, home: H, s: System<H, T>, t: System<H, T>, e: Event)
    requires HolderInside(cmds, home, t) && s.procs == t.procs && (e.Acquire? || e.AcquireFails?)
    requires Next(cmds, s, e).Some? && OneInside(Next(cmds, s, e).value)
    ensures t.holder.None?
  {
    var n := Next(cmds, s, e).value;
    assert forall p :: p in n.procs && p != e.pid ==> n.procs[p] == s.procs[p];
    assert e.pid in n.procs;
  }

  lemma SameWithLock<H, T>(cmds: Commands<H, T>, home: H, s: System<H, T>, t: System<H, T>, e: Event)
    requires Inv(cmds, home, t) && s.home == t.home && s.procs == t.procs
    requires Next(cmds, s, e).Some? && OneInside(Next(cmds, s, e).value)
    ensures var l := if e.AcquireFails? then Acquire(e.pid) else e;
            && Next(cmds, t, l).Some?
            && Next(cmds, t, l).value.home == Next(cmds, s, e).value.home
            && Next(cmds, t, l).value.procs == Next(cmds, s, e).value.procs
  {
    if e.Acquire? || e.AcquireFails? { LockFree(cmds, home, s, t, e); }
  }

  /** Updates are lost only when two processes are inside at once: as long as no two ever
      are, a run without the lock leaves the home as the turns do that it would have had
      with it, one after another. */
  lemma {:induction false} LostOnlyTogether<H, T>(cmds: Commands<H, T>, home: H, pids: set<nat>, events: seq<Event>)
    requires Run(cmds, Start(home, pids), events).Some? && NeverTogether(cmds, Start(home, pids), events)
    ensures Run(cmds, Start(home, pids), Locked(events)).Some?
    ensures var s, t := Run(cmds, Start(home, pids), events).value, Run(cmds, Start(home, pids), Locked(events)).value;
            s.home == t.home == Replay(cmds, home, t.turns) && s.procs == t.procs
  {
    if events != [] {
      var i := |events| - 1;
      LostOnlyTogether(cmds, home, pids, events[..i]);
      RunsInTurn(cmds, home, pids, Locked(events[..i]));
      var s, t := Run(cmds, Start(home, pids), events[..i]).value, Run(cmds, Start(home, pids), Locked(events[..i])).value;
      SameWithLock(cmds, home, s, t, events[i]);
      var l := if events[i].AcquireFails? then Acquire(events[i].pid) else events[i];
      assert Locked(events)[..i] == Locked(events[..i]) && Locked(events)[i] == l;
    }
    RunsInTurn(cmds, home, pids, Locked(events));
  }

  /** A command that reads a set of names and writes the set back with one more. */
  function Adds(name: nat): Command<set<nat>, nat> {
    Command(true, h => false, h => 0, h => 0, [], [(h: set<nat>) => [(now: set<nat>) => h + {name}]])
  }

  function Adders(): Commands<set<nat>, nat> { (p: nat) => Adds(p) }

  lemma EntersAdding(p: nat, home: set<nat>)
    ensures Entering(Adds(p), Nobody, home) == Inside(Nobody, home, 0, Work([], [Do(Adds(p).after[0])], None))
  {
    assert Items<set<nat>, nat>([]) + Items(Adds(p).after) == [Do(Adds(p).after[0])];
  }

  ghost predicate Adding(s: System<set<nat>, nat>, p: nat, w: Work<set<nat>, nat>) {
    p in s.procs && s.procs[p].Inside? && s.procs[p].work == w
  }

  function ToRead(p: nat): Work<set<nat>, nat> { Work([], [Do(Adds(p).after[0])], None) }

  function ToWrite(p: nat, read: set<nat>): Work<set<nat>, nat> { Work([(now: set<nat>) => read + {p}], [], None) }

  /** Both are inside: 0 with the lock, 1 without. */
  lemma BothEnter()
    ensures Run(Adders(), Start({}, {0, 1}), [Acquire(0), AcquireFails(1)]).Some?
    ensures var s := Run(Adders(), Start({}, {0, 1}), [Acquire(0), AcquireFails(1)]).value;
            s.home == {} && s.procs.Keys == {0, 1} && Adding(s, 0, ToRead(0)) && Adding(s, 1, ToRead(1))
  {
    var s0: System<set<nat>, nat> := Start({}, {0, 1});
    EntersAdding(0, {});
    EntersAdding(1, {});
    var s1 := Next(Adders(), s0, Acquire(0)).value;
    RunOne(Adders(), s1, AcquireFails(1), []);
    RunOne(Adders(), s0, Acquire(0), [AcquireFails(1)]);
    assert [AcquireFails(1)] + [] == [AcquireFails(1)];
    assert [Acquire(0)] + [AcquireFails(1)] == [Acquire(0), AcquireFails(1)];
  }

  lemma BothRead(s: System<set<nat>, nat>)
    requires s.procs.Keys == {0, 1} && Adding(s, 0, ToRead(0)) && Adding(s, 1, ToRead(1))
    ensures Run(Adders(), s, [Go(0), Go(1)]).Some?
    ensures var t := Run(Adders(), s, [Go(0), Go(1)]).value;
            && t.home == s.home && t.procs.Keys == {0, 1}
            && Adding(t, 0, ToWrite(0, s.home)) && Adding(t, 1, ToWrite(1, s.home))
  {
    var s1 := Next(Adders(), s, Go(0)).value;
    RunOne(Adders(), s1, Go(1), []);
    RunOne(Adders(), s, Go(0), [Go(1)]);
    assert [Go(1)] + [] == [Go(1)] && [Go(0)] + [Go(1)] == [Go(0), Go(1)];
  }

  lemma BothWrite(s: System<set<nat>, nat>, read: set<nat>)
    requires s.procs.Keys == {0, 1} && Adding(s, 0, ToWrite(0, read)) && Adding(s, 1, ToWrite(1, read))
    ensures Run(Adders(), s, [Go(0), Go(1)]).Some?
    ensures var t := Run(Adders(), s, [Go(0), Go(1)]).value;
            && t.home == read + {1} && t.procs.Keys == {0, 1}
            && forall p :: p in t.procs ==> t.procs[p].Inside? && Finished(t.procs[p].work)
  {
    var s1 := Next(Adders(), s, Go(0)).value;
    RunOne(Adders(), s1, Go(1), []);
    RunOne(Adders(), s, Go(0), [Go(1)]);
    assert [Go(1)] + [] == [Go(1)] && [Go(0)] + [Go(1)] == [Go(0), Go(1)];
  }

  /** And when two are, with a lock that cannot be made and is gone without, an update can
      be lost: both commands read, both write, and the first one's name is gone. */
  lemma LostWithoutLock() returns (events: seq<Event>)
    ensures Run(Adders(), Start({}, {0, 1}), events).Some? && !LockWorks(events)
    ensures var s := Run(Adders(), Start({}, {0, 1}), events).value;
            && s.procs.Keys == {0, 1} && s.home == {1}
            && forall p :: p in s.procs ==> s.procs[p].Inside? && Finished(s.procs[p].work)
  {
    var s0: System<set<nat>, nat> := Start({}, {0, 1});
    var enter, go := [Acquire(0), AcquireFails(1)], [Go(0), Go(1)];
    BothEnter();
    var s1 := Run(Adders(), s0, enter).value;
    BothRead(s1);
    BothWrite(Run(Adders(), s1, go).value, {});
    RunAppend(Adders(), s1, go, go);
    RunAppend(Adders(), s0, enter, go + go);
    events := enter + (go + go);
    assert events[1] == AcquireFails(1);
    assert {} + {1} == {1};
  }
}
