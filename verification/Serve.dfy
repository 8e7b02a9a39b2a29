/** One server per home: the record the running server leaves, the launch that reuses
    it, the restart that hands over to a successor, and the removals that come late. */
module Serve {
  import opened Text

  /** How a server is launched. `pinned` is a port of its own, `remote` a bind beyond
      this machine, `another` a wish for another server. */
  datatype Options = Options(host: string, base: string, readOnly: bool, another: bool, pinned: bool, remote: bool, loopback: bool)

  datatype Phase = Starting | Bound | Recorded | Answering | Gone

  /** `keeps`: whether it leaves a record. `from`: the server it was handed over from. */
  datatype Server = Server(opts: Options, token: nat, port: nat, keeps: bool, from: Option<nat>, phase: Phase)

  /** What the record file holds: where the server is and how to sign in to it. */
  datatype Record = Record(instance: nat, host: string, port: nat, base: string, token: nat, readOnly: bool)

  /** A removal under way: a stopping server's own, or the one after `--stop`. It looks
      whether the record is still its target's, and then removes the file. `stale`: a
      record was written since it looked. */
  datatype Sweep = Sweep(target: nat, checked: bool, stale: bool)

  /** Instances are numbered as they are launched, so each number is fresh. `last` is
      the last server that wrote the record; `late` says that since then a removal ran
      that had looked before. */
  datatype World = World(
    record: Option<Record>,
    servers: seq<Server>,
    sweeps: map<nat, Sweep>,
    last: Option<nat>,
    late: bool)

  datatype Event =
    | Launch(opts: Options, token: nat)
    | Restart(i: nat, opts: Options)
    | Bind(i: nat, port: nat)
    | Write(i: nat)
    | Skip(i: nat)
    | Answer(i: nat)
    | Close(i: nat)
    | Begin(k: nat, target: nat)
    | Look(k: nat)
    | Remove(k: nat)

  predicate Up(p: Phase) { p.Recorded? || p.Answering? }

  predicate HoldsPort(s: Server) { s.phase.Bound? || Up(s.phase) }

  /** A server of the kind the next launch would reuse. */
  predicate DefaultKind(o: Options) { !o.pinned && !o.remote && o.loopback }

  function RecordOf(i: nat, s: Server): Record {
    Record(i, s.opts.host, s.port, s.opts.base, s.token, s.opts.readOnly)
  }

  /** The recorded server still answers, as that instance. */
  predicate Alive(w: World, r: Record) {
    r.instance < |w.servers| && w.servers[r.instance].phase.Answering?
  }

  /** A launch opens the server that is recorded rather than start another. */
  predicate Reuses(w: World, o: Options) {
    && w.record.Some? && Alive(w, w.record.value)
    && !o.another && DefaultKind(o)
    && w.record.value.readOnly == o.readOnly && w.record.value.base == o.base
  }

  predicate PortFree(w: World, port: nat) {
    forall i :: 0 <= i < |w.servers| && HoldsPort(w.servers[i]) ==> w.servers[i].port != port
  }

  function Moved(w: World, i: nat, s: Server): World
    requires i < |w.servers|
  {
    w.(servers := w.servers[i := s])
  }

  /** What an event makes of the home; None when it cannot happen there. A successor
      takes its predecessor's token, port and record choice, and can only listen once
      the port is free. Close is the end of a server, in order or not. */
  function Next(w: World, e: Event): Option<World> {
    match e
    case Launch(o, token) =>
      if Reuses(w, o) then None
      else Some(w.(servers := w.servers + [Server(o, token, 0, DefaultKind(o), None, Starting)]))
    case Restart(i, o) =>
      if !(i < |w.servers| && w.servers[i].phase.Answering?) then None
      else
        var was := w.servers[i];
        Some(w.(servers := w.servers + [Server(o, was.token, was.port, was.keeps, Some(i), Starting)]))
    case Bind(i, port) =>
      if !(i < |w.servers| && w.servers[i].phase.Starting? && PortFree(w, port)) then None
      else if w.servers[i].from.Some? && port != w.servers[i].port then None
      else Some(Moved(w, i, w.servers[i].(port := port, phase := Bound)))
    case Write(i) =>
      if !(i < |w.servers| && w.servers[i].phase.Bound? && w.servers[i].keeps) then None
      else
        var s := w.servers[i].(phase := Recorded);
        Some(Moved(w, i, s).(record := Some(RecordOf(i, s)), last := Some(i), late := false, sweeps := Stale(w.sweeps)))
    case Skip(i) =>
      if !(i < |w.servers| && w.servers[i].phase.Bound?) then None
      else Some(Moved(w, i, w.servers[i].(phase := Recorded)))
    case Answer(i) =>
      if !(i < |w.servers| && w.servers[i].phase.Recorded?) then None
      else Some(Moved(w, i, w.servers[i].(phase := Answering)))
    case Close(i) =>
      if i >= |w.servers| then None else Some(Moved(w, i, w.servers[i].(phase := Gone)))
    case Begin(k, target) =>
      if !(target < |w.servers| && w.servers[target].phase.Gone? && k !in w.sweeps) then None
      else Some(w.(sweeps := w.sweeps[k := Sweep(target, false, false)]))
    case Look(k) =>
      if k !in w.sweeps || w.sweeps[k].checked then None
      else if w.record.Some? && w.record.value.instance == w.sweeps[k].target then
        Some(w.(sweeps := w.sweeps[k := w.sweeps[k].(checked := true, stale := false)]))
      else Some(w.(sweeps := w.sweeps - {k}))
    case Remove(k) =>
      if k !in w.sweeps || !w.sweeps[k].checked then None
      else Some(w.(record := None, sweeps := w.sweeps - {k}, late := w.late || w.sweeps[k].stale))
  }

  function Stale(sweeps: map<nat, Sweep>): map<nat, Sweep> {
    map k | k in sweeps :: sweeps[k].(stale := sweeps[k].checked)
  }

  const EMPTY := World(None, [], map[], None, false)

  function Run(w: World, events: seq<Event>): Option<World> {
    if events == [] then Some(w)
    else
      var before := Run(w, events[..|events| - 1]);
      if before.None? then None else Next(before.value, events[|events| - 1])
  }

  // What every run keeps.

  predicate RecordTrue(w: World) {
    w.record.Some? ==>
      var i := w.record.value.instance;
      w.last == Some(i) && !w.late && i < |w.servers| && w.record.value == RecordOf(i, w.servers[i])
  }

  predicate SweepsFollow(w: World) {
    forall k :: k in w.sweeps ==>
      var sweep := w.sweeps[k];
      && sweep.target < |w.servers| && w.servers[sweep.target].phase.Gone?
      && (sweep.checked && !sweep.stale ==> w.record.None? || w.record.value.instance == sweep.target)
  }

  /** The last server to write is one that wrote; with it running and no record, a late
      removal took the record. */
  predicate LastKept(w: World) {
    w.last.Some? ==>
      && w.last.value < |w.servers| && !w.servers[w.last.value].phase.Starting? && !w.servers[w.last.value].phase.Bound?
      && (Up(w.servers[w.last.value].phase) && w.record.None? ==> w.late)
  }

  predicate Inv(w: World) { RecordTrue(w) && SweepsFollow(w) && LastKept(w) }

  predicate PortsApart(w: World) {
    forall i, j :: 0 <= i < j < |w.servers| && HoldsPort(w.servers[i]) && HoldsPort(w.servers[j]) ==>
      w.servers[i].port != w.servers[j].port
  }

  predicate HandedOver(w: World) {
    forall j :: 0 <= j < |w.servers| && w.servers[j].from.Some? ==>
      && w.servers[j].from.value < j && !w.servers[w.servers[j].from.value].phase.Starting?
      && w.servers[j].token == w.servers[w.servers[j].from.value].token
      && w.servers[j].port == w.servers[w.servers[j].from.value].port
      && w.servers[j].keeps == w.servers[w.servers[j].from.value].keeps
  }

  /** An event changes one server at most, or adds one at the end. */
  lemma ServersStep(w: World, e: Event)
    requires Next(w, e).Some?
    ensures var n := Next(w, e).value;
            && |w.servers| <= |n.servers|
            && (forall i :: 0 <= i < |w.servers| && (e.Launch? || e.Restart? || e.Begin? || e.Look? || e.Remove? || i != e.i) ==>
                  n.servers[i] == w.servers[i])
  {
  }

  lemma PortsStep(w: World, e: Event)
    requires PortsApart(w) && Next(w, e).Some?
    ensures PortsApart(Next(w, e).value)
  {
    ServersStep(w, e);
  }

  lemma HandedStep(w: World, e: Event)
    requires HandedOver(w) && Next(w, e).Some?
    ensures HandedOver(Next(w, e).value)
  {
    ServersStep(w, e);
    var n := Next(w, e).value;
    match e
    case Bind(i, port) =>
      forall j | 0 <= j < |n.servers| && n.servers[j].from.Some?
        ensures n.servers[j].port == n.servers[n.servers[j].from.value].port
      {
        assert n.servers[j].from.value != i;
      }
    case _ =>
  }

  lemma RecordStep(w: World, e: Event)
    requires Inv(w) && Next(w, e).Some?
    ensures RecordTrue(Next(w, e).value)
  {
    ServersStep(w, e);
  }

  lemma SweepsStep(w: World, e: Event)
    requires Inv(w) && Next(w, e).Some?
    ensures SweepsFollow(Next(w, e).value)
  {
    ServersStep(w, e);
  }

  lemma LastStep(w: World, e: Event)
    requires Inv(w) && Next(w, e).Some?
    ensures LastKept(Next(w, e).value)
  {
    ServersStep(w, e);
  }

  lemma InvStep(w: World, e: Event)
    requires Inv(w) && Next(w, e).Some?
    ensures Inv(Next(w, e).value)
  {
    RecordStep(w, e);
    SweepsStep(w, e);
    LastStep(w, e);
  }

  lemma {:induction false} RunKeeps(events: seq<Event>)
    requires Run(EMPTY, events).Some?
    ensures var w := Run(EMPTY, events).value; Inv(w) && PortsApart(w) && HandedOver(w)
  {
    if events != [] {
      var i := |events| - 1;
      RunKeeps(events[..i]);
      var w := Run(EMPTY, events[..i]).value;
      InvStep(w, events[i]);
      PortsStep(w, events[i]);
      HandedStep(w, events[i]);
    }
  }

  /** In every run, as long as the last server that wrote the record is running, the
      record names it, exactly when no removal that had looked before that write came
      after it. */
  lemma RecordNamesLast(events: seq<Event>)
    requires Run(EMPTY, events).Some?
    ensures var w := Run(EMPTY, events).value;
            w.last.Some? && w.last.value < |w.servers| && Up(w.servers[w.last.value].phase) ==>
              (w.record == Some(RecordOf(w.last.value, w.servers[w.last.value])) <==> !w.late)
    ensures var w := Run(EMPTY, events).value;
            w.record.Some? ==>
              var r := w.record.value;
              && w.last == Some(r.instance) && r.instance < |w.servers|
              && var s := w.servers[r.instance];
              r.host == s.opts.host && r.base == s.opts.base && r.port == s.port && r.token == s.token && r.readOnly == s.opts.readOnly
  {
    RunKeeps(events);
  }

  /** Looking and removing are one step. */
  predicate Atomic(events: seq<Event>) {
    forall i :: 0 <= i < |events| && events[i].Remove? ==> i > 0 && events[i - 1] == Look(events[i].k)
  }

  /** Then no removal is ever late. */
  lemma {:induction false} NeverLate(events: seq<Event>)
    requires Run(EMPTY, events).Some? && Atomic(events)
    ensures !Run(EMPTY, events).value.late
  {
    if events != [] {
      var i := |events| - 1;
      NeverLate(events[..i]);
      if events[i].Remove? {
        assert events[..i][i - 1] == Look(events[i].k);
      }
    }
  }

  // Handing over.

  /** The server a chain of hand-overs began with. */
  function Root(servers: seq<Server>, i: nat): nat
    requires i < |servers|
    decreases i
  {
    match servers[i].from
    case None => i
    case Some(p) => if p < i then Root(servers, p) else i
  }

  /** Every server up the chain was launched for the same host and base path. */
  predicate SamePlace(servers: seq<Server>, i: nat)
    requires i < |servers|
    decreases i
  {
    match servers[i].from
    case None => true
    case Some(p) =>
      p < i ==> servers[p].opts.host == servers[i].opts.host && servers[p].opts.base == servers[i].opts.base && SamePlace(servers, p)
  }

  lemma {:induction false} FromRoot(w: World, i: nat)
    requires HandedOver(w) && i < |w.servers|
    ensures var root := Root(w.servers, i);
            && root < |w.servers| && w.servers[root].from.None?
            && w.servers[i].token == w.servers[root].token && w.servers[i].port == w.servers[root].port
            && w.servers[i].keeps == w.servers[root].keeps
            && (SamePlace(w.servers, i) ==>
                  w.servers[i].opts.host == w.servers[root].opts.host && w.servers[i].opts.base == w.servers[root].opts.base)
    decreases i
  {
    if w.servers[i].from.Some? { FromRoot(w, w.servers[i].from.value); }
  }

  /** However often a server was restarted, the record of its latest successor has the
      address and the token of the first: the page that was open still signs in. */
  lemma AddressKept(events: seq<Event>)
    requires Run(EMPTY, events).Some? && Run(EMPTY, events).value.record.Some?
    ensures var w := Run(EMPTY, events).value;
            var r := w.record.value;
            && r.instance < |w.servers|
            && var root := Root(w.servers, r.instance);
            && root < |w.servers| && r.port == w.servers[root].port && r.token == w.servers[root].token
            && (SamePlace(w.servers, r.instance) ==>
                  r == RecordOf(root, w.servers[root]).(instance := r.instance, readOnly := r.readOnly))
  {
    RunKeeps(events);
    var w := Run(EMPTY, events).value;
    FromRoot(w, w.record.value.instance);
  }

  /** In every run, a launch starts no other server exactly when the one that wrote the
      record last answers, its record was not removed late, and the launch is a default one
      for its base path and as read-only as it. */
  lemma LaunchReuses(events: seq<Event>, o: Options, token: nat)
    requires Run(EMPTY, events).Some?
    ensures var w := Run(EMPTY, events).value;
            Next(w, Launch(o, token)).None? <==>
            && w.last.Some? && w.last.value < |w.servers| && w.servers[w.last.value].phase == Answering && !w.late
            && !o.another && !o.pinned && !o.remote && o.loopback
            && w.servers[w.last.value].opts.base == o.base && w.servers[w.last.value].opts.readOnly == o.readOnly
  {
    RunKeeps(events);
  }

  // One server at a time.

  predicate SameKind(a: Options, b: Options) { a.readOnly == b.readOnly && a.base == b.base }

  /** What can let a second default server start: a launch that looks while another is
      between its look and its first answer, a record removed late, a launch that asks for
      another server, one of another kind, and a server that could not be recorded. */
  datatype Lapse = InFlight | Late | Another | OtherKind | Unrecorded

  /** No default server is between its launch and its first answer. */
  predicate Settled(w: World) {
    forall i :: 0 <= i < |w.servers| && w.servers[i].keeps ==> w.servers[i].phase.Answering? || w.servers[i].phase.Gone?
  }

  /** e is none of these lapses, but for those allowed. */
  predicate Meets(w: World, e: Event, kind: Options, but: set<Lapse>) {
    match e
    case Launch(o, _) =>
      DefaultKind(o) ==>
        && (InFlight in but || Settled(w)) && (Late in but || !w.late) && (Another in but || !o.another)
        && (OtherKind in but || SameKind(o, kind))
    case Restart(i, o) => OtherKind in but || (i < |w.servers| && w.servers[i].keeps ==> SameKind(o, kind))
    case Skip(i) => Unrecorded in but || (i < |w.servers| ==> !w.servers[i].keeps)
    case _ => true
  }

  predicate Calm(events: seq<Event>, kind: Options, but: set<Lapse>) {
    events != [] ==>
      var i := |events| - 1;
      && Calm(events[..i], kind, but)
      && (Run(EMPTY, events[..i]).Some? ==> Meets(Run(EMPTY, events[..i]).value, events[i], kind, but))
  }

  predicate LiveDefault(w: World, i: int) { 0 <= i < |w.servers| && w.servers[i].keeps && !w.servers[i].phase.Gone? }

  /** Two default servers that are not gone are one handed over to the other, for one port. */
  ghost predicate OneFamily(w: World) {
    forall i, j :: LiveDefault(w, i) && LiveDefault(w, j) && i != j ==>
      w.servers[i].port == w.servers[j].port && (w.servers[i].phase.Starting? ==> w.servers[i].from.Some?)
  }

  /** A default server that is up is the last to have written the record, and of the kind. */
  predicate UpIsLast(w: World, kind: Options) {
    forall i :: 0 <= i < |w.servers| && w.servers[i].keeps ==>
      SameKind(w.servers[i].opts, kind) && (Up(w.servers[i].phase) ==> w.last == Some(i))
  }

  ghost predicate Alone(w: World, kind: Options) { OneFamily(w) && UpIsLast(w, kind) }

  lemma AnsweringIsReused(w: World, o: Options, i: nat, kind: Options)
    requires Inv(w) && UpIsLast(w, kind) && i < |w.servers| && w.servers[i].keeps && w.servers[i].phase.Answering?
    requires DefaultKind(o) && !o.another && !w.late && SameKind(o, kind)
    ensures Reuses(w, o)
  {
    assert w.last == Some(i);
  }

  /** A calm launch that starts a default server finds none that is left. */
  lemma LaunchAlone(w: World, o: Options, token: nat, kind: Options)
    requires Inv(w) && Alone(w, kind) && DefaultKind(o) && Meets(w, Launch(o, token), kind, {}) && Next(w, Launch(o, token)).Some?
    ensures forall i :: !LiveDefault(w, i)
  {
    forall i ensures !LiveDefault(w, i) {
      if LiveDefault(w, i) { AnsweringIsReused(w, o, i, kind); }
    }
  }

  lemma LaunchKeepsAlone(w: World, o: Options, token: nat, kind: Options)
    requires Inv(w) && Alone(w, kind) && Meets(w, Launch(o, token), kind, {}) && Next(w, Launch(o, token)).Some?
    ensures Alone(Next(w, Launch(o, token)).value, kind)
  {
    var n := Next(w, Launch(o, token)).value;
    if DefaultKind(o) { LaunchAlone(w, o, token, kind); }
    assert forall i :: LiveDefault(n, i) && i != |w.servers| ==> LiveDefault(w, i);
    assert !DefaultKind(o) ==> !LiveDefault(n, |w.servers|);
  }

  lemma WriteKeepsAlone(w: World, i: nat, kind: Options)
    requires PortsApart(w) && Alone(w, kind) && Next(w, Write(i)).Some?
    ensures Alone(Next(w, Write(i)).value, kind)
  {
    var n := Next(w, Write(i)).value;
    forall j | 0 <= j < |w.servers| && w.servers[j].keeps && j != i ensures !Up(w.servers[j].phase) {
      assert LiveDefault(w, i) && (Up(w.servers[j].phase) ==> LiveDefault(w, j));
    }
    assert forall j :: LiveDefault(n, j) ==> LiveDefault(w, j);
  }

  lemma MoveKeepsFamily(w: World, e: Event)
    requires OneFamily(w) && Next(w, e).Some? && (e.Bind? || e.Skip? || e.Answer? || e.Close?)
    ensures OneFamily(Next(w, e).value)
  {
    var n := Next(w, e).value;
    assert forall j :: LiveDefault(n, j) ==> LiveDefault(w, j);
  }

  lemma MoveKeepsLast(w: World, e: Event, kind: Options)
    requires UpIsLast(w, kind) && Meets(w, e, kind, {}) && Next(w, e).Some? && (e.Bind? || e.Skip? || e.Answer? || e.Close?)
    ensures UpIsLast(Next(w, e).value, kind)
  {
  }

  lemma AloneStep(w: World, e: Event, kind: Options)
    requires Inv(w) && PortsApart(w) && Alone(w, kind) && Meets(w, e, kind, {}) && Next(w, e).Some?
    ensures Alone(Next(w, e).value, kind)
  {
    match e
    case Launch(o, token) => LaunchKeepsAlone(w, o, token, kind);
    case Write(i) => WriteKeepsAlone(w, i, kind);
    case Restart(i, o) =>
      RestartFamily(w, i, o);
      ServersStep(w, e);
    case Bind(_, _) | Skip(_) | Answer(_) | Close(_) =>
      MoveKeepsFamily(w, e);
      MoveKeepsLast(w, e, kind);
    case _ => ServersStep(w, e);
  }

  lemma RestartFamily(w: World, i: nat, o: Options)
    requires OneFamily(w) && Next(w, Restart(i, o)).Some?
    ensures OneFamily(Next(w, Restart(i, o)).value)
  {
    var n := Next(w, Restart(i, o)).value;
    forall a, b | LiveDefault(n, a) && LiveDefault(n, b) && a != b
      ensures n.servers[a].port == n.servers[b].port && (n.servers[a].phase.Starting? ==> n.servers[a].from.Some?)
    {
      var x, y := if a == |w.servers| then i else a, if b == |w.servers| then i else b;
      assert LiveDefault(w, x) && LiveDefault(w, y);
    }
  }

  lemma {:induction false} CalmAlone(events: seq<Event>, kind: Options)
    requires Run(EMPTY, events).Some? && Calm(events, kind, {})
    ensures Alone(Run(EMPTY, events).value, kind)
  {
    if events != [] {
      var i := |events| - 1;
      CalmAlone(events[..i], kind);
      RunKeeps(events[..i]);
      AloneStep(Run(EMPTY, events[..i]).value, events[i], kind);
    }
  }

  /** Two default servers answer. */
  ghost predicate Two(w: World) {
    exists i, j :: 0 <= i < j < |w.servers| && w.servers[i].keeps && w.servers[j].keeps
      && w.servers[i].phase.Answering? && w.servers[j].phase.Answering?
  }

  /** In every run without a lapse, however many launches, restarts, stops and crashes,
      one default server answers at most. */
  lemma OneAtATime(events: seq<Event>, kind: Options)
    requires Run(EMPTY, events).Some? && Calm(events, kind, {})
    ensures !Two(Run(EMPTY, events).value)
  {
    CalmAlone(events, kind);
  }

  // What can go wrong.

  lemma RunStep(events: seq<Event>, e: Event)
    requires Run(EMPTY, events).Some? && Next(Run(EMPTY, events).value, e).Some?
    ensures Run(EMPTY, events + [e]) == Next(Run(EMPTY, events).value, e)
  {
    assert (events + [e])[..|events|] == events;
  }

  /** From any run whose recorded server answers, a restart can lose the record: the
      old server looks, its successor writes, and then the old server removes. */
  lemma LateRemoval(events: seq<Event>, i: nat, o: Options) returns (more: seq<Event>)
    requires Run(EMPTY, events).Some?
    requires var w := Run(EMPTY, events).value;
             && w.record.Some? && w.record.value.instance == i && i < |w.servers|
             && w.servers[i].phase.Answering? && w.servers[i].keeps
    ensures Run(EMPTY, events + more).Some?
    ensures var w := Run(EMPTY, events + more).value;
            && w.record.None? && w.late && w.last.Some? && w.last.value < |w.servers|
            && Up(w.servers[w.last.value].phase) && w.servers[w.last.value].from == Some(i)
  {
    RunKeeps(events);
    var w := Run(EMPTY, events).value;
    var j, port := |w.servers|, w.servers[i].port;
    var k := FreshKey(w.sweeps.Keys);
    var w1 := Next(w, Restart(i, o)).value;
    var w2 := Next(w1, Close(i)).value;
    var w3 := Next(w2, Begin(k, i)).value;
    var w4 := Next(w3, Look(k)).value;
    assert w4.sweeps[k] == Sweep(i, true, false);
    assert PortFree(w4, port);
    var w5 := Next(w4, Bind(j, port)).value;
    var w6 := Next(w5, Write(j)).value;
    var w7 := Next(w6, Remove(k)).value;
    assert events + [] == events;
    more := Extend(events, [], w, Restart(i, o), w1);
    more := Extend(events, more, w1, Close(i), w2);
    more := Extend(events, more, w2, Begin(k, i), w3);
    more := Extend(events, more, w3, Look(k), w4);
    more := Extend(events, more, w4, Bind(j, port), w5);
    more := Extend(events, more, w5, Write(j), w6);
    more := Extend(events, more, w6, Remove(k), w7);
  }

  lemma Extend(events: seq<Event>, more: seq<Event>, w: World, e: Event, next: World) returns (longer: seq<Event>)
    requires Run(EMPTY, events + more) == Some(w) && Next(w, e) == Some(next)
    ensures longer == more + [e] && Run(EMPTY, events + longer) == Some(next)
  {
    longer := more + [e];
    RunStep(events + more, e);
    assert events + longer == events + more + [e];
  }

  /** Goes on with e. */
  lemma GoOn(events: seq<Event>, w: World, e: Event, kind: Options, but: set<Lapse>) returns (more: seq<Event>, next: World)
    requires Run(EMPTY, events) == Some(w) && Calm(events, kind, but) && Next(w, e).Some? && Meets(w, e, kind, but)
    ensures more == events + [e] && next == Next(w, e).value && Run(EMPTY, more) == Some(next) && Calm(more, kind, but)
  {
    more, next := events + [e], Next(w, e).value;
    RunStep(events, e);
    assert more[..|events|] == events;
  }

  /** A launched server comes to answer, recorded or not. */
  lemma ComesUp(events: seq<Event>, w: World, i: nat, port: nat, recorded: bool, kind: Options, but: set<Lapse>)
    returns (more: seq<Event>, next: World)
    requires Run(EMPTY, events) == Some(w) && Calm(events, kind, but)
    requires i < |w.servers| && w.servers[i].phase.Starting? && w.servers[i].keeps && PortFree(w, port)
    requires w.servers[i].from.Some? ==> port == w.servers[i].port
    requires recorded || Unrecorded in but
    ensures Run(EMPTY, more) == Some(next) && Calm(more, kind, but)
    ensures next.servers == w.servers[i := w.servers[i].(port := port, phase := Answering)]
    ensures next.late == (if recorded then false else w.late) && next.sweeps == if recorded then Stale(w.sweeps) else w.sweeps
    ensures next.last == (if recorded then Some(i) else w.last) && (!recorded ==> next.record == w.record)
    ensures recorded ==> next.record == Some(RecordOf(i, next.servers[i]))
  {
    var e1, w1 := GoOn(events, w, Bind(i, port), kind, but);
    var e2, w2 := GoOn(e1, w1, if recorded then Write(i) else Skip(i), kind, but);
    more, next := GoOn(e2, w2, Answer(i), kind, but);
  }

  /** Wherever a launch that keeps a record can start a server beside one that answers,
      two come to answer. */
  lemma StartsSecond(events: seq<Event>, w: World, i: nat, o: Options, port: nat, kind: Options, but: set<Lapse>)
    returns (more: seq<Event>)
    requires Run(EMPTY, events) == Some(w) && Calm(events, kind, but)
    requires i < |w.servers| && w.servers[i].keeps && w.servers[i].phase.Answering? && PortFree(w, port)
    requires DefaultKind(o) && Next(w, Launch(o, 0)).Some? && Meets(w, Launch(o, 0), kind, but)
    ensures Run(EMPTY, more).Some? && Calm(more, kind, but) && Two(Run(EMPTY, more).value)
  {
    var e1, w1 := GoOn(events, w, Launch(o, 0), kind, but);
    var n := |w.servers|;
    var e2, w2 := ComesUp(e1, w1, n, port, true, kind, but);
    more := e2;
    assert w2.servers[i] == w.servers[i] && w2.servers[n].phase.Answering? && w2.servers[n].keeps;
  }

  /** The first server of a home. */
  lemma First(o: Options, port: nat, recorded: bool, kind: Options, but: set<Lapse>) returns (events: seq<Event>, w: World)
    requires DefaultKind(o) && !o.another && SameKind(o, kind) && (recorded || Unrecorded in but)
    ensures Run(EMPTY, events) == Some(w) && Calm(events, kind, but)
    ensures w.servers == [Server(o, 0, port, true, None, Answering)] && !w.late && w.sweeps == map[]
    ensures recorded ==> w.last == Some(0) && w.record == Some(RecordOf(0, w.servers[0]))
    ensures !recorded ==> w.record.None?
  {
    var e1, w1 := GoOn([], EMPTY, Launch(o, 0), kind, but);
    events, w := ComesUp(e1, w1, 0, port, recorded, kind, but);
  }

  /** Both launches look before either has answered. */
  lemma BothLook(o: Options, port: nat) returns (events: seq<Event>)
    requires DefaultKind(o) && !o.another
    ensures Run(EMPTY, events).Some? && Calm(events, o, {InFlight}) && Two(Run(EMPTY, events).value)
  {
    var but := {InFlight};
    var e1, w1 := GoOn([], EMPTY, Launch(o, 0), o, but);
    var e2, w2 := GoOn(e1, w1, Launch(o, 1), o, but);
    var e3, w3 := ComesUp(e2, w2, 0, port, true, o, but);
    var e4, w4 := ComesUp(e3, w3, 1, port + 1, true, o, but);
    events := e4;
    assert w4.servers[0].phase.Answering? && w4.servers[1].phase.Answering?;
  }

  /** A restart: the old server looks at the record as it goes. */
  lemma LookedAt(o: Options, port: nat) returns (events: seq<Event>, w: World)
    requires DefaultKind(o) && !o.another
    ensures Run(EMPTY, events) == Some(w) && Calm(events, o, {Late})
    ensures |w.servers| == 2 && w.servers[0].phase.Gone? && w.servers[1] == Server(o, 0, port, true, Some(0), Starting)
    ensures w.sweeps == map[0 := Sweep(0, true, false)]
  {
    var but := {Late};
    var e0, w0 := First(o, port, true, o, but);
    var e1, w1 := GoOn(e0, w0, Restart(0, o), o, but);
    var e2, w2 := GoOn(e1, w1, Close(0), o, but);
    var e3, w3 := GoOn(e2, w2, Begin(0, 0), o, but);
    events, w := GoOn(e3, w3, Look(0), o, but);
  }

  /** Its late removal, and then a launch. */
  lemma AfterLate(o: Options, port: nat) returns (events: seq<Event>)
    requires DefaultKind(o) && !o.another
    ensures Run(EMPTY, events).Some? && Calm(events, o, {Late}) && Two(Run(EMPTY, events).value)
  {
    var e4, w4 := LookedAt(o, port);
    var e5, w5 := ComesUp(e4, w4, 1, port, true, o, {Late});
    assert w5.sweeps[0] == Sweep(0, true, true);
    var e6, w6 := GoOn(e5, w5, Remove(0), o, {Late});
    events := StartsSecond(e6, w6, 1, o, port + 1, o, {Late});
  }

  /** None of the conditions can be left out: with any one lapse allowed, and no other, two
      default servers can answer at once. */
  lemma EachLapseTells(lapse: Lapse, o: Options, port: nat) returns (events: seq<Event>)
    requires DefaultKind(o) && !o.another
    ensures Run(EMPTY, events).Some? && Calm(events, o, {lapse}) && Two(Run(EMPTY, events).value)
  {
    match lapse
    case InFlight => events := BothLook(o, port);
    case Late => events := AfterLate(o, port);
    case Another =>
      var e, w := First(o, port, true, o, {lapse});
      events := StartsSecond(e, w, 0, o.(another := true), port + 1, o, {lapse});
    case OtherKind =>
      var e, w := First(o, port, true, o, {lapse});
      events := StartsSecond(e, w, 0, o.(readOnly := !o.readOnly), port + 1, o, {lapse});
    case Unrecorded =>
      var e, w := First(o, port, false, o, {lapse});
      events := StartsSecond(e, w, 0, o, port + 1, o, {lapse});
  }

  lemma {:induction false} FreshKey(keys: set<nat>) returns (k: nat)
    ensures k !in keys && forall i :: i in keys ==> i < k
  {
    k := 0;
    if keys != {} {
      var i :| i in keys;
      k := FreshKey(keys - {i});
      if k <= i { k := i + 1; }
      assert forall j :: j in keys ==> j == i || j in keys - {i};
    }
  }
}
