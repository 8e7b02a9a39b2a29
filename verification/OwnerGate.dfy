/** What stands between a request and a change: the host, the session, the form
    token, the PIN at sign-in and the PIN again on a change. Times are in seconds. */
module OwnerGate {
  import opened Text
  import opened Sessions

  const WINDOW := 300

  // The PIN and its lockout.

  const FREE_ATTEMPTS := 5
  const LOCKOUT_BASE := 30
  const LOCKOUT_MAX := 900

  /** The owner file: none, one that cannot be read, one with no PIN, one with a PIN. */
  datatype OwnerFile = NoFile | Unreadable | NoPin | Pin(pin: string)

  /** Wrong PINs in a row, and until when no PIN is looked at. */
  datatype Attempts = Attempts(failures: nat, until: Option<int>)

  datatype PinAnswer = Right | Wrong | TooMany(until: int) | CannotCheck

  /** The wait after n wrong PINs in a row: doubling, with a ceiling. */
  function Wait(n: nat): (d: nat)
    ensures d <= LOCKOUT_MAX && (n < FREE_ATTEMPTS ==> d == 0) && (n >= FREE_ATTEMPTS ==> d >= LOCKOUT_BASE)
  {
    if n < FREE_ATTEMPTS then 0
    else if n == FREE_ATTEMPTS then LOCKOUT_BASE
    else if Wait(n - 1) * 2 > LOCKOUT_MAX then LOCKOUT_MAX
    else Wait(n - 1) * 2
  }

  method Lockout(n: nat) returns (d: nat)
    ensures d == Wait(n)
  {
    if n < FREE_ATTEMPTS { return 0; }
    d := LOCKOUT_BASE;
    var i := FREE_ATTEMPTS;
    while i < n && d < LOCKOUT_MAX
      invariant FREE_ATTEMPTS <= i <= n
      invariant d >= LOCKOUT_BASE && Wait(i) == if d < LOCKOUT_MAX then d else LOCKOUT_MAX
    {
      d := d * 2;
      i := i + 1;
    }
    if i < n { StaysAtMax(i, n); }
    if d > LOCKOUT_MAX { d := LOCKOUT_MAX; }
  }

  lemma {:induction false} StaysAtMax(i: nat, n: nat)
    requires FREE_ATTEMPTS <= i <= n && Wait(i) == LOCKOUT_MAX
    ensures Wait(n) == LOCKOUT_MAX
  {
    if i < n { StaysAtMax(i, n - 1); }
  }

  /** One PIN looked at. */
  function Checked(f: OwnerFile, a: Attempts, pin: string, now: int): (PinAnswer, Attempts) {
    if !f.Pin? then (CannotCheck, a)
    else if a.until.Some? && now < a.until.value then (TooMany(a.until.value), a)
    else if pin == f.pin then (Right, Attempts(0, None))
    else
      var n := a.failures + 1;
      var until := if Wait(n) > 0 then Some(now + Wait(n)) else a.until;
      (if until.Some? && now < until.value then TooMany(until.value) else Wrong, Attempts(n, until))
  }

  // Requests.

  datatype Method = Get | Head | Options | Post | OtherMethod

  datatype Path = Asset | Healthz | Unlock | ApplyChange | StartJob | Elsewhere

  /** Where the browser says the request came from. */
  datatype Origin = Missing | NullOrigin | Unusable | From(host: string)

  datatype Request = Request(
    meth: Method, path: Path, host: string, origin: Origin, fetchSameOrigin: bool,
    cookie: Option<string>, token: string, csrf: string, pin: string, formOk: bool)

  /** What the server was started with. */
  datatype Config = Config(hosts: seq<string>, token: string, readOnly: bool)

  datatype Response =
    | Misdirected | Health | Unauthorized | SignedIn(id: string)
    | CrossOrigin | StaleForm | Locked | ToUnlock
    | Page | UnlockPage(answer: PinAnswer) | Unlocked | NotRouted | BadForm | Refused(answer: PinAnswer) | Made

  /** What happened in a session: it gave the right PIN, was served a route, or had a
      change or a job made. `required`: a PIN was set then. */
  datatype Entry =
    | Gave(id: string, at: int)
    | Routed(session: Option<string>, path: Path, required: bool)
    | Changed(session: Option<string>, at_: int, required: bool)

  datatype World = World(sessions: map<string, State>, owner: OwnerFile, attempts: Attempts, log: seq<Entry>)

  /** A file that cannot be read asks for the PIN as one with a PIN does. */
  predicate PinRequired(f: OwnerFile) { f.Unreadable? || f.Pin? }

  predicate IsLocked(w: World, id: string)
    requires id in w.sessions
  {
    w.sessions[id].unlocked.None? && PinRequired(w.owner)
  }

  /** A session that never gave the PIN gave it longer ago than any window. */
  predicate NeedsStepUp(w: World, id: string, now: int)
    requires id in w.sessions
  {
    PinRequired(w.owner) && (w.sessions[id].stepped.None? || now - w.sessions[id].stepped.value > WINDOW)
  }

  /** The PIN checked for a session; the right one unlocks it. */
  function CheckPin(w: World, id: string, pin: string, now: int): (PinAnswer, World)
    requires id in w.sessions
  {
    if pin == "" then (Wrong, w)
    else
      var (answer, attempts) := Checked(w.owner, w.attempts, pin, now);
      if answer.Right? then
        (Right, w.(attempts := attempts, sessions := w.sessions[id := Sessions.Unlocked(w.sessions[id], now)],
                   log := w.log + [Gave(id, now)]))
      else (answer, w.(attempts := attempts))
  }

  predicate SameFold(a: string, b: string) {
    |a| == |b| && forall i :: 0 <= i < |a| ==> Lower(a[i]) == Lower(b[i])
  }

  lemma FoldExactly(a: string, b: string)
    ensures SameFold(a, b) <==> LowerAll(a) == LowerAll(b)
  {
    if LowerAll(a) == LowerAll(b) {
      assert |a| == |LowerAll(a)| == |b|;
      forall i | 0 <= i < |a| ensures Lower(a[i]) == Lower(b[i]) { assert LowerAll(a)[i] == LowerAll(b)[i]; }
    }
  }

  predicate HostAllowed(c: Config, host: string) { exists h :: h in c.hosts && SameFold(h, host) }

  predicate OriginAllowed(c: Config, r: Request) {
    match r.origin
    case Missing => r.fetchSameOrigin
    case NullOrigin => false
    case Unusable => false
    case From(host) => HostAllowed(c, host) && SameFold(host, r.host)
  }

  predicate ReadsOnly(m: Method) { m.Get? || m.Head? }

  /** What the code decides about a request, outermost guard first. `newId` and
      `newCsrf` are the random tokens a sign-in makes, and `kept` what is left of the
      table when there is room for it. */
  function Handle(c: Config, w: World, r: Request, now: int, newId: string, newCsrf: string, kept: map<string, State>)
    : (Response, World)
  {
    if !HostAllowed(c, r.host) then (Misdirected, w)
    else if r.path.Asset? then SameOrigin(c, w, r, now, None)
    else if r.path.Healthz? && ReadsOnly(r.meth) then (Health, w)
    else
      var signedIn := r.cookie.Some? && r.cookie.value in w.sessions;
      var token := if r.token != c.token && signedIn then "" else r.token;
      if token != "" then
        if token != c.token || !ReadsOnly(r.meth) then (Unauthorized, w)
        else (SignedIn(newId), w.(sessions := kept[newId := State(newCsrf, now, None, None)]))
      else if !signedIn then (Unauthorized, w)
      else SameOrigin(c, w, r, now, r.cookie)
  }

  predicate Known(w: World, session: Option<string>) { session.Some? ==> session.value in w.sessions }

  function SameOrigin(c: Config, w: World, r: Request, now: int, session: Option<string>): (Response, World)
    requires Known(w, session)
  {
    if ReadsOnly(r.meth) || r.meth.Options? then RequireUnlock(c, w, r, now, session)
    else if !OriginAllowed(c, r) then (CrossOrigin, w)
    else if session.None? || r.csrf != w.sessions[session.value].csrf then (StaleForm, w)
    else RequireUnlock(c, w, r, now, session)
  }

  function RequireUnlock(c: Config, w: World, r: Request, now: int, session: Option<string>): (Response, World)
    requires Known(w, session)
  {
    if r.path.Unlock? || session.None? || !IsLocked(w, session.value) then
      Route(c, w.(log := w.log + [Routed(session, r.path, PinRequired(w.owner))]), r, now, session)
    else if !ReadsOnly(r.meth) then (Locked, w)
    else (ToUnlock, w)
  }

  function Route(c: Config, w: World, r: Request, now: int, session: Option<string>): (Response, World)
    requires Known(w, session)
  {
    match r.path
    case Unlock => if ReadsOnly(r.meth) || r.meth.Post? then HandleUnlock(w, r, now, session) else (NotRouted, w)
    case ApplyChange => if r.meth.Post? && !c.readOnly then Change(w, r, now, session) else (NotRouted, w)
    case StartJob => if r.meth.Post? && !c.readOnly then Change(w, r, now, session) else (NotRouted, w)
    case _ => (Page, w)
  }

  function HandleUnlock(w: World, r: Request, now: int, session: Option<string>): (Response, World)
    requires Known(w, session)
  {
    if session.None? || !IsLocked(w, session.value) then (Unlocked, w)
    else if !r.meth.Post? then (UnlockPage(Wrong), w)
    else
      var (answer, after) := CheckPin(w, session.value, r.pin, now);
      (if answer.Right? then Unlocked else UnlockPage(answer), after)
  }

  /** A confirmed change or a job: its form, then the PIN again, then it is made. */
  function Change(w: World, r: Request, now: int, session: Option<string>): (Response, World)
    requires Known(w, session)
  {
    if !r.formOk then (BadForm, w)
    else if session.None? || !NeedsStepUp(w, session.value, now) then
      (Made, w.(log := w.log + [Changed(session, now, PinRequired(w.owner))]))
    else
      var (answer, after) := CheckPin(w, session.value, r.pin, now);
      if answer.Right? then (Made, after.(log := after.log + [Changed(session, now, PinRequired(w.owner))]))
      else (Refused(answer), after)
  }

  // Every run of the server.

  /** A request with its time, or the home's owner file or wrong-PIN count as another
      command leaves it. */
  datatype Event =
    | Asks(request: Request, now: int, newId: string, newCsrf: string, kept: map<string, State>)
    | OwnerChanges(owner: OwnerFile)
    | AttemptsChange(attempts: Attempts)

  function Next(c: Config, w: World, e: Event): World {
    match e
    case Asks(r, now, id, csrf, kept) => Handle(c, w, r, now, id, csrf, kept).1
    case OwnerChanges(owner) => w.(owner := owner)
    case AttemptsChange(a) => w.(attempts := a)
  }

  /** id never gave the PIN, was never served and never changed anything. */
  predicate Unseen(log: seq<Entry>, id: string) {
    forall i :: 0 <= i < |log| ==> !log[i].Gave? || log[i].id != id
  }

  /** Sign-ins use ids that are new, and leave the rest of the table as it was, less an
      evicted session. */
  ghost predicate Allowed(w: World, e: Event) {
    e.Asks? ==>
      && e.newId !in w.sessions && Unseen(w.log, e.newId)
      && Room(w.sessions, e.kept)
  }

  /** When id last gave the right PIN, if it did. */
  function LastGave(log: seq<Entry>, id: string): Option<int> {
    if log == [] then None
    else
      var e := log[|log| - 1];
      if e.Gave? && e.id == id then Some(e.at) else LastGave(log[..|log| - 1], id)
  }

  /** Every change so far, with a PIN set, was made in a session that had last given
      the right PIN within the window; every route served to a session that never had
      was the unlock page; and without a session only assets were. */
  ghost predicate Guarded(log: seq<Entry>) {
    forall i :: 0 <= i < |log| ==> EntryGuarded(log[..i], log[i])
  }

  predicate EntryGuarded(before: seq<Entry>, e: Entry) {
    match e
    case Gave(_, _) => true
    case Routed(session, path, required) =>
      && (session.None? ==> path.Asset?)
      && (session.Some? && required && LastGave(before, session.value).None? ==> path.Unlock?)
    case Changed(session, at, required) =>
      && session.Some?
      && (required ==> LastGave(before, session.value).Some? && at - LastGave(before, session.value).value <= WINDOW)
  }

  /** What the session table says of the PIN is what happened. */
  ghost predicate Remembers(w: World) {
    forall id :: id in w.sessions ==>
      && w.sessions[id].stepped == LastGave(w.log, id)
      && (w.sessions[id].unlocked.Some? <==> LastGave(w.log, id).Some?)
  }

  lemma {:induction false} UnseenNever(log: seq<Entry>, id: string)
    requires Unseen(log, id)
    ensures LastGave(log, id).None?
  {
    if log != [] { UnseenNever(log[..|log| - 1], id); }
  }

  lemma Logged(log: seq<Entry>, e: Entry)
    requires Guarded(log) && EntryGuarded(log, e)
    ensures Guarded(log + [e])
    ensures forall id :: LastGave(log + [e], id) == if e.Gave? && e.id == id then Some(e.at) else LastGave(log, id)
  {
    var longer := log + [e];
    assert longer[..|log|] == log;
    forall i | 0 <= i < |longer| ensures EntryGuarded(longer[..i], longer[i]) {
      if i < |log| { assert longer[..i] == log[..i]; }
    }
  }

  ghost predicate Inv(w: World) { Guarded(w.log) && Remembers(w) }

  lemma CheckPinKeeps(w: World, id: string, pin: string, now: int)
    requires Inv(w) && id in w.sessions
    ensures var (answer, after) := CheckPin(w, id, pin, now);
            && Inv(after) && after.sessions.Keys == w.sessions.Keys && after.owner == w.owner
            && (answer.Right? ==> LastGave(after.log, id) == Some(now) && w.owner == Pin(pin) && pin != "")
  {
    Logged(w.log, Gave(id, now));
  }

  lemma ChangeKeeps(w: World, r: Request, now: int, session: Option<string>)
    requires Inv(w) && Known(w, session) && session.Some?
    ensures Inv(Change(w, r, now, session).1)
  {
    if r.formOk {
      var id := session.value;
      CheckPinKeeps(w, id, r.pin, now);
      var at := if NeedsStepUp(w, id, now) then CheckPin(w, id, r.pin, now).1 else w;
      if !NeedsStepUp(w, id, now) || CheckPin(w, id, r.pin, now).0.Right? {
        Logged(at.log, Changed(session, now, PinRequired(w.owner)));
      }
    }
  }

  lemma RequireUnlockKeeps(c: Config, w: World, r: Request, now: int, session: Option<string>)
    requires Inv(w) && Known(w, session) && (session.None? ==> r.path.Asset?)
    ensures Inv(RequireUnlock(c, w, r, now, session).1)
  {
    if r.path.Unlock? || session.None? || !IsLocked(w, session.value) {
      Logged(w.log, Routed(session, r.path, PinRequired(w.owner)));
      var w1 := w.(log := w.log + [Routed(session, r.path, PinRequired(w.owner))]);
      assert Inv(w1);
      if r.path.Unlock? && session.Some? { CheckPinKeeps(w1, session.value, r.pin, now); }
      if (r.path.ApplyChange? || r.path.StartJob?) && session.Some? { ChangeKeeps(w1, r, now, session); }
    }
  }

  lemma SignInKeeps(w: World, now: int, id: string, csrf: string, kept: map<string, State>)
    requires Inv(w) && Unseen(w.log, id) && Room(w.sessions, kept)
    ensures Inv(w.(sessions := kept[id := State(csrf, now, None, None)]))
  {
    UnseenNever(w.log, id);
  }

  lemma NextKeeps(c: Config, w: World, e: Event)
    requires Inv(w) && Allowed(w, e)
    ensures Inv(Next(c, w, e))
  {
    if e.Asks? {
      var r := e.request;
      SignInKeeps(w, e.now, e.newId, e.newCsrf, e.kept);
      if r.path.Asset? {
        RequireUnlockKeeps(c, w, r, e.now, None);
      } else if r.cookie.Some? && r.cookie.value in w.sessions {
        RequireUnlockKeeps(c, w, r, e.now, r.cookie);
      }
    }
  }

  ghost predicate History(c: Config, worlds: seq<World>, events: seq<Event>) {
    && |worlds| == |events| + 1
    && forall i :: 0 <= i < |events| ==> Allowed(worlds[i], events[i]) && worlds[i + 1] == Next(c, worlds[i], events[i])
  }

  /** A server starts with sessions it was handed, none unlocked, and nothing logged. */
  predicate Fresh(w: World) {
    w.log == [] && forall id :: id in w.sessions ==> w.sessions[id].stepped.None? && w.sessions[id].unlocked.None?
  }

  /** In every run of the server, whatever the requests, the clock and the other
      commands that set, remove or damage the PIN: a change or a job is only made in a
      session, and, with a PIN set, one whose own last right PIN is within the window;
      a session that never gave it is routed to nothing but the unlock page. */
  lemma {:induction false} AlwaysGuarded(c: Config, worlds: seq<World>, events: seq<Event>, n: nat)
    requires History(c, worlds, events) && Fresh(worlds[0]) && n <= |events|
    ensures Guarded(worlds[n].log) && Remembers(worlds[n])
  {
    if n > 0 {
      AlwaysGuarded(c, worlds, events, n - 1);
      NextKeeps(c, worlds[n - 1], events[n - 1]);
      assert worlds[n] == Next(c, worlds[n - 1], events[n - 1]);
    }
  }

  // Who gets a session, and who may change anything.

  ghost predicate ToAllowedHost(c: Config, r: Request) {
    exists h :: h in c.hosts && SameFold(h, r.host)
  }

  /** The request brings the server's own sign-in token, by reading a page. */
  ghost predicate BringsToken(c: Config, r: Request) {
    && ToAllowedHost(c, r) && r.meth in {Get, Head} && c.token != "" && r.token == c.token
    && r.path != Asset && r.path != Healthz
  }

  /** The request names a session there is and carries its form token, was sent from a page
      of the host it is sent to, and asks to sign nobody in. */
  ghost predicate FromOwnPage(c: Config, w: World, r: Request) {
    && ToAllowedHost(c, r)
    && (if r.origin.From? then SameFold(r.origin.host, r.host) else r.origin.Missing? && r.fetchSameOrigin)
    && r.cookie.Some? && r.cookie.value in w.sessions && r.csrf == w.sessions[r.cookie.value].csrf
    && (r.token == "" || r.token != c.token)
  }

  /** The PIN given with the request is looked at and is the one set. */
  predicate GivesPin(w: World, r: Request, now: int) {
    r.pin != "" && w.owner == Pin(r.pin) && (w.attempts.until.None? || now >= w.attempts.until.value)
  }

  /** What a change or a job is made for, and nothing else. */
  ghost predicate MayChange(c: Config, w: World, r: Request, now: int) {
    && FromOwnPage(c, w, r) && r.meth == Post && r.path in {ApplyChange, StartJob} && !c.readOnly && r.formOk
    && (w.owner in {NoFile, NoPin} ||
        var s := w.sessions[r.cookie.value];
        s.unlocked.Some? && ((s.stepped.Some? && now - s.stepped.value <= 300) || GivesPin(w, r, now)))
  }

  lemma FoldOfHost(c: Config, host: string, own: string)
    requires SameFold(host, own)
    ensures HostAllowed(c, host) <==> HostAllowed(c, own)
  {
    if h :| h in c.hosts && SameFold(h, host) { assert SameFold(h, own); }
    if h :| h in c.hosts && SameFold(h, own) { assert SameFold(h, host); }
  }

  lemma OriginIsHost(c: Config, r: Request)
    requires HostAllowed(c, r.host)
    ensures OriginAllowed(c, r) <==>
            if r.origin.From? then SameFold(r.origin.host, r.host) else r.origin.Missing? && r.fetchSameOrigin
  {
    if r.origin.From? && SameFold(r.origin.host, r.host) { FoldOfHost(c, r.origin.host, r.host); }
  }

  /** A request signs somebody in exactly when it brings the token; then the table has that
      one session more, and nothing else happens. */
  lemma SignsInExactly(c: Config, w: World, r: Request, now: int, newId: string, newCsrf: string, kept: map<string, State>)
    ensures var (answer, after) := Handle(c, w, r, now, newId, newCsrf, kept);
            && (answer.SignedIn? <==> BringsToken(c, r))
            && (BringsToken(c, r) ==> answer == SignedIn(newId) && after == w.(sessions := kept[newId := State(newCsrf, now, None, None)]))
            && (!BringsToken(c, r) ==> after.sessions.Keys == w.sessions.Keys)
            && (answer.Misdirected? <==> !ToAllowedHost(c, r))
  {
  }

  /** A change or a job is made exactly when it may be. */
  lemma ChangesExactly(c: Config, w: World, r: Request, now: int, newId: string, newCsrf: string, kept: map<string, State>)
    ensures Handle(c, w, r, now, newId, newCsrf, kept).0.Made? <==> MayChange(c, w, r, now)
  {
    if HostAllowed(c, r.host) { OriginIsHost(c, r); }
  }

  /** The changes in a log, in order. */
  function Changes(log: seq<Entry>): seq<Entry> {
    if log == [] then []
    else Changes(log[..|log| - 1]) + if log[|log| - 1].Changed? then [log[|log| - 1]] else []
  }

  /** `after` is `before` and more, with one change more, at its end, if one was made. */
  predicate Longer(before: seq<Entry>, after: seq<Entry>, made: bool, change: Entry) {
    && before <= after
    && (made ==> |before| < |after| && after[|after| - 1] == change)
    && forall i :: |before| <= i < |after| && !(made && i == |after| - 1) ==> !after[i].Changed?
  }

  lemma {:induction false} ChangesOfLonger(before: seq<Entry>, after: seq<Entry>, made: bool, change: Entry)
    requires Longer(before, after, made, change) && change.Changed?
    ensures Changes(after) == Changes(before) + if made then [change] else []
    decreases |after|
  {
    if |before| < |after| {
      assert before <= after[..|after| - 1];
      ChangesOfLonger(before, after[..|after| - 1], false, change);
    } else {
      assert before == after;
    }
  }

  lemma RouteTells(c: Config, w: World, r: Request, now: int, session: Option<string>)
    requires Known(w, session)
    ensures var (answer, after) := Route(c, w, r, now, session);
            Longer(w.log, after.log, answer.Made?, Changed(session, now, PinRequired(w.owner)))
  {
  }

  lemma SameOriginTells(c: Config, w: World, r: Request, now: int, session: Option<string>)
    requires Known(w, session)
    ensures var (answer, after) := SameOrigin(c, w, r, now, session);
            Longer(w.log, after.log, answer.Made?, Changed(session, now, PinRequired(w.owner)))
  {
    RouteTells(c, w.(log := w.log + [Routed(session, r.path, PinRequired(w.owner))]), r, now, session);
  }

  /** One more change is logged exactly when one may be made. */
  lemma StepTells(c: Config, w: World, r: Request, now: int, newId: string, newCsrf: string, kept: map<string, State>)
    ensures Longer(w.log, Handle(c, w, r, now, newId, newCsrf, kept).1.log, MayChange(c, w, r, now),
                   Changed(r.cookie, now, PinRequired(w.owner)))
  {
    ChangesExactly(c, w, r, now, newId, newCsrf, kept);
    SignsInExactly(c, w, r, now, newId, newCsrf, kept);
    if HostAllowed(c, r.host) && !BringsToken(c, r) {
      if r.path.Asset? {
        SameOriginTells(c, w, r, now, None);
      } else if Known(w, r.cookie) {
        SameOriginTells(c, w, r, now, r.cookie);
      }
    }
  }

  /** The request has its PIN looked at: to unlock a session, or for a change that comes
      longer after the last one than the window. */
  ghost predicate PinLookedAt(c: Config, w: World, r: Request, now: int) {
    && FromOwnPage(c, w, r) && r.meth == Post && w.owner !in {NoFile, NoPin} && r.pin != ""
    && var s := w.sessions[r.cookie.value];
       if r.path == Unlock then s.unlocked.None?
       else r.path in {ApplyChange, StartJob} && !c.readOnly && r.formOk
            && s.unlocked.Some? && (s.stepped.None? || now - s.stepped.value > 300)
  }

  /** A PIN is counted exactly when it is looked at, and the right one then makes just that
      session unlocked. */
  lemma CountsPinExactly(c: Config, w: World, r: Request, now: int, newId: string, newCsrf: string, kept: map<string, State>)
    requires !BringsToken(c, r)
    ensures var after := Handle(c, w, r, now, newId, newCsrf, kept).1;
            after.owner == w.owner &&
            if PinLookedAt(c, w, r, now) then
              && after.attempts == Checked(w.owner, w.attempts, r.pin, now).1
              && after.sessions == if GivesPin(w, r, now) then w.sessions[r.cookie.value := Sessions.Unlocked(w.sessions[r.cookie.value], now)]
                                   else w.sessions
            else after.attempts == w.attempts && after.sessions == w.sessions
  {
    if HostAllowed(c, r.host) { OriginIsHost(c, r); }
  }

  /** A session there is lets the request in. */
  ghost predicate LetIn(c: Config, w: World, r: Request) {
    && ToAllowedHost(c, r) && r.path != Asset && (r.path == Healthz ==> r.meth !in {Get, Head})
    && r.cookie.Some? && r.cookie.value in w.sessions && (r.token == "" || r.token != c.token)
  }

  /** Who is not let in, and what is then answered. */
  lemma KeptOutExactly(c: Config, w: World, r: Request, now: int, newId: string, newCsrf: string, kept: map<string, State>)
    ensures var answer := Handle(c, w, r, now, newId, newCsrf, kept).0;
            && (answer.Health? <==> ToAllowedHost(c, r) && r.path == Healthz && r.meth in {Get, Head})
            && (answer.Unauthorized? <==> ToAllowedHost(c, r) && r.path != Asset && (r.path == Healthz ==> r.meth !in {Get, Head})
                                          && !BringsToken(c, r) && !LetIn(c, w, r))
  {
  }

  /** Which answer a request that is let in gets: refused for its origin, then for its form
      token, sent to the unlock page or told to unlock, and only then taken up. */
  lemma AnswersExactly(c: Config, w: World, r: Request, now: int, newId: string, newCsrf: string, kept: map<string, State>)
    requires LetIn(c, w, r)
    ensures var answer := Handle(c, w, r, now, newId, newCsrf, kept).0;
            var s := w.sessions[r.cookie.value];
            var safe, own := r.meth in {Get, Head, Options}, if r.origin.From? then SameFold(r.origin.host, r.host) else r.origin.Missing? && r.fetchSameOrigin;
            var through, locked := safe || (own && r.csrf == s.csrf), s.unlocked.None? && w.owner !in {NoFile, NoPin};
            var looks, change := r.meth in {Get, Head}, r.path in {ApplyChange, StartJob};
            var posts := change && !locked && r.meth == Post && !c.readOnly;
            var asks := w.owner !in {NoFile, NoPin} && (s.stepped.None? || now - s.stepped.value > 300);
            && (answer.CrossOrigin? <==> !safe && !own)
            && (answer.StaleForm? <==> !safe && own && r.csrf != s.csrf)
            && (answer.ToUnlock? <==> through && locked && r.path != Unlock && looks)
            && (answer.Locked? <==> through && locked && r.path != Unlock && !looks)
            && (answer.Unlocked? <==> through && r.path == Unlock && (looks || r.meth == Post) && (!locked || (r.meth == Post && GivesPin(w, r, now))))
            && (answer.UnlockPage? <==> through && r.path == Unlock && locked && (looks || (r.meth == Post && !GivesPin(w, r, now))))
            && (answer.BadForm? <==> through && posts && !r.formOk)
            && (answer.Refused? <==> through && posts && r.formOk && asks && !GivesPin(w, r, now))
            && (answer.Page? <==> through && !locked && r.path in {Elsewhere, Healthz})
            && (answer.Refused? || (answer.UnlockPage? && r.meth == Post) ==>
                  answer.answer == if r.pin == "" then Wrong else Checked(w.owner, w.attempts, r.pin, now).0)
  {
    OriginIsHost(c, r);
  }

  /** What one PIN does: none is looked at before its time; the right one clears the count;
      a wrong one is counted, and from the fifth in a row on the next has to wait. */
  lemma CheckedExactly(set_: string, a: Attempts, pin: string, now: int)
    ensures var (answer, b) := Checked(Pin(set_), a, pin, now);
            if a.until.Some? && now < a.until.value then answer == TooMany(a.until.value) && b == a
            else if pin == set_ then answer == Right && b == Attempts(0, None)
            else if a.failures < 4 then answer == Wrong && b == Attempts(a.failures + 1, a.until)
            else
              var until := now + Wait(a.failures + 1);
              now + 30 <= until <= now + 900 && answer == TooMany(until) && b == Attempts(a.failures + 1, Some(until))
  {
  }

  /** The waits: half a minute after the fifth wrong PIN in a row, twice as long after each
      more, and never longer than a quarter of an hour. */
  lemma {:induction false} WaitIs(n: nat)
    ensures Wait(n) == if n < 5 then 0 else if n < 10 then [30, 60, 120, 240, 480][n - 5] else 900
  {
    if n > 0 { WaitIs(n - 1); }
  }

  /** Over every run: a session was handed over or made for a request that brought the
      token, and the changes logged are those of the requests that might make one, in
      order. */
  ghost predicate Earned(c: Config, worlds: seq<World>, events: seq<Event>, id: string, n: nat)
    requires |worlds| == |events| + 1 && n <= |events|
  {
    id in worlds[0].sessions ||
    exists i :: 0 <= i < n && events[i].Asks? && events[i].newId == id && BringsToken(c, events[i].request)
  }

  ghost function Rightful(c: Config, worlds: seq<World>, events: seq<Event>, n: nat): seq<Entry>
    requires |worlds| == |events| + 1 && n <= |events|
  {
    if n == 0 then []
    else
      var w, e := worlds[n - 1], events[n - 1];
      Rightful(c, worlds, events, n - 1)
      + if e.Asks? && MayChange(c, w, e.request, e.now) then [Changed(e.request.cookie, e.now, PinRequired(w.owner))] else []
  }

  lemma {:induction false} AllEarned(c: Config, worlds: seq<World>, events: seq<Event>, n: nat)
    requires History(c, worlds, events) && worlds[0].log == [] && n <= |events|
    ensures forall id :: id in worlds[n].sessions ==> Earned(c, worlds, events, id, n)
    ensures Changes(worlds[n].log) == Rightful(c, worlds, events, n)
  {
    if n > 0 {
      AllEarned(c, worlds, events, n - 1);
      var w, e := worlds[n - 1], events[n - 1];
      assert Allowed(w, e) && worlds[n] == Next(c, w, e);
      if e.Asks? {
        SignsInExactly(c, w, e.request, e.now, e.newId, e.newCsrf, e.kept);
        StepTells(c, w, e.request, e.now, e.newId, e.newCsrf, e.kept);
        ChangesOfLonger(w.log, worlds[n].log, MayChange(c, w, e.request, e.now), Changed(e.request.cookie, e.now, PinRequired(w.owner)));
      }
      forall id | id in worlds[n].sessions ensures Earned(c, worlds, events, id, n) {
        if id in w.sessions { assert Earned(c, worlds, events, id, n - 1); }
      }
    }
  }

  // Guessing.

  /** PINs given one after another, with their times. */
  datatype Try = Try(pin: string, now: int)

  function After(f: OwnerFile, a: Attempts, tries: seq<Try>): Attempts {
    if tries == [] then a
    else
      var last := tries[|tries| - 1];
      Checked(f, After(f, a, tries[..|tries| - 1]), last.pin, last.now).1
  }

  /** The waits up to the n-th wrong PIN in a row. */
  function Waited(n: nat): nat { if n == 0 then 0 else Wait(n) + Waited(n - 1) }

  /** A quarter of an hour and half a minute for the first nine, and a quarter of an hour
      for each more. */
  lemma {:induction false} WaitedIs(n: nat)
    ensures n >= 9 ==> Waited(n) == 930 + 900 * (n - 9)
  {
    if n > 9 {
      WaitedIs(n - 1);
      WaitIs(n);
    } else if n == 9 {
      WaitIs(5);
      WaitIs(9);
      assert Waited(4) == 0 && Waited(5) == 30 && Waited(6) == 90 && Waited(7) == 210 && Waited(8) == 450;
    }
  }

  /** The count of wrong PINs took at least its waits, the last of them at `last`. */
  ghost predicate Paid(a: Attempts, start: int, last: int, now: int) {
    a.failures > 0 ==>
      && start + Waited(a.failures - 1) <= last <= now
      && (Wait(a.failures) > 0 ==> a.until == Some(last + Wait(a.failures)))
  }

  /** n wrong PINs in a row, looked at, take at least the waits between them: after
      the fifth half a minute, doubling to a quarter of an hour. */
  lemma {:induction false} GuessesWait(f: OwnerFile, tries: seq<Try>, start: int) returns (last: int)
    requires forall i :: 0 <= i < |tries| ==> start <= tries[i].now
    requires forall i, j :: 0 <= i < j < |tries| ==> tries[i].now <= tries[j].now
    ensures Paid(After(f, Attempts(0, None), tries), start, last, if tries == [] then start else tries[|tries| - 1].now)
  {
    last := start;
    if tries != [] {
      var n := |tries| - 1;
      var before, t := tries[..n], tries[n];
      var sofar := GuessesWait(f, before, start);
      assert n > 0 ==> before[n - 1] == tries[n - 1];
      last := WaitsOne(f, After(f, Attempts(0, None), before), t, start, sofar);
    }
  }

  /** One more PIN: when it is looked at and wrong, it came after the wait. */
  lemma WaitsOne(f: OwnerFile, a: Attempts, t: Try, start: int, before: int) returns (last: int)
    requires start <= t.now && Paid(a, start, before, t.now)
    ensures Paid(Checked(f, a, t.pin, t.now).1, start, last, t.now)
  {
    last := if Checked(f, a, t.pin, t.now).1.failures > a.failures then t.now else before;
  }

  // The same, in one session's own terms.

  class Gate {
    var owner: OwnerFile
    var attempts: Attempts

    constructor (owner: OwnerFile, attempts: Attempts)
      ensures this.owner == owner && this.attempts == attempts
    {
      this.owner, this.attempts := owner, attempts;
    }

    method CheckPIN(sess: Session, pin: string, now: int) returns (answer: PinAnswer)
      modifies this`attempts, sess
      ensures pin == "" ==> answer == Wrong && attempts == old(attempts)
      ensures pin != "" ==> (answer, attempts) == old(Checked(owner, attempts, pin, now))
      ensures sess.View() == if answer.Right? then Sessions.Unlocked(old(sess.View()), now) else old(sess.View())
    {
      if pin == "" { return Wrong; }
      var (found, left) := Checked(owner, attempts, pin, now);
      answer, attempts := found, left;
      if answer.Right? { sess.Unlock(now); }
    }

    /** On a confirmed change: within the window nothing is asked; after it only the
        right PIN lets the change through, and opens a new window. */
    method StepUp(sess: Session, pin: string, now: int) returns (ok: bool)
      modifies this`attempts, sess
      ensures ok <==> old(!PinRequired(owner) || (sess.stepped.Some? && now - sess.stepped.value <= WINDOW)
                          || (pin != "" && Checked(owner, attempts, pin, now).0.Right?))
      ensures ok && PinRequired(owner) ==> sess.stepped.Some? && now - sess.stepped.value <= WINDOW
      ensures ok && sess.View() != old(sess.View()) ==> owner == Pin(pin) && sess.stepped == Some(now)
      ensures !ok ==> sess.View() == old(sess.View())
    {
      if !PinRequired(owner) || (sess.stepped.Some? && now - sess.stepped.value <= WINDOW) { return true; }
      var answer := CheckPIN(sess, pin, now);
      ok := answer.Right?;
    }
  }
}
