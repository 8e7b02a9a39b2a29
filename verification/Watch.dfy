/** The watch a server keeps on its own binary. */
module Watch {
  import opened Text

  datatype File = File(size: nat, modTime: int, executable: bool)

  /** One look at the path: what `replaced` finds there and what is found right after;
      None when there is nothing to find. */
  datatype Tick = Tick(seen: Option<File>, again: Option<File>)

  datatype Watcher = Watcher(canRestart: bool, autoRestart: bool, path: string, started: int, windows: bool)

  /** Changed after the server started: rebuilt, reinstalled or removed. */
  predicate Replaced(w: Watcher, t: Tick) {
    w.path != "" && (t.seen.None? || t.seen.value.modTime > w.started)
  }

  /** There is a finished-looking new build. */
  predicate Candidate(w: Watcher, t: Tick) {
    Replaced(w, t) && t.again.Some? && (w.windows || t.again.value.executable)
  }

  /** At tick k the new build has held still since the tick before. */
  predicate Steady(w: Watcher, ticks: seq<Tick>, k: nat)
    requires k < |ticks|
  {
    && k > 0 && Candidate(w, ticks[k - 1]) && Candidate(w, ticks[k])
    && ticks[k - 1].again.value.size == ticks[k].again.value.size
    && ticks[k - 1].again.value.modTime == ticks[k].again.value.modTime
  }

  /** The loop over the ticks there are before the server stops; `restarts` counts the
      restarts it asks for. */
  method WatchBinary(w: Watcher, ticks: seq<Tick>) returns (restarts: nat, at: nat)
    ensures restarts <= 1
    ensures restarts == 1 <==>
              w.canRestart && w.autoRestart && w.path != "" && exists k: nat :: k < |ticks| && Steady(w, ticks, k)
    ensures restarts == 1 ==> at < |ticks| && Steady(w, ticks, at) && forall k: nat :: k < at ==> !Steady(w, ticks, k)
  {
    restarts, at := 0, 0;
    if !w.canRestart || !w.autoRestart || w.path == "" { return; }
    var last: Option<File> := None;
    while at < |ticks|
      invariant at <= |ticks| && restarts == 0
      invariant forall k: nat :: k < at ==> !Steady(w, ticks, k)
      invariant last == if at > 0 && Candidate(w, ticks[at - 1]) then ticks[at - 1].again else None
    {
      var t := ticks[at];
      if !(t.seen.None? || t.seen.value.modTime > w.started) {
        last := None;
      } else if t.again.None? || (!w.windows && !t.again.value.executable) {
        last := None;
      } else {
        if last.Some? && t.again.value.size == last.value.size && t.again.value.modTime == last.value.modTime {
          assert Steady(w, ticks, at);
          restarts := 1;
          return;
        }
        last := t.again;
      }
      at := at + 1;
    }
  }
}
