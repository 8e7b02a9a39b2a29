/** The files and the variable one launch works with, and what it decides to do. */
module ServeFiles {
  import opened Text

  datatype ServeRecord = ServeRecord(pid: int, addr: string, url: string, instance: string, readOnly: bool, base: string)

  /** The record file: none, text that does not parse, or a record. */
  datatype Contents = Absent | Garbage | Json(record: ServeRecord)

  datatype Handoff = Handoff(token: string, port: int, record: bool, addr: string, base: string, instance: string)

  /** The hand-over variable: not set, text that does not parse, or a hand-over. */
  datatype Variable = Unset | BadText | Passed(handoff: Handoff)

  /** The flags and settings a launch was given, worked out. */
  datatype Flags = Flags(
    status: bool, stop: bool, another: bool, pinned: bool, remote: bool, loopback: bool,
    readOnly: bool, base: string, port: int)

  datatype Action =
    | NothingRunning
    | Stop(record: ServeRecord)
    | Report(record: ServeRecord)
    | Reuse(url: string)
    | Serve(port: int, exactly: bool, token: Option<string>, keeps: bool)

  /** A record is one with an address and an instance. */
  function Named(c: Contents): Option<ServeRecord> {
    if c.Json? && c.record.addr != "" && c.record.instance != "" then Some(c.record) else None
  }

  /** A hand-over is one with a token and a port. */
  function Given(v: Variable): Option<Handoff> {
    if v.Passed? && v.handoff.token != "" && v.handoff.port > 0 then Some(v.handoff) else None
  }

  /** What is done to the record file, by any servers one after another. */
  datatype FileOp = Wrote(record: ServeRecord) | Removed(instance: string)

  function AfterOne(file: Contents, op: FileOp): Contents {
    match op
    case Wrote(record) => Json(record)
    case Removed(instance) => if Named(file).Some? && Named(file).value.instance == instance then Absent else file
  }

  function After(file: Contents, ops: seq<FileOp>): Contents {
    if ops == [] then file else AfterOne(After(file, ops[..|ops| - 1]), ops[|ops| - 1])
  }

  /** r was written by the k-th of ops, and neither written over nor removed since. */
  predicate LastWritten(ops: seq<FileOp>, k: nat, r: ServeRecord) {
    k < |ops| && ops[k] == Wrote(r) && forall j :: k < j < |ops| ==> ops[j].Removed? && ops[j].instance != r.instance
  }

  /** Reading the file gives the record that was written last, for as long as that server
      has not removed it: whoever else stops late removes nothing of it. */
  lemma {:induction false} NamesLastWritten(file: Contents, ops: seq<FileOp>, r: ServeRecord)
    requires Named(file).None? && forall i :: 0 <= i < |ops| && ops[i].Wrote? ==> Named(Json(ops[i].record)).Some?
    ensures Named(After(file, ops)) == Some(r) <==> exists k: nat :: LastWritten(ops, k, r)
  {
    if ops != [] {
      var n := |ops| - 1;
      var before := ops[..n];
      NamesLastWritten(file, before, r);
      match ops[n]
      case Wrote(record) =>
        if record == r { assert LastWritten(ops, n, r); }
        assert forall k: nat :: LastWritten(ops, k, r) ==> k == n;
      case Removed(instance) =>
        if k: nat :| LastWritten(before, k, r) && instance != r.instance {
          assert LastWritten(ops, k, r);
        }
        if k: nat :| LastWritten(ops, k, r) {
          assert LastWritten(before, k, r) && ops[n].instance != r.instance;
        }
    }
  }

  class Launch {
    var file: Contents
    var handed: Variable

    constructor (file: Contents, handed: Variable)
      ensures this.file == file && this.handed == handed
    {
      this.file, this.handed := file, handed;
    }

    method ReadServeRecord() returns (r: Option<ServeRecord>)
      ensures r == Named(file)
    {
      match file
      case Json(record) =>
        if record.addr == "" || record.instance == "" { return None; }
        return Some(record);
      case _ => return None;
    }

    method WriteServeRecord(r: ServeRecord)
      modifies this`file
      ensures file == AfterOne(old(file), Wrote(r))
    {
      file := Json(r);
    }

    /** With nothing else at work, only the instance's own record goes. */
    method RemoveServeRecord(instance: string)
      modifies this`file
      ensures file == AfterOne(old(file), Removed(instance))
    {
      var r := ReadServeRecord();
      if r.Some? && r.value.instance == instance { file := Absent; }
    }

    /** Whatever the variable held, it is gone once it has been read: a server started
        later by this one is handed nothing. */
    method TakeHandoff() returns (h: Option<Handoff>)
      modifies this`handed
      ensures h == Given(old(handed)) && handed == Unset
    {
      match handed
      case Unset => return None;
      case BadText =>
        handed := Unset;
        return None;
      case Passed(handoff) =>
        handed := Unset;
        if handoff.token == "" || handoff.port <= 0 { return None; }
        return Some(handoff);
    }

    /** What a launch does. `alive` says whether the recorded server answers as its
        instance. A hand-over sets the record aside and fixes port, token and record
        choice; a recorded server that answers is reused only by a launch of its kind. */
    method Decide(f: Flags, alive: bool) returns (a: Action)
      modifies this`handed
      ensures handed == Unset
      ensures a.Reuse? <==>
              && Given(old(handed)).None? && Named(file).Some? && alive && !f.status && !f.stop
              && !f.another && !f.pinned && !f.remote && f.loopback
              && Named(file).value.readOnly == f.readOnly && Named(file).value.base == f.base
      ensures a.Reuse? ==> a.url == Named(file).value.url
      ensures a.Stop? || a.Report? ==> Named(file) == Some(a.record) && alive && Given(old(handed)).None?
      ensures a.Serve? && Given(old(handed)).Some? ==>
              var h := Given(old(handed)).value;
              a == Serve(h.port, true, Some(h.token), h.record)
      ensures a.Serve? && Given(old(handed)).None? ==>
              a == Serve(f.port, f.pinned, None, !f.pinned && !f.remote && f.loopback)
      ensures a.Serve? || a.Reuse? <==> !f.status && !f.stop
    {
      var running := ReadServeRecord();
      if running.Some? && !alive { running := None; }
      var port := f.port;
      var h := TakeHandoff();
      if h.Some? {
        running := None;
        port := h.value.port;
      }
      if f.status || f.stop {
        if running.None? { return NothingRunning; }
        if f.stop { return Stop(running.value); }
        return Report(running.value);
      }
      if running.Some? && !f.another && !f.pinned && !f.remote && f.loopback
         && running.value.readOnly == f.readOnly && running.value.base == f.base {
        return Reuse(running.value.url);
      }
      var token: Option<string> := None;
      var record := !f.pinned && !f.remote && f.loopback;
      if h.Some? {
        token := Some(h.value.token);
        record := h.value.record;
      }
      a := Serve(port, f.pinned || h.Some?, token, record);
    }

    /** Waits for the old server: `answers` says whether it still does at each look in
        the time there is. Stops at the first look it does not, or when time is up. */
    method WaitGone(answers: seq<bool>) returns (looks: nat)
      ensures looks <= |answers|
      ensures forall i :: 0 <= i < looks - 1 ==> answers[i]
      ensures looks < |answers| ==> looks > 0 && !answers[looks - 1]
      ensures (exists i :: 0 <= i < |answers| && !answers[i]) <==> looks > 0 && !answers[looks - 1]
    {
      looks := 0;
      while looks < |answers|
        invariant looks <= |answers| && forall i :: 0 <= i < looks ==> answers[i]
      {
        looks := looks + 1;
        if !answers[looks - 1] { return; }
      }
    }
  }
}
