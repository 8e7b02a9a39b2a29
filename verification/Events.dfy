/** A job's output and state, and the stream that shows them as they change. */
module Events {
  import opened Text

  datatype State = Running | Waiting | Done | Failed | Cancelled

  predicate Finished(s: State) { s.Done? || s.Failed? || s.Cancelled? }

  /** A job as a page sees it. */
  datatype View = View(lines: seq<string>, state: State)

  // The job.

  /** What happens to a job, in order: output, a question and its answer, the end. */
  datatype Op = Write(text: string) | Ask | Answer | End(state: State)

  /** The whole output so far, whether or not its last line is complete. */
  function Output(ops: seq<Op>): string {
    if ops == [] then "" else Output(ops[..|ops| - 1]) + (if ops[|ops| - 1].Write? then ops[|ops| - 1].text else "")
  }

  function StateAfter(ops: seq<Op>): State {
    if ops == [] then Running
    else match ops[|ops| - 1]
      case Write(_) => StateAfter(ops[..|ops| - 1])
      case Ask => Waiting
      case Answer => Running
      case End(s) => s
  }

  /** Nothing happens after the end, and the end is one. */
  predicate Possible(ops: seq<Op>) {
    forall i :: 0 <= i < |ops| && ops[i].End? ==> i == |ops| - 1 && Finished(ops[i].state)
  }

  /** The output's lines: a last one with no line end counts only once the job is over. */
  function ViewOf(output: string, s: State): View {
    var parts := Split(output, '\n');
    var last := parts[|parts| - 1];
    View(parts[..|parts| - 1] + if last != "" && Finished(s) then [last] else [], s)
  }

  lemma OneMore(ops: seq<Op>, op: Op)
    ensures Output(ops + [op]) == if op.Write? then Output(ops) + op.text else Output(ops)
    ensures StateAfter(ops + [op]) ==
            match op { case Write(_) => StateAfter(ops) case Ask => Waiting case Answer => Running case End(s) => s }
  {
    assert (ops + [op])[..|ops|] == ops;
    assert Output(ops) + "" == Output(ops);
  }

  function ViewAfter(ops: seq<Op>): View { ViewOf(Output(ops), StateAfter(ops)) }

  class Job {
    var lines: seq<string>
    var partial: string
    var state: State
    ghost var ops: seq<Op>

    constructor ()
      ensures Valid() && ops == []
    {
      lines, partial, state, ops := [], "", Running, [];
    }

    ghost predicate Valid()
      reads this
    {
      Split(Output(ops), '\n') == lines + [partial] && state == StateAfter(ops)
    }

    /** Output, one line at a time. */
    method WriteText(text: string)
      requires Valid()
      modifies this
      ensures Valid() && ops == old(ops) + [Write(text)]
    {
      var parts := Split(partial + text, '\n');
      WriteStep(ops, lines, partial, text);
      partial := parts[|parts| - 1];
      lines := lines + parts[..|parts| - 1];
      ops := ops + [Write(text)];
    }

    method SetState(op: Op)
      requires Valid() && !op.Write?
      modifies this
      ensures Valid() && ops == old(ops) + [op]
    {
      match op {
        case Ask => state := Waiting;
        case Answer => state := Running;
        case End(s) => state := s;
      }
      OneMore(ops, op);
      ops := ops + [op];
    }

    method ViewNow() returns (v: View)
      requires Valid()
      ensures v == ViewAfter(ops)
    {
      v := View(lines, state);
      if partial != "" && Finished(state) { v := v.(lines := lines + [partial]); }
      assert (lines + [partial])[..|lines|] == lines;
      assert lines + [] == lines;
    }
  }

  lemma WriteStep(ops: seq<Op>, lines: seq<string>, partial: string, text: string)
    requires Split(Output(ops), '\n') == lines + [partial]
    ensures var parts := Split(partial + text, '\n');
            Split(Output(ops + [Write(text)]), '\n') == lines + parts[..|parts| - 1] + [parts[|parts| - 1]]
    ensures StateAfter(ops + [Write(text)]) == StateAfter(ops)
  {
    Continued(Output(ops), lines, partial, text);
    OneMore(ops, Write(text));
    Regrouped(lines, Split(partial + text, '\n'));
  }

  lemma Regrouped(a: seq<string>, b: seq<string>)
    requires b != []
    ensures a + b == a + b[..|b| - 1] + [b[|b| - 1]]
  {
  }

  lemma {:induction false} Continued(output: string, lines: seq<string>, partial: string, text: string)
    requires Split(output, '\n') == lines + [partial]
    ensures Split(output + text, '\n') == lines + Split(partial + text, '\n')
    decreases |output|
  {
    if '\n' in output {
      var i := IndexOf(output, '\n');
      var head, tail := output[..i], output[i + 1..];
      assert output == head + ['\n'] + tail;
      SplitAt(head, '\n', tail);
      var rest := Split(tail, '\n');
      var all := lines + [partial];
      assert all == [head] + rest && all[0] == head && all[1..] == rest;
      assert |lines| > 0 by { assert |all| == 1 + |rest|; }
      assert rest == lines[1..] + [partial];
      Continued(tail, lines[1..], partial, text);
      assert output + text == head + ['\n'] + (tail + text);
      SplitAt(head, '\n', tail + text);
      assert [head] + (lines[1..] + Split(partial + text, '\n')) == lines + Split(partial + text, '\n');
    } else {
      SplitNoSep(output, '\n');
      assert |lines + [partial]| == 1 && (lines + [partial])[0] == output;
    }
  }

  lemma WholeLines(output: string, s: State, whole: seq<string>, last: string)
    requires Split(output, '\n') == whole + [last]
    ensures whole <= ViewOf(output, s).lines && (!Finished(s) ==> ViewOf(output, s).lines == whole)
  {
    assert (whole + [last])[..|whole|] == whole;
  }

  /** One more thing happening keeps the lines there were. */
  lemma ViewGrows(ops: seq<Op>, op: Op)
    requires !Finished(StateAfter(ops))
    ensures ViewAfter(ops).lines <= ViewAfter(ops + [op]).lines
  {
    OneMore(ops, op);
    var parts := Split(Output(ops), '\n');
    var whole, last := parts[..|parts| - 1], parts[|parts| - 1];
    assert parts == whole + [last];
    WholeLines(Output(ops), StateAfter(ops), whole, last);
    if op.Write? {
      var more := Split(last + op.text, '\n');
      WriteStep(ops, whole, last, op.text);
      WholeLines(Output(ops + [op]), StateAfter(ops + [op]), whole + more[..|more| - 1], more[|more| - 1]);
    } else {
      WholeLines(Output(ops + [op]), StateAfter(ops + [op]), whole, last);
    }
  }

  /** A later view has the lines of an earlier one, and perhaps more after them; none is
      later than the end. */
  lemma {:induction false} ViewsGrow(ops: seq<Op>, n: nat)
    requires Possible(ops) && n <= |ops|
    ensures ViewAfter(ops[..n]).lines <= ViewAfter(ops).lines
    ensures Finished(StateAfter(ops[..n])) ==> n == |ops|
    decreases |ops|
  {
    if n == |ops| {
      assert ops[..n] == ops;
    } else {
      var before, last := ops[..|ops| - 1], ops[|ops| - 1];
      assert ops[..n] == before[..n] && ops == before + [last];
      assert forall i :: 0 <= i < |before| ==> !before[i].End?;
      NeverOver(before);
      NeverOver(before[..n]);
      ViewsGrow(before, n);
      ViewGrows(before, last);
    }
  }

  /** Before the end, a job is not over. */
  lemma {:induction false} NeverOver(ops: seq<Op>)
    requires forall i :: 0 <= i < |ops| ==> !ops[i].End?
    ensures !Finished(StateAfter(ops))
  {
    if ops != [] { NeverOver(ops[..|ops| - 1]); }
  }

  // The stream.

  datatype Event = Line(text: string) | Now(state: State)

  function LinesOf(events: seq<Event>): seq<string> {
    if events == [] then []
    else LinesOf(events[..|events| - 1])
         + if events[|events| - 1].Line? then [events[|events| - 1].text] else []
  }

  function StatesOf(events: seq<Event>): seq<State> {
    if events == [] then []
    else StatesOf(events[..|events| - 1])
         + if events[|events| - 1].Now? then [events[|events| - 1].state] else []
  }

  /** The states seen, without one that is the same as the one before it. */
  function Changes(views: seq<View>): (s: seq<State>)
    ensures s == [] <==> views == []
    ensures views != [] ==> s[|s| - 1] == views[|views| - 1].state
  {
    if views == [] then []
    else
      var before, now := Changes(views[..|views| - 1]), views[|views| - 1].state;
      if before != [] && before[|before| - 1] == now then before else before + [now]
  }

  predicate Growing(views: seq<View>) {
    forall i, j :: 0 <= i < j < |views| ==> views[i].lines <= views[j].lines
  }

  lemma LinesMore(events: seq<Event>, e: Event)
    ensures LinesOf(events + [e]) == LinesOf(events) + (if e.Line? then [e.text] else [])
    ensures StatesOf(events + [e]) == StatesOf(events) + (if e.Now? then [e.state] else [])
  {
    assert (events + [e])[..|events|] == events;
  }

  /** The lines of a view not sent yet. */
  method SendLines(out: seq<Event>, sent: nat, lines: seq<string>) returns (more: seq<Event>, now: nat)
    requires sent <= |lines| && LinesOf(out) == lines[..sent]
    ensures now == |lines| && LinesOf(more) == lines && StatesOf(more) == StatesOf(out)
    ensures out <= more
  {
    more, now := out, sent;
    while now < |lines|
      invariant sent <= now <= |lines| && out <= more
      invariant LinesOf(more) == lines[..now] && StatesOf(more) == StatesOf(out)
    {
      LinesMore(more, Line(lines[now]));
      more := more + [Line(lines[now])];
      assert lines[..now + 1] == lines[..now] + [lines[now]];
      now := now + 1;
      assert StatesOf(out) + [] == StatesOf(out);
    }
    assert lines[..now] == lines;
  }

  /** One view: its new lines, then its state if that is another one. */
  method SendView(out: seq<Event>, sent: nat, state: Option<State>, v: View) returns (more: seq<Event>, now: nat)
    requires sent <= |v.lines| && LinesOf(out) == v.lines[..sent]
    ensures now == |v.lines| && LinesOf(more) == v.lines
    ensures StatesOf(more) == if state == Some(v.state) then StatesOf(out) else StatesOf(out) + [v.state]
  {
    more, now := SendLines(out, sent, v.lines);
    if state != Some(v.state) {
      LinesMore(more, Now(v.state));
      more := more + [Now(v.state)];
      assert v.lines + [] == v.lines;
    }
  }

  lemma ChangesMore(views: seq<View>, n: nat)
    requires n < |views|
    ensures Changes(views[..n + 1]) ==
            if n > 0 && views[n - 1].state == views[n].state then Changes(views[..n]) else Changes(views[..n]) + [views[n].state]
  {
    assert views[..n + 1][..n] == views[..n];
  }

  /** Of the first n views, the job is over on the last at most. */
  predicate OverLast(views: seq<View>, n: nat, over: bool) {
    n <= |views| && forall i :: 0 <= i < n ==> (Finished(views[i].state) <==> over && i == n - 1)
  }

  lemma OverMore(views: seq<View>, n: nat)
    requires n < |views| && OverLast(views, n, false)
    ensures OverLast(views, n + 1, Finished(views[n].state))
  {
  }

  /** The stream over the views there are until the page goes away. It has sent exactly
      the last view's lines, in order, each once; a state whenever it differed from the
      one sent before; and it ends by itself only on a view of a job that is over. */
  method Stream(views: seq<View>) returns (out: seq<Event>, seen: nat, ended: bool)
    requires Growing(views)
    ensures seen <= |views| && (if ended then seen > 0 else seen == |views|)
    ensures LinesOf(out) == if seen == 0 then [] else views[seen - 1].lines
    ensures StatesOf(out) == Changes(views[..seen])
    ensures OverLast(views, seen, ended)
  {
    out, seen, ended := [], 0, false;
    var sent := 0;
    var state: Option<State> := None;
    while seen < |views| && !ended
      invariant seen <= |views| && (ended ==> seen > 0)
      invariant LinesOf(out) == if seen == 0 then [] else views[seen - 1].lines
      invariant sent == |LinesOf(out)| && StatesOf(out) == Changes(views[..seen])
      invariant state == if seen == 0 then None else Some(views[seen - 1].state)
      invariant OverLast(views, seen, ended)
    {
      var v := views[seen];
      assert sent <= |v.lines| && LinesOf(out) == v.lines[..sent] by {
        if seen > 0 { assert views[seen - 1].lines <= v.lines; }
      }
      out, sent := SendView(out, sent, state, v);
      ChangesMore(views, seen);
      OverMore(views, seen);
      state := Some(v.state);
      seen := seen + 1;
      ended := Finished(v.state);
    }
  }

  // The stream of one job.

  /** What the stream sees of a job that is looked at after so many of its writes and
      changes. */
  function ViewsAt(ops: seq<Op>, moments: seq<nat>): (views: seq<View>)
    requires forall i :: 0 <= i < |moments| ==> moments[i] <= |ops|
    ensures |views| == |moments| && forall i :: 0 <= i < |views| ==> views[i] == ViewAfter(ops[..moments[i]])
  {
    seq(|moments|, i requires 0 <= i < |moments| => ViewAfter(ops[..moments[i]]))
  }

  predicate Moments(ops: seq<Op>, moments: seq<nat>) {
    && (forall i :: 0 <= i < |moments| ==> moments[i] <= |ops|)
    && (forall i, j :: 0 <= i < j < |moments| ==> moments[i] <= moments[j])
  }

  lemma PossibleBefore(ops: seq<Op>, n: nat)
    requires Possible(ops) && n <= |ops|
    ensures Possible(ops[..n])
  {
    forall i | 0 <= i < n && ops[..n][i].End? ensures i == n - 1 && Finished(ops[..n][i].state) {
      assert ops[..n][i] == ops[i];
    }
  }

  lemma ViewsAtGrow(ops: seq<Op>, moments: seq<nat>)
    requires Possible(ops) && Moments(ops, moments)
    ensures Growing(ViewsAt(ops, moments))
  {
    var views := ViewsAt(ops, moments);
    forall i, j | 0 <= i < j < |views| ensures views[i].lines <= views[j].lines {
      var later := ops[..moments[j]];
      PossibleBefore(ops, moments[j]);
      ViewsGrow(later, moments[i]);
      assert later[..moments[i]] == ops[..moments[i]];
    }
  }

  /** A job's stream ends if and only if the job is over and was looked at then; the page
      then has every line of it, and until then the first lines of it. */
  method StreamJob(ops: seq<Op>, moments: seq<nat>) returns (out: seq<Event>, ended: bool)
    requires Possible(ops) && Moments(ops, moments)
    ensures ended <==> Finished(StateAfter(ops)) && |ops| in moments
    ensures LinesOf(out) <= ViewAfter(ops).lines && (ended ==> LinesOf(out) == ViewAfter(ops).lines)
  {
    var views := ViewsAt(ops, moments);
    ViewsAtGrow(ops, moments);
    var seen: nat;
    out, seen, ended := Stream(views);
    LookedAtEnd(ops, moments, seen, ended);
  }

  /** The looks up to the first that finds the job over. */
  lemma LookedAtEnd(ops: seq<Op>, moments: seq<nat>, seen: nat, ended: bool)
    requires Possible(ops) && Moments(ops, moments) && seen <= |moments| && (if ended then seen > 0 else seen == |moments|)
    requires OverLast(ViewsAt(ops, moments), seen, ended)
    ensures ended <==> Finished(StateAfter(ops)) && |ops| in moments
    ensures var lines := if seen == 0 then [] else ViewsAt(ops, moments)[seen - 1].lines;
            lines <= ViewAfter(ops).lines && (ended ==> lines == ViewAfter(ops).lines)
  {
    var views := ViewsAt(ops, moments);
    assert ops[..|ops|] == ops;
    if seen > 0 { ViewsGrow(ops, moments[seen - 1]); }
    if ended {
      assert Finished(views[seen - 1].state);
      assert moments[seen - 1] in moments;
    } else if |ops| in moments {
      var i :| 0 <= i < |moments| && moments[i] == |ops|;
      assert views[i] == ViewAfter(ops);
    }
  }

  /** When the stream of a job ends by itself, everything the job put out has been sent:
      its lines, and a last one with no line end. */
  lemma NothingMissed(output: string, s: State)
    requires Finished(s)
    ensures var lines := ViewOf(output, s).lines;
            Join(lines, "\n") == output || Join(lines, "\n") + "\n" == output
  {
    var parts := Split(output, '\n');
    var last := parts[|parts| - 1];
    JoinSplit(output, '\n');
    assert "\n" == ['\n'];
    if last != "" {
      assert parts[..|parts| - 1] + [last] == parts;
    } else if |parts| > 1 {
      JoinEmptyEnd(parts);
      assert parts[..|parts| - 1] + [] == parts[..|parts| - 1];
    }
  }

  lemma {:induction false} JoinEmptyEnd(parts: seq<string>)
    requires |parts| > 1 && parts[|parts| - 1] == ""
    ensures Join(parts, "\n") == Join(parts[..|parts| - 1], "\n") + "\n"
  {
    var init := parts[..|parts| - 1];
    if |parts| == 2 {
      assert parts[1..] == [""];
      assert parts[0] + "\n" + "" == parts[0] + "\n";
    } else {
      JoinEmptyEnd(parts[1..]);
      assert parts[1..][..|parts| - 2] == init[1..];
      assert parts[0] + "\n" + (Join(init[1..], "\n") + "\n") == parts[0] + "\n" + Join(init[1..], "\n") + "\n";
    }
  }

  // On the wire.

  function Clean(s: string): string {
    if s == "" then ""
    else (if s[0] == '\r' then "" else if s[0] == '\n' then " " else [s[0]]) + Clean(s[1..])
  }

  function StateName(s: State): string {
    match s case Running => "running" case Waiting => "waiting" case Done => "done" case Failed => "failed" case Cancelled => "cancelled"
  }

  /** What is written: an event, or the sign that the connection still lives. */
  datatype Sent = Sends(event: Event) | Beat

  function NameAndData(e: Event): (string, string) {
    match e case Line(text) => ("line", Clean(text)) case Now(s) => ("state", Clean(StateName(s)))
  }

  function SentLines(s: Sent): seq<string> {
    match s
    case Sends(e) => ["event: " + NameAndData(e).0, "data: " + NameAndData(e).1, ""]
    case Beat => [": still running", ""]
  }

  /** Each line with its end. */
  function WithEnds(lines: seq<string>): string {
    if lines == [] then "" else lines[0] + "\n" + WithEnds(lines[1..])
  }

  function Wire(sent: seq<Sent>): string {
    if sent == [] then "" else WithEnds(SentLines(sent[0])) + Wire(sent[1..])
  }

  /** What a page makes of the lines: events, with comments passed over. */
  function Received(lines: seq<string>): Option<seq<(string, string)>>
    decreases |lines|
  {
    if lines == [""] then Some([])
    else if |lines| >= 2 && lines[0] != "" && lines[0][0] == ':' && lines[1] == "" then Received(lines[2..])
    else if |lines| >= 3 && "event: " <= lines[0] && "data: " <= lines[1] && lines[2] == "" then
      match Received(lines[3..])
      case None => None
      case Some(rest) => Some([(lines[0][7..], lines[1][6..])] + rest)
    else None
  }

  function Named(sent: seq<Sent>): seq<(string, string)> {
    if sent == [] then [] else (if sent[0].Sends? then [NameAndData(sent[0].event)] else []) + Named(sent[1..])
  }

  lemma {:induction false} CleanPlain(s: string)
    ensures '\n' !in Clean(s) && '\r' !in Clean(s)
  {
    if s != "" { CleanPlain(s[1..]); }
  }

  /** A line is written without its carriage returns and otherwise as it is, and the end of
      a line as a space. */
  lemma {:induction false} CleanIs(s: string)
    ensures '\n' !in s ==> Clean(s) == Join(Split(s, '\r'), "")
    ensures '\r' !in s ==> Clean(s) == Join(Split(s, '\n'), " ")
    ensures '\n' !in s && '\r' !in s ==> Clean(s) == s
  {
    if s != "" {
      CleanIs(s[1..]);
      assert s == [s[0]] + s[1..];
      JoinOfSplit(s, '\r', "");
      JoinOfSplit(s, '\n', " ");
    } else {
      assert Join([""], "") == "" && Join([""], " ") == "";
    }
  }

  lemma JoinOfSplit(s: string, c: char, sep: string)
    requires s != ""
    ensures Join(Split(s, c), sep) == (if s[0] == c then sep else [s[0]]) + Join(Split(s[1..], c), sep)
  {
    var rest := Split(s[1..], c);
    if s[0] == c {
      JoinFirst("", rest, sep);
      assert "" + sep == sep;
    } else {
      JoinLonger(s[0], rest, sep);
    }
  }

  lemma StateNamesApart(a: State, b: State)
    ensures StateName(a) == StateName(b) ==> a == b
    ensures Clean(StateName(a)) == StateName(a)
  {
    var name := StateName(a);
    assert name[0] == StateName(b)[0] ==> a == b;
    CleanIs(name);
  }

  lemma FirstLine(line: string, tail: string, rest: string)
    requires '\n' !in line
    ensures Split(line + "\n" + tail + rest, '\n') == [line] + Split(tail + rest, '\n')
  {
    assert line + "\n" + tail + rest == line + ['\n'] + (tail + rest);
    SplitAt(line, '\n', tail + rest);
  }

  lemma {:induction false} SplitWithEnds(lines: seq<string>, rest: string)
    requires forall i :: 0 <= i < |lines| ==> '\n' !in lines[i]
    ensures Split(WithEnds(lines) + rest, '\n') == lines + Split(rest, '\n')
  {
    if lines == [] {
      assert WithEnds(lines) + rest == rest;
    } else {
      SplitWithEnds(lines[1..], rest);
      FirstLine(lines[0], WithEnds(lines[1..]), rest);
      assert [lines[0]] + (lines[1..] + Split(rest, '\n')) == lines + Split(rest, '\n');
    }
  }

  lemma SentPlain(s: Sent)
    ensures forall i :: 0 <= i < |SentLines(s)| ==> '\n' !in SentLines(s)[i]
  {
    match s
    case Sends(Line(text)) => CleanPlain(text);
    case Sends(Now(state)) => CleanPlain(StateName(state));
    case Beat =>
  }

  lemma ReceivesOne(s: Sent, rest: seq<string>)
    requires Received(rest).Some?
    ensures Received(SentLines(s) + rest) ==
            Some((if s.Sends? then [NameAndData(s.event)] else []) + Received(rest).value)
  {
    var lines := SentLines(s) + rest;
    match s
    case Beat =>
      assert lines[2..] == rest;
      assert [] + Received(rest).value == Received(rest).value;
    case Sends(e) =>
      assert lines[3..] == rest;
      assert lines[0][0] == 'e';
      assert lines[0][7..] == NameAndData(e).0 && lines[1][6..] == NameAndData(e).1;
  }

  /** What a page is to be told: each line of output, less its carriage returns, and each
      state. */
  function Told(sent: seq<Sent>): seq<(string, string)> {
    if sent == [] then []
    else
      (match sent[0]
       case Beat => []
       case Sends(Line(text)) => [("line", Join(Split(text, '\r'), ""))]
       case Sends(Now(state)) => [("state", StateName(state))])
      + Told(sent[1..])
  }

  lemma {:induction false} NamedTold(sent: seq<Sent>)
    requires forall i :: 0 <= i < |sent| && sent[i].Sends? && sent[i].event.Line? ==> '\n' !in sent[i].event.text
    ensures Named(sent) == Told(sent)
  {
    if sent != [] {
      NamedTold(sent[1..]);
      match sent[0]
      case Sends(Line(text)) => CleanIs(text);
      case Sends(Now(state)) => StateNamesApart(state, state);
      case Beat =>
    }
  }

  /** A page reads back exactly the events that were sent: no line of output, whatever
      is in it, ends its event early or starts another. */
  lemma {:induction false} ReceivedAsSent(sent: seq<Sent>)
    ensures Received(Split(Wire(sent), '\n')) == Some(Named(sent))
  {
    if sent != [] {
      ReceivedAsSent(sent[1..]);
      SentPlain(sent[0]);
      SplitWithEnds(SentLines(sent[0]), Wire(sent[1..]));
      ReceivesOne(sent[0], Split(Wire(sent[1..]), '\n'));
    } else {
      assert Split("", '\n') == [""];
    }
  }

  /** And, as no line of output holds the end of one, it is told each line as it was, less
      its carriage returns, and each state. */
  lemma ReceivedAsTold(sent: seq<Sent>)
    requires forall i :: 0 <= i < |sent| && sent[i].Sends? && sent[i].event.Line? ==> '\n' !in sent[i].event.text
    ensures Received(Split(Wire(sent), '\n')) == Some(Told(sent))
  {
    ReceivedAsSent(sent);
    NamedTold(sent);
  }
}
