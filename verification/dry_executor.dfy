/** The three executors that run no operation: the marker executor that
    starts and ends the engine's start/end marker tasks, the stub executor
    that reports a stub task as succeeded at once, and the dry executor that
    logs what it would have run. Each is modelled by the trace of what it
    does, in order; replaying a trace's signals through the task handlers
    gives the stored task's state afterwards. */
module DryExecutor {
  import opened Base
  import EventsHandler

  /** Something an executor does: send a task signal, call the engine task's
      own `start`/`end`, or log a line at info level. */
  datatype Event =
    | StartSignal(skipLogging: bool)
    | SuccessSignal(skipLogging: bool)
    | TaskStart
    | TaskEnd
    | Info(text: string)

  /** The actor a task runs on: a relationship also has the names of its
      source and target nodes. */
  datatype Actor = Actor(name: string, ends: Option<(string, string)>)

  datatype Task = Task(actor: Actor, interfaceName: string, operationName: string)

  predicate IsSignal(e: Event) {
    e.StartSignal? || e.SuccessSignal?
  }

  /** Every success signal follows a start signal, and there is at least one
      start signal. */
  predicate StartsBeforeSuccess(trace: seq<Event>) {
    && (exists i :: 0 <= i < |trace| && trace[i].StartSignal?)
    && forall j :: 0 <= j < |trace| && trace[j].SuccessSignal? ==>
         exists i :: 0 <= i < j && trace[i].StartSignal?
  }

  /** `MarkerExecutor.execute`. */
  function MarkerExecute(t: Task): (r: seq<Event>)
    ensures forall i :: 0 <= i < |r| ==> !IsSignal(r[i])
    ensures TaskStart in r && TaskEnd in r
    ensures forall i, j :: 0 <= i < |r| && 0 <= j < |r| && r[i] == TaskEnd && r[j] == TaskStart ==> j < i
  {
    [TaskStart, TaskEnd]
  }

  /** `StubExecutor.execute`: the signals are sent without `skip_logging`. */
  function StubExecute(t: Task): (r: seq<Event>)
    ensures StartsBeforeSuccess(r)
    ensures forall i :: 0 <= i < |r| ==> IsSignal(r[i]) && !r[i].skipLogging
  {
    var r := [StartSignal(false), SuccessSignal(false)];
    assert r[0].StartSignal?;
    r
  }

  /** How the dry executor names the actor: `source->target` for a
      relationship, the actor's own name otherwise. */
  function DisplayName(a: Actor): (s: string)
    ensures a.ends.None? ==> s == a.name
    ensures a.ends.Some? ==> |s| == |a.ends.value.0| + 2 + |a.ends.value.1|
                             && s[..|a.ends.value.0|] == a.ends.value.0
                             && s[|s| - |a.ends.value.1|..] == a.ends.value.1
  {
    match a.ends
    case Some((source, target)) => source + "->" + target
    case None => a.name
  }

  /** Reads a relationship's display name back into its two node names. */
  function ParseDisplayName(s: string): Option<(string, string)> {
    match FindFirst(s, '-')
    case None => None
    case Some(k) =>
      if k + 1 < |s| && s[k + 1] == '>' then Some((s[..k], s[k + 2..])) else None
  }

  /** A relationship's display name gives back its source and target, as long
      as the source node's name has no `-`. */
  lemma DisplayNameRoundTrip(source: string, target: string)
    requires '-' !in source
    ensures ParseDisplayName(DisplayName(Actor("", Some((source, target))))) == Some((source, target))
  {
    var s := source + "->" + target;
    assert s == source + ['-'] + ([ '>'] + target);
    FindFirstAfter(source, '-', ['>'] + target);
    assert s[|source| + 1] == '>';
    assert s[..|source|] == source;
    assert s[|source| + 2..] == target;
  }

  function DryLine(t: Task, suffix: string): string {
    "<dry> " + DisplayName(t.actor) + " " + t.interfaceName + "." + t.operationName + " " + suffix
  }

  /** `DryExecutor.execute`: both signals are sent with `skip_logging`, and the
      two log lines name the actor and the operation. */
  function DryExecute(t: Task): (r: seq<Event>)
    ensures StartsBeforeSuccess(r)
    ensures forall i :: 0 <= i < |r| && IsSignal(r[i]) ==> r[i].skipLogging
    ensures forall i :: 0 <= i < |r| && !IsSignal(r[i]) ==> r[i].Info?
    ensures r[0].StartSignal? && r[|r| - 1].SuccessSignal?
  {
    var r := [StartSignal(true), Info(DryLine(t, "started...")), Info(DryLine(t, "successful")), SuccessSignal(true)];
    assert r[0].StartSignal?;
    r
  }

  /** The two lines differ only in their last word, and both begin with the
      actor's display name after the `<dry>` tag. */
  lemma DryLinesShareOperation(t: Task)
    ensures var r := DryExecute(t);
            var head := "<dry> " + DisplayName(t.actor) + " ";
            && r[1].Info? && r[2].Info?
            && r[1].text[..|head|] == head && r[2].text[..|head|] == head
            && r[1].text == DryLine(t, "started...") && r[2].text == DryLine(t, "successful")
            && r[1].text != r[2].text
  {
    var head := "<dry> " + DisplayName(t.actor) + " ";
    var started := DryLine(t, "started...");
    var done := DryLine(t, "successful");
    assert started[..|head|] == head;
    assert done[..|head|] == head;
    assert |started| == |done|;
    var n := |started| - 1;
    assert started[n] == '.' && done[n] == 'l';
  }

  /** The stored task's state after the handlers receive the trace's signals,
      all at the same time. `skip_logging` only silences the handlers' log
      lines; the engine task's own `start`/`end` and log lines do not reach
      the handlers. */
  function Replay(t: EventsHandler.Task, trace: seq<Event>, now: nat,
                  determine: (string, bool) -> string): (r: EventsHandler.Task)
    ensures r.(status := t.status, startedAt := t.startedAt, endedAt := t.endedAt, node := t.node) == t
    ensures (forall i :: 0 <= i < |trace| ==> !IsSignal(trace[i])) ==> r == t
    decreases |trace|
  {
    if |trace| == 0 then t
    else
      var next := match trace[0]
                  case StartSignal(_) => EventsHandler.OnStartSignal(t, now, determine)
                  case SuccessSignal(_) => EventsHandler.TaskSucceeded(t, now, determine)
                  case _ => t;
      Replay(next, trace[1..], now, determine)
  }

  /** Replay only sees the signals. */
  lemma {:induction false} ReplaySkipsOthers(t: EventsHandler.Task, a: seq<Event>, e: Event, b: seq<Event>, now: nat,
                                             determine: (string, bool) -> string)
    requires !IsSignal(e)
    ensures Replay(t, a + [e] + b, now, determine) == Replay(t, a + b, now, determine)
    decreases |a|
  {
    if |a| == 0 {
      assert (a + [e] + b)[1..] == b;
      assert a + b == b;
    } else {
      ReplaySkipsOthers(
        match a[0]
        case StartSignal(_) => EventsHandler.OnStartSignal(t, now, determine)
        case SuccessSignal(_) => EventsHandler.TaskSucceeded(t, now, determine)
        case _ => t,
        a[1..], e, b, now, determine);
      assert (a + [e] + b)[0] == a[0] && (a + [e] + b)[1..] == a[1..] + [e] + b;
      assert (a + b)[0] == a[0] && (a + b)[1..] == a[1..] + b;
    }
  }

  /** A stubbed task ends SUCCESS, started and ended at the time of the
      signals, with its retry count untouched. */
  lemma StubTaskSucceeds(task: Task, t: EventsHandler.Task, now: nat, determine: (string, bool) -> string)
    ensures var s := Replay(t, StubExecute(task), now, determine);
            && s.status == EventsHandler.TaskStatus.Success
            && s.startedAt == Some(now) && s.endedAt == Some(now)
            && s.retryCount == t.retryCount
  {
    var r := StubExecute(task);
    assert r[1..][1..] == [];
  }

  /** Dry running leaves the stored task exactly as stubbing it does: the log
      lines and `skip_logging` change nothing the handlers record. */
  lemma DryMatchesStub(task: Task, t: EventsHandler.Task, now: nat, determine: (string, bool) -> string)
    ensures Replay(t, DryExecute(task), now, determine) == Replay(t, StubExecute(task), now, determine)
  {
    var r := DryExecute(task);
    var s := EventsHandler.OnStartSignal(t, now, determine);
    var tail := [SuccessSignal(true)];
    assert r[1..] == [r[1]] + ([r[2]] + tail);
    ReplaySkipsOthers(s, [], r[1], [r[2]] + tail, now, determine);
    assert [] + [r[1]] + ([r[2]] + tail) == r[1..];
    ReplaySkipsOthers(s, [], r[2], tail, now, determine);
    assert [] + [r[2]] + tail == [r[2]] + tail;
    assert tail[1..] == [];
    var stub := StubExecute(task);
    assert stub[1..][1..] == [];
  }

  /** A marker task sends no signal, so the handlers never change its stored
      record. */
  lemma {:induction false} MarkerLeavesRecord(task: Task, t: EventsHandler.Task, now: nat,
                                              determine: (string, bool) -> string)
    ensures Replay(t, MarkerExecute(task), now, determine) == t
  {
    var r := MarkerExecute(task);
    assert r[1..][1..] == [];
  }
}
