/**
  The application container: start resources in order, roll back on failure, close in reverse.

  Whether a resource's start or stop call raises is a parameter of each call.  A ghost log records
  every call made on a resource.
 */
module ContainerLifecycle {
  import opened Common

  type Resource = nat

  datatype Event =
    | Started(r: Resource)
    | StartFailed(r: Resource)
    | StopTried(r: Resource, ok: bool)
    | Disposed(ok: bool)

  /** What the caller sees: errors are counted as the exception groups carry them. */
  datatype Outcome = Done | ClosedAlready | StartFailure(cleanupErrors: nat) | CloseFailure(errors: nat)

  datatype State = State(running: seq<Resource>, started: bool, closed: bool, log: seq<Event>)

  const FRESH := State([], false, false, [])

  datatype Command =
    | Start(starts: Resource -> bool, stops: Resource -> bool)
    | Close(stops: Resource -> bool, disposes: bool)

  /** The resources that start before the first one that raises. */
  function Up(resources: seq<Resource>, starts: Resource -> bool): (up: seq<Resource>)
    ensures up <= resources
  {
    if resources == [] || !starts(resources[0]) then [] else [resources[0]] + Up(resources[1..], starts)
  }

  function StartLog(up: seq<Resource>): seq<Event> {
    if up == [] then [] else StartLog(up[..|up| - 1]) + [Started(up[|up| - 1])]
  }

  function StopLog(running: seq<Resource>, stops: Resource -> bool): seq<Event> {
    if running == [] then []
    else
      var last := running[|running| - 1];
      [StopTried(last, stops(last))] + StopLog(running[..|running| - 1], stops)
  }

  function Failures(running: seq<Resource>, stops: Resource -> bool): nat {
    if running == [] then 0
    else (if stops(running[|running| - 1]) then 0 else 1) + Failures(running[..|running| - 1], stops)
  }

  function Apply(resources: seq<Resource>, s: State, c: Command): (State, Outcome) {
    match c
    case Start(starts, stops) =>
      if s.closed then (s, ClosedAlready)
      else if s.started then (s, Done)
      else
        var up := Up(resources, starts);
        var running, log := s.running + up, s.log + StartLog(up);
        if up == resources then (State(running, true, false, log), Done)
        else
          (State([], false, false, log + [StartFailed(resources[|up|])] + StopLog(running, stops)),
           StartFailure(Failures(running, stops)))
    case Close(stops, disposes) =>
      if s.closed then (s, Done)
      else
        var errors := Failures(s.running, stops) + if disposes then 0 else 1;
        (State([], false, true, s.log + StopLog(s.running, stops) + [Disposed(disposes)]),
         if errors == 0 then Done else CloseFailure(errors))
  }

  function Run(resources: seq<Resource>, s: State, commands: seq<Command>): State
    decreases |commands|
  {
    if commands == [] then s else Run(resources, Apply(resources, s, commands[0]).0, commands[1..])
  }

  // ---------------------------------------------------------------------------
  // Brackets
  // ---------------------------------------------------------------------------

  /** Read a log as brackets: a start opens, a stop attempt must close the one opened last. */
  function Open(log: seq<Event>): Option<seq<Resource>> {
    if log == [] then Some([])
    else
      var before := Open(log[..|log| - 1]);
      if before.None? then None
      else match log[|log| - 1]
        case Started(r) => Some(before.value + [r])
        case StopTried(r, _) =>
          if before.value != [] && before.value[|before.value| - 1] == r
          then Some(before.value[..|before.value| - 1]) else None
        case _ => before
  }

  function StartCount(log: seq<Event>, r: Resource): nat {
    if log == [] then 0 else StartCount(log[..|log| - 1], r) + if log[|log| - 1] == Started(r) then 1 else 0
  }

  function StopCount(log: seq<Event>, r: Resource): nat {
    if log == [] then 0
    else StopCount(log[..|log| - 1], r) + if log[|log| - 1].StopTried? && log[|log| - 1].r == r then 1 else 0
  }

  /** In a bracketed log the starts of a resource are its stop attempts and the open ones. */
  lemma {:induction false} StartsAreStopsAndOpen(log: seq<Event>, r: Resource)
    requires Open(log).Some?
    ensures StartCount(log, r) == StopCount(log, r) + multiset(Open(log).value)[r]
  {
    if log != [] {
      var front, e := log[..|log| - 1], log[|log| - 1];
      StartsAreStopsAndOpen(front, r);
      var before := Open(front).value;
      if e.StopTried? {
        assert before == before[..|before| - 1] + [e.r];
      }
    }
  }

  lemma OpenSnoc(log: seq<Event>, e: Event)
    ensures Open(log + [e]) ==
              if Open(log).None? then None
              else match e
                case Started(r) => Some(Open(log).value + [r])
                case StopTried(r, _) =>
                  if Open(log).value != [] && Open(log).value[|Open(log).value| - 1] == r
                  then Some(Open(log).value[..|Open(log).value| - 1]) else None
                case _ => Open(log)
  {
    assert (log + [e])[..|log|] == log;
  }

  lemma StartLogSnoc(log: seq<Event>, up: seq<Resource>)
    requires up != []
    ensures log + StartLog(up) == (log + StartLog(up[..|up| - 1])) + [Started(up[|up| - 1])]
  {
    Regroup(log, StartLog(up[..|up| - 1]), [Started(up[|up| - 1])]);
  }

  lemma Regroup(a: seq<Event>, b: seq<Event>, c: seq<Event>)
    ensures a + (b + c) == (a + b) + c
  {
  }

  lemma {:induction false} StartingOpens(log: seq<Event>, up: seq<Resource>)
    requires Open(log).Some?
    ensures Open(log + StartLog(up)) == Some(Open(log).value + up)
  {
    if up == [] {
      assert log + [] == log;
      assert Open(log).value + [] == Open(log).value;
    } else {
      var front, r := up[..|up| - 1], up[|up| - 1];
      StartingOpens(log, front);
      StartLogSnoc(log, up);
      OpenSnoc(log + StartLog(front), Started(r));
      assert (Open(log).value + front) + [r] == Open(log).value + up;
    }
  }

  lemma {:induction false} StoppingCloses(log: seq<Event>, running: seq<Resource>, stops: Resource -> bool)
    requires Open(log) == Some(running)
    ensures Open(log + StopLog(running, stops)) == Some([])
    decreases |running|
  {
    if running == [] {
      assert log + [] == log;
    } else {
      var front, r := running[..|running| - 1], running[|running| - 1];
      OpenSnoc(log, StopTried(r, stops(r)));
      StoppingCloses(log + [StopTried(r, stops(r))], front, stops);
      assert log + StopLog(running, stops) == (log + [StopTried(r, stops(r))]) + StopLog(front, stops);
    }
  }

  /** What is running is what the log has open; nothing runs in a container that is not started. */
  ghost predicate Bracketed(resources: seq<Resource>, s: State) {
    && Open(s.log) == Some(s.running)
    && s.running == (if s.started then resources else [])
    && !(s.started && s.closed)
  }

  lemma CommandKeepsBrackets(resources: seq<Resource>, s: State, c: Command)
    requires Bracketed(resources, s)
    ensures Bracketed(resources, Apply(resources, s, c).0)
  {
    match c
    case Start(starts, stops) =>
      var up := Up(resources, starts);
      StartingOpens(s.log, up);
      if up != resources {
        var log := s.log + StartLog(up);
        OpenSnoc(log, StartFailed(resources[|up|]));
        StoppingCloses(log + [StartFailed(resources[|up|])], s.running + up, stops);
      }
    case Close(stops, disposes) =>
      StoppingCloses(s.log, s.running, stops);
      OpenSnoc(s.log + StopLog(s.running, stops), Disposed(disposes));
  }

  lemma {:induction false} RunKeepsBrackets(resources: seq<Resource>, s: State, commands: seq<Command>)
    requires Bracketed(resources, s)
    ensures Bracketed(resources, Run(resources, s, commands))
    decreases |commands|
  {
    if commands != [] {
      CommandKeepsBrackets(resources, s, commands[0]);
      RunKeepsBrackets(resources, Apply(resources, s, commands[0]).0, commands[1..]);
    }
  }

  /**
    Over every sequence of calls, whatever raises: starts and stop attempts nest last in, first out;
    unless the container is running, every start has been answered by exactly one stop attempt.
   */
  lemma LifecycleIsBracketed(resources: seq<Resource>, commands: seq<Command>, r: Resource)
    ensures var s := Run(resources, FRESH, commands);
            && Open(s.log) == Some(if s.started then resources else [])
            && StartCount(s.log, r) == StopCount(s.log, r) + if s.started then multiset(resources)[r] else 0
  {
    RunKeepsBrackets(resources, FRESH, commands);
    StartsAreStopsAndOpen(Run(resources, FRESH, commands).log, r);
  }

  /** After a close, whatever was called before and whatever is called later: nothing reaches a resource again. */
  lemma {:induction false} NothingAfterClose(resources: seq<Resource>, s: State, commands: seq<Command>, i: nat)
    requires i < |commands| && commands[i].Close?
    ensures Run(resources, s, commands) == Run(resources, s, commands[..i + 1])
    ensures Run(resources, s, commands).closed
    decreases |commands|
  {
    var next, rest := Apply(resources, s, commands[0]).0, commands[1..];
    assert commands[..i + 1][1..] == rest[..i];
    if i == 0 {
      assert rest[..0] == [];
      ClosedIsSilent(resources, next, rest);
    } else {
      NothingAfterClose(resources, next, rest, i - 1);
    }
  }

  /** Once closed, always closed. */
  lemma {:induction false} ClosedIsSilent(resources: seq<Resource>, s: State, commands: seq<Command>)
    requires s.closed
    ensures Run(resources, s, commands) == s
    decreases |commands|
  {
    if commands != [] {
      ClosedIsSilent(resources, s, commands[1..]);
    }
  }

  // ---------------------------------------------------------------------------
  // The container
  // ---------------------------------------------------------------------------

  class Container {
    const resources: seq<Resource>
    var startedResources: seq<Resource>
    var started: bool
    var closed: bool
    ghost var log: seq<Event>

    constructor (resources: seq<Resource>)
      ensures this.resources == resources && Now() == FRESH
    {
      this.resources := resources;
      startedResources, started, closed, log := [], false, false, [];
    }

    ghost function Now(): State
      reads this
    {
      State(startedResources, started, closed, log)
    }

    /** Stop what runs in reverse order, going on when a stop raises. */
    method StopAll(stops: Resource -> bool) returns (errors: nat)
      modifies this`startedResources, this`log
      ensures startedResources == []
      ensures log == old(log) + StopLog(old(startedResources), stops)
      ensures errors == Failures(old(startedResources), stops)
    {
      errors := 0;
      var i := |startedResources|;
      assert startedResources[..i] == startedResources;
      while i > 0
        invariant 0 <= i <= |startedResources| && startedResources == old(startedResources)
        invariant log + StopLog(startedResources[..i], stops) == old(log) + StopLog(old(startedResources), stops)
        invariant errors + Failures(startedResources[..i], stops) == Failures(old(startedResources), stops)
      {
        i := i - 1;
        var r := startedResources[i];
        assert startedResources[..i + 1][..i] == startedResources[..i];
        assert startedResources[..i + 1][i] == r;
        if !stops(r) {
          errors := errors + 1;
        }
        log := log + [StopTried(r, stops(r))];
      }
      startedResources := [];
    }

    method Start(starts: Resource -> bool, stops: Resource -> bool) returns (outcome: Outcome)
      modifies this
      ensures (Now(), outcome) == Apply(resources, old(Now()), Command.Start(starts, stops))
    {
      if closed {
        return ClosedAlready;
      }
      if started {
        return Done;
      }
      ghost var before := Now();
      var i := 0;
      while i < |resources| && starts(resources[i])
        invariant i <= |resources| && !closed && !started
        invariant forall j | 0 <= j < i :: starts(resources[j])
        invariant startedResources == before.running + resources[..i]
        invariant log == before.log + StartLog(resources[..i])
      {
        assert resources[..i + 1][..i] == resources[..i];
        log := log + [Started(resources[i])];
        startedResources := startedResources + [resources[i]];
        i := i + 1;
      }
      UpIs(resources, starts, i);
      if i < |resources| {
        log := log + [StartFailed(resources[i])];
        var cleanupErrors := StopAll(stops);
        return StartFailure(cleanupErrors);
      }
      started := true;
      return Done;
    }

    method Close(stops: Resource -> bool, disposes: bool) returns (outcome: Outcome)
      modifies this
      ensures (Now(), outcome) == Apply(resources, old(Now()), Command.Close(stops, disposes))
    {
      if closed {
        return Done;
      }
      closed := true;
      var errors := StopAll(stops);
      started := false;
      log := log + [Disposed(disposes)];
      if !disposes {
        errors := errors + 1;
      }
      return if errors == 0 then Done else CloseFailure(errors);
    }
  }

  lemma {:induction false} UpIs(resources: seq<Resource>, starts: Resource -> bool, n: nat)
    requires n <= |resources| && (forall j | 0 <= j < n :: starts(resources[j]))
    requires n < |resources| ==> !starts(resources[n])
    ensures Up(resources, starts) == resources[..n]
  {
    if n > 0 {
      UpIs(resources[1..], starts, n - 1);
      assert resources[..n] == [resources[0]] + resources[1..][..n - 1];
    }
  }
}
