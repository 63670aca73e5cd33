/**
 * The racing compile cache of engine/sandbox/sandbox.go: a locked look-up, an unlocked compile and
 * a locked re-check and publish, in any interleaving of any number of callers.
 */
module CompileCache {
  import opened Results

  /** A compiled module; the serial tells apart two compilations of the same file. */
  datatype Module = Module(path: string, serial: nat)

  /** Where one call of Compile stands. */
  datatype Phase =
    | Idle
    | Compiling(path: string)                  // missed the cache, holds no lock
    | Ready(path: string, made: Module)        // compiled, about to take the lock again
    | Returned(path: string, result: Module)
    | Failed(path: string)

  /** The shared map, the calls in progress, and every module any call has returned. */
  datatype State = State(compiled: map<string, Module>, calls: map<nat, Phase>, returned: set<Module>)

  datatype Event =
    | Call(caller: nat, path: string)          // the first locked section
    | Compiled(caller: nat, serial: nat)       // the file was read and compiled
    | CompileFailed(caller: nat)
    | Publish(caller: nat)                     // the second locked section

  function PhaseOf(s: State, caller: nat): Phase {
    if caller in s.calls then s.calls[caller] else Idle
  }

  function Returning(s: State, caller: nat, m: Module): State {
    s.(calls := s.calls[caller := Returned(m.path, m)], returned := s.returned + {m})
  }

  function Step(s: State, e: Event): State {
    match e
    case Call(c, path) =>
      if PhaseOf(s, c).Compiling? || PhaseOf(s, c).Ready? then s // one call at a time
      else if path in s.compiled then Returning(s, c, s.compiled[path])
      else s.(calls := s.calls[c := Compiling(path)])
    case Compiled(c, serial) =>
      if !PhaseOf(s, c).Compiling? then s
      else s.(calls := s.calls[c := Ready(s.calls[c].path, Module(s.calls[c].path, serial))])
    case CompileFailed(c) =>
      if !PhaseOf(s, c).Compiling? then s else s.(calls := s.calls[c := Failed(s.calls[c].path)])
    case Publish(c) =>
      if !PhaseOf(s, c).Ready? then s
      else
        var call := s.calls[c];
        if call.path in s.compiled then Returning(s, c, s.compiled[call.path])
        else Returning(s.(compiled := s.compiled[call.path := call.made]), c, call.made)
  }

  const FRESH := State(map[], map[], {})

  function After(events: seq<Event>): State {
    if events == [] then FRESH else Step(After(events[..|events| - 1]), events[|events| - 1])
  }

  // ----- agreement -----

  /** Entries are modules of their own path, and whatever was returned is the entry of its path. */
  predicate Agrees(s: State) {
    && (forall path | path in s.compiled :: s.compiled[path].path == path)
    && (forall c | c in s.calls && s.calls[c].Ready? :: s.calls[c].made.path == s.calls[c].path)
    && (forall m | m in s.returned :: m.path in s.compiled && s.compiled[m.path] == m)
  }

  lemma StepAgrees(s: State, e: Event)
    requires Agrees(s)
    ensures Agrees(Step(s, e))
    ensures forall path | path in s.compiled :: path in Step(s, e).compiled && Step(s, e).compiled[path] == s.compiled[path]
    ensures s.returned <= Step(s, e).returned
  {
  }

  lemma {:induction false} RunAgrees(events: seq<Event>)
    ensures Agrees(After(events))
  {
    hide Step;
    if events != [] {
      RunAgrees(events[..|events| - 1]);
      StepAgrees(After(events[..|events| - 1]), events[|events| - 1]);
    }
  }

  /** Over every interleaving, an entry of the cache is never replaced or removed. */
  lemma {:induction false} EntriesStay(events: seq<Event>, i: nat, path: string)
    requires i <= |events| && path in After(events[..i]).compiled
    ensures path in After(events).compiled && After(events).compiled[path] == After(events[..i]).compiled[path]
    decreases |events|
  {
    hide Step;
    if i == |events| {
      assert events[..i] == events;
    } else {
      var n := |events| - 1;
      assert events[..n][..i] == events[..i];
      EntriesStay(events[..n], i, path);
      RunAgrees(events[..n]);
      StepAgrees(After(events[..n]), events[n]);
    }
  }

  lemma {:induction false} ResultsStay(events: seq<Event>, i: nat)
    requires i <= |events|
    ensures After(events[..i]).returned <= After(events).returned
    decreases |events|
  {
    hide Step;
    if i == |events| {
      assert events[..i] == events;
    } else {
      var n := |events| - 1;
      assert events[..n][..i] == events[..i];
      ResultsStay(events[..n], i);
      RunAgrees(events[..n]);
      StepAgrees(After(events[..n]), events[n]);
    }
  }

  /**
   * All successful calls for one path return the same module, whenever each of them ran and however
   * many of them compiled: that module was compiled from that path and stays the cache's entry.
   */
  lemma {:induction false} SuccessfulCallsAgree(events: seq<Event>, i: nat, j: nat, m: Module, n: Module)
    requires i <= |events| && j <= |events|
    requires m in After(events[..i]).returned && n in After(events[..j]).returned && m.path == n.path
    ensures m == n && m.path in After(events).compiled && After(events).compiled[m.path] == m
  {
    RunAgrees(events);
    ResultsStay(events, i);
    ResultsStay(events, j);
  }

  // ----- the two locked sections -----

  /** The sandbox's shared state; each method is one critical section. */
  class Sandbox {
    var compiled: map<string, Module>

    constructor ()
      ensures compiled == map[]
    {
      compiled := map[];
    }

    method Lookup(abs: string) returns (hit: Option<Module>)
      ensures hit == if abs in compiled then Some(compiled[abs]) else None
      ensures var s := Step(State(compiled, map[], {}), Call(0, abs));
              if hit.Some? then s.returned == {hit.value} else PhaseOf(s, 0) == Compiling(abs)
    {
      if abs in compiled {
        return Some(compiled[abs]);
      }
      return None;
    }

    method PublishOrDiscard(abs: string, made: Module) returns (result: Module)
      modifies this
      ensures var s := Step(State(old(compiled), map[0 := Ready(abs, made)], {}), Publish(0));
              compiled == s.compiled && s.returned == {result}
      ensures abs in compiled && result == compiled[abs]
      ensures compiled == if abs in old(compiled) then old(compiled) else old(compiled)[abs := made]
    {
      if abs in compiled {
        return compiled[abs];
      }
      compiled := compiled[abs := made];
      return made;
    }
  }
}
