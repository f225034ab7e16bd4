// start and stop of the guest's proxy registry in their own shape
// (guest-agent/src/transport/tcp_vsock_proxy.rs): one thread's straight-line code with early
// returns, between any two operations of which other threads, listeners and other programs in the
// guest do anything they can. Each operation is a step of ProxyRegistry, so what holds of every
// run there holds at every point of these.
module ProxyCalls {
  import opened Wrappers
  import opened ProxyRegistry

  // A step of anything but thread t's own call.
  ghost predicate StepOfOthers(s: Registry, t: nat, s': Registry) {
    || (exists u: nat :: u != t && u < |s.callers| && (Call(s, u, s') || StartStep(s, u, s') || StopStep(s, u, s')))
    || (exists l: nat :: l < |s.listeners| && ListenerStep(s, l, s'))
    || ForeignStep(s, s')
  }

  // What thread t may rely on between two of its operations: its own place in its call does not
  // change, the answers given so far stand, and a listener that has exited stays so.
  predicate Later(s: Registry, t: nat, s': Registry) {
    && |s'.callers| == |s.callers| && (t < |s.callers| ==> s'.callers[t] == s.callers[t])
    && s.log <= s'.log
    && |s.listeners| <= |s'.listeners|
    && forall l :: 0 <= l < |s.listeners| ==>
         && s'.listeners[l].key == s.listeners[l].key
         && (s.listeners[l].stop ==> s'.listeners[l].stop)
         && (s.listeners[l].at.Exited? ==> s'.listeners[l].at.Exited?)
  }

  lemma RelyHolds(s: Registry, t: nat, s': Registry)
    requires Inv(s) && StepOfOthers(s, t, s')
    ensures Step(s, s') && Later(s, t, s')
  {
    hide Inv, Later, Call, StartStep, StopStep, ListenerStep, ForeignStep;
    if u: nat :| u != t && u < |s.callers| && (Call(s, u, s') || StartStep(s, u, s') || StopStep(s, u, s')) {
      CallRely(s, t, u, s');
    } else {
      BystanderRely(s, t, s');
    }
  }

  lemma CallRely(s: Registry, t: nat, u: nat, s': Registry)
    requires Inv(s) && u != t && u < |s.callers|
    requires Call(s, u, s') || StartStep(s, u, s') || StopStep(s, u, s')
    ensures Later(s, t, s')
  {
    hide InUse, HeldApart, Legal, Running, ListenerOk;
    assert CallerOk(s, u, s.callers[u]);
    if Call(s, u, s') {
    } else if StartStep(s, u, s') {
      StartRely(s, t, u, s');
    }
  }

  lemma StartRely(s: Registry, t: nat, u: nat, s': Registry)
    requires u != t && u < |s.callers| && StartStep(s, u, s')
    ensures Later(s, t, s')
  {
    hide InUse;
  }

  lemma BystanderRely(s: Registry, t: nat, s': Registry)
    requires ForeignStep(s, s') || exists l: nat :: l < |s.listeners| && ListenerStep(s, l, s')
    ensures Later(s, t, s')
  {
    hide InUse;
  }

  lemma LaterStill(s: Registry, t: nat, s': Registry, s'': Registry)
    requires Later(s, t, s') && Later(s', t, s'')
    ensures Later(s, t, s'')
  {
  }

  ghost predicate PathOfOthers(path: seq<Registry>, t: nat) {
    path != [] && forall k :: 0 <= k < |path| - 1 ==> StepOfOthers(path[k], t, path[k + 1])
  }

  // Any number of such steps.
  lemma {:induction false} RelyHoldsAlong(path: seq<Registry>, t: nat, k: nat)
    requires PathOfOthers(path, t) && k < |path| && Inv(path[0])
    ensures Inv(path[k]) && Later(path[0], t, path[k])
  {
    hide Inv, Later, StepOfOthers;
    if k == 0 {
      LaterAtOnce(path[0], t);
    } else {
      RelyHoldsAlong(path, t, k - 1);
      assert StepOfOthers(path[k - 1], t, path[k - 1 + 1]);
      RelyHolds(path[k - 1], t, path[k]);
      StepKeepsInv(path[k - 1], path[k]);
      LaterStill(path[0], t, path[k - 1], path[k]);
    }
  }

  lemma LaterAtOnce(s: Registry, t: nat)
    ensures Later(s, t, s)
  {
  }

  lemma ExtendRun(run: seq<Registry>, s: Registry)
    requires IsRun(run) && Step(run[|run| - 1], s)
    ensures IsRun(run + [s])
  {
    hide Step;
  }

  class Agent {
    var state: Registry
    // Every state since the agent started, the current one last.
    ghost var history: seq<Registry>

    ghost predicate Valid()
      reads this
    {
      IsRun(history) && history[|history| - 1] == state && Inv(state)
    }

    constructor (threads: nat)
      ensures Valid() && |state.callers| == threads && state.proxies == map[]
    {
      state := Registry(map[], None, seq(threads, _ => Caller.Idle), [], {}, []);
      history := [Registry(map[], None, seq(threads, _ => Caller.Idle), [], {}, [])];
      InitialInv(Registry(map[], None, seq(threads, _ => Caller.Idle), [], {}, []));
    }

    // Anything the others do meanwhile; RelyHoldsAlong is why this much can be said about it.
    method Others(t: nat)
      requires Valid()
      modifies this
      ensures Valid() && old(history) <= history && Later(old(state), t, state)
    {
    }

    // One operation of thread t, and what the others do before its next.
    method Take(t: nat, s': Registry)
      requires Valid() && t < |state.callers|
      requires Call(state, t, s') || StartStep(state, t, s') || StopStep(state, t, s')
      modifies this
      ensures Valid() && old(history) < history && Later(s', t, state)
    {
      hide Inv, Call, StartStep, StopStep, Later;
      if Call(state, t, s') {
        CallKeepsInv(state, t, s');
      } else if StartStep(state, t, s') {
        StartKeepsInv(state, t, s');
      } else {
        StopKeepsInv(state, t, s');
      }
      ExtendRun(history, s');
      state := s';
      history := history + [s'];
      Others(t);
    }

    // Thread t is at this point of its call.
    ghost predicate At(t: nat, c: Caller)
      reads this
    {
      Valid() && t < |state.callers| && state.callers[t] == c
    }

    // The call has been answered and the answer is on record, after whatever was before it.
    ghost predicate Answered(t: nat, before: nat, e: Entry)
      reads this
    {
      && Valid() && t < |state.callers| && state.callers[t].Returned?
      && var k := state.callers[t].entry; before <= k < |state.log| && state.log[k] == e
    }

    // self.proxies.lock(): no answer means the mutex has not been handed over yet.
    method Lock(t: nat, c: Caller) returns (got: bool)
      requires At(t, c) && (c.StartWaits? || c.StopWaits?)
      modifies this
      ensures old(history) <= history && old(state.log) <= state.log
      ensures At(t, if !got then c else if c.StartWaits? then StartLocked(c.port) else StopLocked(c.port))
    {
      hide Inv;
      got := state.lock == None;
      if got {
        Take(t, Set(state, t, if c.StartWaits? then StartLocked(c.port) else StopLocked(c.port)).(lock := Some(t)));
      }
    }

    // TcpListener::bind, after the map has been looked at; the kernel picks the socket's port.
    method Bind(t: nat, port: nat) returns (ok: bool, socket: nat)
      requires At(t, StartLocked(port))
      modifies this
      ensures old(history) <= history && old(state.log) <= state.log
      ensures ok ==> port !in old(state.proxies) && At(t, StartBound(port, socket))
      ensures !ok ==> Answered(t, |old(state.log)|, StartRefused(port))
    {
      hide Inv, InUse;
      ok, socket := *, *;
      ok := ok && port !in state.proxies && socket != 0 && (port != 0 ==> socket == port) && !InUse(state, socket);
      Take(t, if ok then Set(state, t, StartBound(port, socket)) else Answer(state, t, StartRefused(port)));
    }

    // set_nonblocking(true)?: a failure drops the socket and the mutex.
    method SetNonblocking(t: nat, port: nat, socket: nat) returns (ok: bool)
      requires At(t, StartBound(port, socket))
      modifies this
      ensures old(history) <= history && old(state.log) <= state.log
      ensures ok ==> At(t, StartNonblocking(port, socket))
      ensures !ok ==> Answered(t, |old(state.log)|, StartRefused(port))
    {
      hide Inv, InUse;
      ok := *;
      Take(t, if ok then Set(state, t, StartNonblocking(port, socket)) else Answer(state, t, StartRefused(port)));
    }

    // thread::spawn, then the insert, which ends the call.
    method SpawnAndInsert(t: nat, port: nat, socket: nat)
      requires At(t, StartNonblocking(port, socket))
      modifies this
      ensures old(history) <= history && Answered(t, |old(state.log)|, Started(port))
    {
      hide InUse, HeldApart, Legal, Running;
      var l := |state.listeners|;
      Take(t, Set(state, t, StartSpawned(port, l))
              .(listeners := state.listeners + [Listener(port, socket, false, CheckFlag, Starter(t))]));
      assert CallerOk(state, t, state.callers[t]);
      Take(t, Answer(state, t, Started(port))
              .(proxies := state.proxies[port := l],
                listeners := state.listeners[l := state.listeners[l].(owner := Map)]));
    }

    // ProxyRegistry::start. Some(ok) is its answer, which the sequential registry gave during the
    // call; None means it is still waiting for the mutex.
    method Start(t: nat, port: nat) returns (r: Option<bool>)
      requires At(t, Caller.Idle)
      modifies this
      ensures old(history) <= history
      ensures r.Some? ==> Answered(t, |old(state.log)|, if r.value then Started(port) else StartRefused(port))
      ensures r.None? ==> At(t, StartWaits(port))
    {
      hide Inv, InUse, StartStep, StopStep, IsRun;
      Take(t, Set(state, t, StartWaits(port)));
      var ok := Lock(t, StartWaits(port));
      if !ok {
        return None;
      }
      var socket;
      ok, socket := Bind(t, port);
      if !ok {
        return Some(false);
      }
      ok := SetNonblocking(t, port, socket);
      if !ok {
        return Some(false);
      }
      SpawnAndInsert(t, port, socket);
      return Some(true);
    }

    // remove(&tcp_port), which also ends the hold on the mutex.
    method Remove(t: nat, port: nat) returns (found: bool, l: nat, entry: nat)
      requires At(t, StopLocked(port))
      modifies this
      ensures old(history) <= history && old(state.log) <= state.log
      ensures found <==> port in old(state.proxies)
      ensures found ==> && l == old(state.proxies)[port] && At(t, StopSignals(port, l, entry))
                        && |old(state.log)| <= entry < |state.log| && state.log[entry] == Stopped(port)
      ensures !found ==> Answered(t, |old(state.log)|, StopRefused(port))
    {
      hide InUse, HeldApart, Legal, Running;
      found, l, entry := port in state.proxies, 0, |state.log|;
      if found {
        l := state.proxies[port];
        Take(t, Set(state, t, StopSignals(port, l, entry))
                .(lock := None, log := state.log + [Stopped(port)], proxies := state.proxies - {port},
                  listeners := state.listeners[l := state.listeners[l].(owner := Stopper(t))]));
      } else {
        Take(t, Answer(state, t, StopRefused(port)));
      }
    }

    // The flag is stored and the thread joined.
    method SignalAndJoin(t: nat, port: nat, l: nat, entry: nat) returns (joined: bool)
      requires At(t, StopSignals(port, l, entry))
      modifies this
      ensures old(history) <= history && old(state.log) <= state.log
      ensures l < |state.listeners| && state.listeners[l].stop && state.listeners[l].key == port
      ensures At(t, if joined then Returned(entry) else StopJoins(port, l, entry))
      ensures joined ==> state.listeners[l].at.Exited?
    {
      hide InUse, HeldApart, Legal, Running;
      assert CallerOk(state, t, state.callers[t]);
      Take(t, Set(state, t, StopJoins(port, l, entry)).(listeners := state.listeners[l := state.listeners[l].(stop := true)]));
      joined := state.listeners[l].at.Exited?;
      if joined {
        Take(t, Set(state, t, Returned(entry)).(listeners := state.listeners[l := state.listeners[l].(owner := Nobody)]));
      }
    }

    // ProxyRegistry::stop. When it answers Ok, the listener it took out of the map has exited and
    // its socket is closed; None means it is still waiting, for the mutex or for that listener,
    // which by then has been told to stop.
    method Stop(t: nat, port: nat) returns (r: Option<bool>, ghost taken: Option<nat>)
      requires At(t, Caller.Idle)
      modifies this
      ensures old(history) <= history
      ensures r.Some? ==> Answered(t, |old(state.log)|, if r.value then Stopped(port) else StopRefused(port))
      ensures r == Some(true) ==> taken.Some?
      ensures taken.Some? ==> && taken.value < |state.listeners| && state.listeners[taken.value].key == port
                              && state.listeners[taken.value].stop
                              && (r.Some? ==> state.listeners[taken.value].at.Exited?)
      ensures r.None? && taken.None? ==> At(t, StopWaits(port))
    {
      hide InUse, HeldApart, Legal, Running;
      taken := None;
      Take(t, Set(state, t, StopWaits(port)));
      var ok := Lock(t, StopWaits(port));
      if !ok {
        return None, None;
      }
      var l, entry;
      ok, l, entry := Remove(t, port);
      if !ok {
        return Some(false), None;
      }
      assert CallerOk(state, t, state.callers[t]);
      ok := SignalAndJoin(t, port, l, entry);
      r, taken := if ok then Some(true) else None, Some(l);
    }
  }
}
