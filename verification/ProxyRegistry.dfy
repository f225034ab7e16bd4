// The guest agent's proxy registry (guest-agent/src/transport/tcp_vsock_proxy.rs) as a step
// system: any number of threads calling start and stop, one listener thread per running proxy, a
// mutex around the map, a stop flag per listener, and a join made after the mutex is released.
// The operating system gives a TCP port to one socket at a time; port 0 asks it for a free one.
module ProxyRegistry {
  import opened Wrappers

  // A listener thread is about to look at its flag, is in accept (or asleep after it), or has
  // returned and dropped its socket.
  datatype ListenerAt = CheckFlag | InAccept | Exited

  // `key` is the port it was asked for, `socket` the port it is bound to. `owner` says who will
  // still do something with its handle: it is bookkeeping of the proof.
  datatype Owner = Starter(t: nat) | Map | Stopper(t: nat) | Nobody

  datatype Listener = Listener(key: nat, socket: nat, stop: bool, at: ListenerAt, owner: Owner)

  datatype Caller =
    | Idle
    | StartWaits(port: nat)
    | StartLocked(port: nat)
    | StartBound(port: nat, socket: nat)
    | StartNonblocking(port: nat, socket: nat)
    | StartSpawned(port: nat, l: nat)
    | StopWaits(port: nat)
    | StopLocked(port: nat)
    | StopSignals(port: nat, l: nat, entry: nat)
    | StopJoins(port: nat, l: nat, entry: nat)
    | Returned(entry: nat)

  // What a call will answer, in the order in which the calls took effect under the mutex.
  datatype Entry = Started(port: nat) | StartRefused(port: nat) | Stopped(port: nat) | StopRefused(port: nat)

  datatype Registry = Registry(proxies: map<nat, nat>, lock: Option<nat>, callers: seq<Caller>,
                               listeners: seq<Listener>, foreign: set<nat>, log: seq<Entry>)

  predicate HoldsLock(c: Caller) {
    c.StartLocked? || c.StartBound? || c.StartNonblocking? || c.StartSpawned? || c.StopLocked?
  }

  // The port is taken: by a live listener, by the socket a start has just bound, or by another
  // program in the guest.
  predicate InUse(s: Registry, port: nat) {
    || port in s.foreign
    || (exists l :: 0 <= l < |s.listeners| && !s.listeners[l].at.Exited? && s.listeners[l].socket == port)
    || (exists t :: 0 <= t < |s.callers| && (s.callers[t].StartBound? || s.callers[t].StartNonblocking?)
                    && s.callers[t].socket == port)
  }

  function Set(s: Registry, t: nat, c: Caller): Registry
    requires t < |s.callers|
  {
    s.(callers := s.callers[t := c])
  }

  // The call answers here, with the mutex in hand, and lets it go.
  function Answer(s: Registry, t: nat, e: Entry): Registry
    requires t < |s.callers|
  {
    Set(s, t, Returned(|s.log|)).(lock := None, log := s.log + [e])
  }

  predicate Call(s: Registry, t: nat, s': Registry)
    requires t < |s.callers|
  {
    match s.callers[t]
    case Idle =>
      |s'.callers| == |s.callers| && (s'.callers[t].StartWaits? || s'.callers[t].StopWaits?) && s' == Set(s, t, s'.callers[t])
    case Returned(_) => s' == Set(s, t, Idle)
    case _ => false
  }

  predicate StartStep(s: Registry, t: nat, s': Registry)
    requires t < |s.callers|
  {
    match s.callers[t]
    case StartWaits(p) =>
      s.lock == None && s' == Set(s, t, StartLocked(p)).(lock := Some(t))
    case StartLocked(p) =>
      || s' == Answer(s, t, StartRefused(p))      // contains_key, or bind fails
      || (&& p !in s.proxies
          && |s'.callers| == |s.callers| && s'.callers[t].StartBound?
          && var q := s'.callers[t].socket;
             q != 0 && (p != 0 ==> q == p) && !InUse(s, q) && s' == Set(s, t, StartBound(p, q)))
    case StartBound(p, q) =>
      s' == Answer(s, t, StartRefused(p)) || s' == Set(s, t, StartNonblocking(p, q))
    case StartNonblocking(p, q) =>
      s' == Set(s, t, StartSpawned(p, |s.listeners|))
            .(listeners := s.listeners + [Listener(p, q, false, CheckFlag, Starter(t))])
    case StartSpawned(p, l) =>
      && l < |s.listeners|
      && s' == Answer(s, t, Started(p))
               .(proxies := s.proxies[p := l], listeners := s.listeners[l := s.listeners[l].(owner := Map)])
    case _ => false
  }

  predicate StopStep(s: Registry, t: nat, s': Registry)
    requires t < |s.callers|
  {
    match s.callers[t]
    case StopWaits(p) =>
      s.lock == None && s' == Set(s, t, StopLocked(p)).(lock := Some(t))
    case StopLocked(p) =>
      if p !in s.proxies then s' == Answer(s, t, StopRefused(p))
      else
        var l := s.proxies[p];
        && l < |s.listeners|
        && s' == Set(s, t, StopSignals(p, l, |s.log|))
                 .(lock := None, log := s.log + [Stopped(p)], proxies := s.proxies - {p},
                   listeners := s.listeners[l := s.listeners[l].(owner := Stopper(t))])
    case StopSignals(p, l, e) =>
      && l < |s.listeners|
      && s' == Set(s, t, StopJoins(p, l, e)).(listeners := s.listeners[l := s.listeners[l].(stop := true)])
    case StopJoins(p, l, e) =>
      && l < |s.listeners| && s.listeners[l].at.Exited?
      && s' == Set(s, t, Returned(e)).(listeners := s.listeners[l := s.listeners[l].(owner := Nobody)])
    case _ => false
  }

  // One turn of run_listener's loop. It never takes the mutex.
  predicate ListenerStep(s: Registry, l: nat, s': Registry)
    requires l < |s.listeners|
  {
    var x := s.listeners[l];
    && !x.at.Exited?
    && s' == s.(listeners := s.listeners[l := x.(at :=
                  if x.at.InAccept? then CheckFlag else if x.stop then Exited else InAccept)])
  }

  // Other programs in the guest bind free ports and release theirs.
  predicate ForeignStep(s: Registry, s': Registry) {
    s' == s.(foreign := s'.foreign) && forall q :: q in s'.foreign && q !in s.foreign ==> !InUse(s, q)
  }

  ghost predicate Step(s: Registry, s': Registry) {
    || (exists t: nat :: t < |s.callers| && (Call(s, t, s') || StartStep(s, t, s') || StopStep(s, t, s')))
    || (exists l: nat :: l < |s.listeners| && ListenerStep(s, l, s'))
    || ForeignStep(s, s')
  }

  predicate Initial(s: Registry) {
    && s.proxies == map[] && s.lock == None && s.listeners == [] && s.log == []
    && forall t :: 0 <= t < |s.callers| ==> s.callers[t].Idle?
  }

  ghost predicate IsRun(run: seq<Registry>) {
    && run != [] && Initial(run[0])
    && forall k :: 0 <= k < |run| - 1 ==> Step(run[k], run[k + 1])
  }

  // ----- The sequential registry: a set of ports

  function Running(log: seq<Entry>): set<nat> {
    if log == [] then {} else
      var before := Running(log[..|log| - 1]);
      match log[|log| - 1]
      case Started(p) => before + {p}
      case Stopped(p) => before - {p}
      case _ => before
  }

  // A start succeeds only on a port that is not running; a stop succeeds exactly on one that is.
  predicate Legal(log: seq<Entry>) {
    log == [] ||
    var before := log[..|log| - 1];
    && Legal(before)
    && match log[|log| - 1]
       case Started(p) => p !in Running(before)
       case StartRefused(_) => true
       case Stopped(p) => p in Running(before)
       case StopRefused(p) => p !in Running(before)
  }

  lemma AppendEntry(log: seq<Entry>, e: Entry)
    requires Legal(log)
    requires e.Started? || e.StopRefused? ==> e.port !in Running(log)
    requires e.Stopped? ==> e.port in Running(log)
    ensures Legal(log + [e])
    ensures Running(log + [e]) ==
            if e.Started? then Running(log) + {e.port} else if e.Stopped? then Running(log) - {e.port} else Running(log)
  {
    assert (log + [e])[..|log|] == log;
  }

  // ----- Invariant

  predicate CallerOk(s: Registry, t: nat, c: Caller) {
    && (HoldsLock(c) <==> s.lock == Some(t))
    && match c
       case StartBound(p, q) => p !in s.proxies && q != 0 && (p != 0 ==> q == p)
       case StartNonblocking(p, q) => p !in s.proxies && q != 0 && (p != 0 ==> q == p)
       case StartSpawned(p, l) =>
         p !in s.proxies && l < |s.listeners| && s.listeners[l].key == p && s.listeners[l].owner == Starter(t)
       case StopSignals(p, l, e) =>
         && l < |s.listeners| && s.listeners[l].key == p && s.listeners[l].owner == Stopper(t) && !s.listeners[l].stop
         && e < |s.log| && s.log[e] == Stopped(p)
       case StopJoins(p, l, e) =>
         && l < |s.listeners| && s.listeners[l].key == p && s.listeners[l].owner == Stopper(t) && s.listeners[l].stop
         && e < |s.log| && s.log[e] == Stopped(p)
       case Returned(e) => e < |s.log|
       case _ => true
  }

  predicate ListenerOk(s: Registry, l: nat, x: Listener) {
    && (x.at.Exited? ==> x.stop) && x.socket != 0 && (x.key != 0 ==> x.socket == x.key)
    && match x.owner
       case Starter(t) => !x.stop && t < |s.callers| && s.callers[t] == StartSpawned(x.key, l)
       case Map => !x.stop && x.key in s.proxies && s.proxies[x.key] == l
       case Stopper(t) =>
         && t < |s.callers|
         && (s.callers[t].StopSignals? || s.callers[t].StopJoins?) && s.callers[t].port == x.key && s.callers[t].l == l
       case Nobody => x.at.Exited?
  }

  // The ports held inside the agent: by live listeners and by a start that has bound its socket.
  predicate HeldApart(s: Registry) {
    && (forall l, m :: 0 <= l < m < |s.listeners| && !s.listeners[l].at.Exited? && !s.listeners[m].at.Exited? ==>
                         s.listeners[l].socket != s.listeners[m].socket)
    && (forall l, t :: 0 <= l < |s.listeners| && 0 <= t < |s.callers| && !s.listeners[l].at.Exited?
                       && (s.callers[t].StartBound? || s.callers[t].StartNonblocking?) ==>
                         s.listeners[l].socket != s.callers[t].socket)
  }

  predicate CallersOk(s: Registry) {
    forall t :: 0 <= t < |s.callers| ==> CallerOk(s, t, s.callers[t])
  }

  predicate ListenersOk(s: Registry) {
    forall l :: 0 <= l < |s.listeners| ==> ListenerOk(s, l, s.listeners[l])
  }

  predicate MapOk(s: Registry) {
    forall p :: p in s.proxies ==>
      s.proxies[p] < |s.listeners| && s.listeners[s.proxies[p]].key == p && s.listeners[s.proxies[p]].owner == Map
  }

  predicate Inv(s: Registry) {
    && (s.lock.Some? ==> s.lock.value < |s.callers|)
    && CallersOk(s) && ListenersOk(s) && MapOk(s)
    && Legal(s.log) && Running(s.log) == s.proxies.Keys
    && HeldApart(s)
  }

  // Where no port is newly held, the ports held stay apart.
  lemma StaysApart(s: Registry, s': Registry)
    requires HeldApart(s) && |s'.listeners| == |s.listeners| && |s'.callers| == |s.callers|
    requires forall l :: 0 <= l < |s.listeners| ==>
               (s.listeners[l].at.Exited? ==> s'.listeners[l].at.Exited?) && s'.listeners[l].socket == s.listeners[l].socket
    requires forall t :: 0 <= t < |s.callers| && (s'.callers[t].StartBound? || s'.callers[t].StartNonblocking?) ==>
               s'.callers[t] == s.callers[t]
    ensures HeldApart(s')
  {
  }

  lemma CallKeepsInv(s: Registry, t: nat, s': Registry)
    requires Inv(s) && t < |s.callers| && Call(s, t, s')
    ensures Inv(s')
  {
    hide Legal, Running;
  }

  lemma LockKeepsInv(s: Registry, t: nat, s': Registry)
    requires Inv(s) && t < |s.callers| && StartStep(s, t, s') && s.callers[t].StartWaits?
    ensures Inv(s')
  {
    hide Legal, Running;
  }

  lemma RefusalKeepsInv(s: Registry, t: nat, s': Registry)
    requires Inv(s) && t < |s.callers| && StartStep(s, t, s') && !s.callers[t].StartSpawned?
    requires |s'.callers| == |s.callers| && s'.callers[t].Returned?
    ensures Inv(s')
  {
    hide Legal, Running, InUse, HeldApart;
    AppendEntry(s.log, StartRefused(s.callers[t].port));
    StaysApart(s, s');
  }

  lemma BindKeepsInv(s: Registry, t: nat, s': Registry)
    requires Inv(s) && t < |s.callers| && StartStep(s, t, s') && s.callers[t].StartLocked?
    requires |s'.callers| == |s.callers| && s'.callers[t].StartBound?
    ensures Inv(s')
  {
    hide Legal, Running;
  }

  lemma NonblockingKeepsInv(s: Registry, t: nat, s': Registry)
    requires Inv(s) && t < |s.callers| && StartStep(s, t, s') && s.callers[t].StartBound?
    requires |s'.callers| == |s.callers| && s'.callers[t].StartNonblocking?
    ensures Inv(s')
  {
    hide Legal, Running;
  }

  lemma SpawnKeepsInv(s: Registry, t: nat, s': Registry)
    requires Inv(s) && t < |s.callers| && StartStep(s, t, s') && s.callers[t].StartNonblocking?
    ensures Inv(s')
  {
    hide Legal, Running;
  }

  lemma InsertKeepsInv(s: Registry, t: nat, s': Registry)
    requires Inv(s) && t < |s.callers| && StartStep(s, t, s') && s.callers[t].StartSpawned?
    ensures Inv(s')
  {
    hide Legal, Running, InUse, HeldApart, CallersOk, ListenersOk;
    InserterOk(s, t);
    AppendEntry(s.log, Started(s.callers[t].port));
    StaysApart(s, s');
    InsertKeepsCallers(s, t, s');
    InsertKeepsListeners(s, t, s');
  }

  lemma InserterOk(s: Registry, t: nat)
    requires CallersOk(s) && t < |s.callers|
    ensures CallerOk(s, t, s.callers[t])
  {
  }

  lemma InsertKeepsCallers(s: Registry, t: nat, s': Registry)
    requires CallersOk(s) && t < |s.callers| && StartStep(s, t, s') && s.callers[t].StartSpawned?
    ensures CallersOk(s')
  {
  }

  lemma InsertKeepsListeners(s: Registry, t: nat, s': Registry)
    requires ListenersOk(s) && t < |s.callers| && CallerOk(s, t, s.callers[t])
    requires StartStep(s, t, s') && s.callers[t].StartSpawned?
    ensures ListenersOk(s')
  {
  }

  lemma StartKeepsInv(s: Registry, t: nat, s': Registry)
    requires Inv(s) && t < |s.callers| && StartStep(s, t, s')
    ensures Inv(s')
  {
    hide Inv, InUse;
    match s.callers[t] {
      case StartWaits(_) => LockKeepsInv(s, t, s');
      case StartNonblocking(_, _) => SpawnKeepsInv(s, t, s');
      case StartSpawned(_, _) => InsertKeepsInv(s, t, s');
      case StartLocked(_) =>
        if s'.callers[t].Returned? { RefusalKeepsInv(s, t, s'); } else { BindKeepsInv(s, t, s'); }
      case StartBound(_, _) =>
        if s'.callers[t].Returned? { RefusalKeepsInv(s, t, s'); } else { NonblockingKeepsInv(s, t, s'); }
    }
  }

  lemma StopLockKeepsInv(s: Registry, t: nat, s': Registry)
    requires Inv(s) && t < |s.callers| && StopStep(s, t, s') && s.callers[t].StopWaits?
    ensures Inv(s')
  {
    hide Legal, Running;
  }

  lemma RemoveKeepsInv(s: Registry, t: nat, s': Registry)
    requires Inv(s) && t < |s.callers| && StopStep(s, t, s') && s.callers[t].StopLocked?
    requires s.callers[t].port in s.proxies
    ensures Inv(s')
  {
    hide Legal, Running, InUse, HeldApart, CallersOk, ListenersOk;
    AppendEntry(s.log, Stopped(s.callers[t].port));
    StaysApart(s, s');
    RemoveKeepsCallers(s, t, s');
    RemoveKeepsListeners(s, t, s');
  }

  lemma RemoveKeepsCallers(s: Registry, t: nat, s': Registry)
    requires CallersOk(s) && MapOk(s) && t < |s.callers| && StopStep(s, t, s') && s.callers[t].StopLocked?
    requires s.callers[t].port in s.proxies && ListenersOk(s)
    ensures CallersOk(s')
  {
    var l := s.proxies[s.callers[t].port];
    assert ListenerOk(s, l, s.listeners[l]);
  }

  lemma RemoveKeepsListeners(s: Registry, t: nat, s': Registry)
    requires ListenersOk(s) && MapOk(s) && t < |s.callers| && StopStep(s, t, s') && s.callers[t].StopLocked?
    requires s.callers[t].port in s.proxies
    ensures ListenersOk(s')
  {
  }

  lemma StopRefusalKeepsInv(s: Registry, t: nat, s': Registry)
    requires Inv(s) && t < |s.callers| && StopStep(s, t, s') && s.callers[t].StopLocked?
    requires s.callers[t].port !in s.proxies
    ensures Inv(s')
  {
    hide Legal, Running, InUse, HeldApart;
    AppendEntry(s.log, StopRefused(s.callers[t].port));
    StaysApart(s, s');
  }

  lemma SignalKeepsInv(s: Registry, t: nat, s': Registry)
    requires Inv(s) && t < |s.callers| && StopStep(s, t, s') && s.callers[t].StopSignals?
    ensures Inv(s')
  {
    hide Legal, Running, HeldApart;
    StaysApart(s, s');
  }

  lemma JoinKeepsInv(s: Registry, t: nat, s': Registry)
    requires Inv(s) && t < |s.callers| && StopStep(s, t, s') && s.callers[t].StopJoins?
    ensures Inv(s')
  {
    hide Legal, Running, HeldApart;
    StaysApart(s, s');
  }

  lemma StopKeepsInv(s: Registry, t: nat, s': Registry)
    requires Inv(s) && t < |s.callers| && StopStep(s, t, s')
    ensures Inv(s')
  {
    hide Inv;
    match s.callers[t] {
      case StopWaits(_) => StopLockKeepsInv(s, t, s');
      case StopLocked(p) =>
        if p in s.proxies { RemoveKeepsInv(s, t, s'); } else { StopRefusalKeepsInv(s, t, s'); }
      case StopSignals(_, _, _) => SignalKeepsInv(s, t, s');
      case StopJoins(_, _, _) => JoinKeepsInv(s, t, s');
    }
  }

  lemma ListenerKeepsInv(s: Registry, l: nat, s': Registry)
    requires Inv(s) && l < |s.listeners| && ListenerStep(s, l, s')
    ensures Inv(s')
  {
    hide Legal, Running, HeldApart;
    StaysApart(s, s');
  }

  lemma ForeignKeepsInv(s: Registry, s': Registry)
    requires Inv(s) && ForeignStep(s, s')
    ensures Inv(s')
  {
    hide Legal, Running, InUse;
  }

  lemma StepKeepsInv(s: Registry, s': Registry)
    requires Inv(s) && Step(s, s')
    ensures Inv(s')
  {
    hide Inv, Call, StartStep, StopStep, ListenerStep, ForeignStep;
    if t: nat :| t < |s.callers| && (Call(s, t, s') || StartStep(s, t, s') || StopStep(s, t, s')) {
      if Call(s, t, s') {
        CallKeepsInv(s, t, s');
      } else if StartStep(s, t, s') {
        StartKeepsInv(s, t, s');
      } else {
        StopKeepsInv(s, t, s');
      }
    } else if l: nat :| l < |s.listeners| && ListenerStep(s, l, s') {
      ListenerKeepsInv(s, l, s');
    } else {
      ForeignKeepsInv(s, s');
    }
  }

  lemma {:induction false} RunKeepsInv(run: seq<Registry>, k: nat)
    requires IsRun(run) && k < |run|
    ensures Inv(run[k])
  {
    hide Inv, Step;
    if k == 0 {
      InitialInv(run[0]);
    } else {
      RunKeepsInv(run, k - 1);
      assert Step(run[k - 1], run[k - 1 + 1]);
      StepKeepsInv(run[k - 1], run[k]);
    }
  }

  lemma InitialInv(s: Registry)
    requires Initial(s)
    ensures Inv(s)
  {
  }

  // ----- Main results

  // Thread t has this listener's handle outside the map: a start, holding the mutex, that has
  // spawned it and is about to insert it, or a stop that has removed it and has not joined yet.
  predicate HeldBy(s: Registry, t: nat, l: nat) {
    && t < |s.callers|
    && match s.callers[t]
       case StartSpawned(_, m) => m == l && s.lock == Some(t)
       case StopSignals(_, m, _) => m == l
       case StopJoins(_, m, _) => m == l
       case _ => false
  }

  predicate InMap(s: Registry, l: nat)
    requires l < |s.listeners|
  {
    s.listeners[l].key in s.proxies && s.proxies[s.listeners[l].key] == l
  }

  // Over every interleaving of concurrent starts, stops and listener loops: the live listeners are
  // the ones in the map, the ones a stop has taken out and not yet joined, and the one a start is
  // about to insert, each in exactly one of these places; everything in the map is live; and no
  // two live listeners are bound to the same port.
  lemma ListenersAccountedFor(run: seq<Registry>, k: nat)
    requires IsRun(run) && k < |run|
    ensures forall l :: 0 <= l < |run[k].listeners| && !run[k].listeners[l].at.Exited? ==>
              (InMap(run[k], l) || exists t: nat :: HeldBy(run[k], t, l))
    ensures forall l, t: nat :: 0 <= l < |run[k].listeners| && HeldBy(run[k], t, l) ==> !InMap(run[k], l)
    ensures forall l, t: nat, u: nat :: HeldBy(run[k], t, l) && HeldBy(run[k], u, l) ==> t == u
    ensures forall p :: p in run[k].proxies ==>
              run[k].proxies[p] < |run[k].listeners| && !run[k].listeners[run[k].proxies[p]].at.Exited?
    ensures forall l, m :: 0 <= l < m < |run[k].listeners| && !run[k].listeners[l].at.Exited? && !run[k].listeners[m].at.Exited? ==>
              run[k].listeners[l].socket != run[k].listeners[m].socket
  {
    hide Legal, Running;
    RunKeepsInv(run, k);
    var s := run[k];
    forall l | 0 <= l < |s.listeners| && !s.listeners[l].at.Exited?
      ensures InMap(s, l) || exists t: nat :: HeldBy(s, t, l)
    {
      match s.listeners[l].owner
      case Starter(t) => assert HeldBy(s, t, l);
      case Stopper(t) => assert HeldBy(s, t, l);
      case _ =>
    }
  }

  function Count(log: seq<Entry>, e: Entry): nat {
    if log == [] then 0
    else Count(log[..|log| - 1], e) + if log[|log| - 1] == e then 1 else 0
  }

  lemma {:induction false} StartsMinusStops(log: seq<Entry>, p: nat)
    requires Legal(log)
    ensures Count(log, Started(p)) - Count(log, Stopped(p)) == if p in Running(log) then 1 else 0
  {
    if log != [] {
      StartsMinusStops(log[..|log| - 1], p);
    }
  }

  // Per port, the starts that succeeded exceed the stops that succeeded by one if the port is in
  // the map and by none otherwise; the answers are those of a set of ports used one call at a time.
  lemma RegistryIsASet(run: seq<Registry>, k: nat, p: nat)
    requires IsRun(run) && k < |run|
    ensures Legal(run[k].log) && Running(run[k].log) == run[k].proxies.Keys
    ensures Count(run[k].log, Started(p)) - Count(run[k].log, Stopped(p)) == if p in run[k].proxies then 1 else 0
  {
    RunKeepsInv(run, k);
    StartsMinusStops(run[k].log, p);
  }

  // When stop returns Ok, the listener it took out has exited and dropped its socket: no live
  // listener is bound to that socket's port unless it was bound after that exit.
  lemma StopReturnsAfterExit(run: seq<Registry>, k: nat, t: nat)
    requires IsRun(run) && k + 1 < |run| && t < |run[k].callers| && run[k].callers[t].StopJoins?
    requires StopStep(run[k], t, run[k + 1])
    ensures var c, s' := run[k].callers[t], run[k + 1];
            && s'.callers[t] == Returned(c.entry) && c.entry < |s'.log| && s'.log[c.entry] == Stopped(c.port)
            && c.l < |s'.listeners| && s'.listeners[c.l].at.Exited? && s'.listeners[c.l].key == c.port
            && !(c.port in s'.proxies && s'.proxies[c.port] == c.l)
  {
    hide Legal, Running;
    RunKeepsInv(run, k);
    RunKeepsInv(run, k + 1);
  }

  // ----- Progress

  // How many more turns a listener takes once its flag is set.
  function TurnsLeft(x: Listener): nat {
    if !x.stop then 0 else match x.at case InAccept => 2 case CheckFlag => 1 case Exited => 0
  }

  function StepsLeft(c: Caller): nat {
    match c
    case StartWaits(_) => 5
    case StartLocked(_) => 4
    case StartBound(_, _) => 3
    case StartNonblocking(_, _) => 2
    case StartSpawned(_, _) => 1
    case StopWaits(_) => 6
    case StopLocked(_) => 5
    case StopSignals(_, _, _) => 4
    case StopJoins(_, _, _) => 1
    case _ => 0
  }

  function CallersLeft(cs: seq<Caller>): nat {
    if cs == [] then 0 else StepsLeft(cs[0]) + CallersLeft(cs[1..])
  }

  function ListenersLeft(ls: seq<Listener>): nat {
    if ls == [] then 0 else TurnsLeft(ls[0]) + ListenersLeft(ls[1..])
  }

  function Left(s: Registry): nat { CallersLeft(s.callers) + ListenersLeft(s.listeners) }

  lemma {:induction false} CallersUpdate(cs: seq<Caller>, t: nat, c: Caller)
    requires t < |cs|
    ensures CallersLeft(cs[t := c]) == CallersLeft(cs) - StepsLeft(cs[t]) + StepsLeft(c)
  {
    if t == 0 {
      assert cs[t := c][1..] == cs[1..];
    } else {
      assert cs[t := c][1..] == cs[1..][t - 1 := c];
      CallersUpdate(cs[1..], t - 1, c);
    }
  }

  lemma {:induction false} ListenersUpdate(ls: seq<Listener>, l: nat, x: Listener)
    requires l < |ls|
    ensures ListenersLeft(ls[l := x]) == ListenersLeft(ls) - TurnsLeft(ls[l]) + TurnsLeft(x)
  {
    if l == 0 {
      assert ls[l := x][1..] == ls[1..];
    } else {
      assert ls[l := x][1..] == ls[1..][l - 1 := x];
      ListenersUpdate(ls[1..], l - 1, x);
    }
  }

  lemma {:induction false} ListenersAppend(ls: seq<Listener>, x: Listener)
    ensures ListenersLeft(ls + [x]) == ListenersLeft(ls) + TurnsLeft(x)
  {
    if ls == [] {
      assert ls + [x] == [x];
    } else {
      assert (ls + [x])[1..] == ls[1..] + [x];
      ListenersAppend(ls[1..], x);
    }
  }

  predicate Pending(c: Caller) { !c.Idle? && !c.Returned? }

  predicate MovesCaller(s: Registry, t: nat, s': Registry) {
    t < |s.callers| && (StartStep(s, t, s') || StopStep(s, t, s'))
  }

  predicate MovesFlagged(s: Registry, l: nat, s': Registry) {
    l < |s.listeners| && s.listeners[l].stop && ListenerStep(s, l, s')
  }

  // No reachable state is deadlocked: while any call is pending, some call or some listener whose
  // flag is set can move. Since the join is made without the mutex and listeners never take it, a
  // stop never blocks the others.
  lemma NoDeadlock(s: Registry, t: nat) returns (s': Registry)
    requires Inv(s) && t < |s.callers| && Pending(s.callers[t])
    ensures Step(s, s') && Left(s') < Left(s)
    ensures (exists u: nat :: MovesCaller(s, u, s')) || (exists l: nat :: MovesFlagged(s, l, s'))
  {
    hide Legal, Running, HeldApart, InUse, Left, StartStep, StopStep;
    if s.lock.Some? {
      s' := HolderMoves(s, s.lock.value);
      assert MovesCaller(s, s.lock.value, s');
    } else if s.callers[t].StopJoins? && !s.listeners[s.callers[t].l].at.Exited? {
      var l := s.callers[t].l;
      var x := s.listeners[l];
      s' := s.(listeners := s.listeners[l := x.(at := if x.at.InAccept? then CheckFlag else Exited)]);
      assert MovesFlagged(s, l, s');
    } else {
      s' := FreeCallerMoves(s, t);
      assert MovesCaller(s, t, s');
    }
    EveryMoveShortens(s, s');
  }

  lemma HolderMoves(s: Registry, t: nat) returns (s': Registry)
    requires Inv(s) && s.lock == Some(t)
    ensures MovesCaller(s, t, s')
  {
    hide Legal, Running, HeldApart, InUse;
    match s.callers[t] {
      case StartLocked(p) =>
        s' := Answer(s, t, StartRefused(p));
      case StartBound(p, q) =>
        s' := Set(s, t, StartNonblocking(p, q));
      case StartNonblocking(p, q) =>
        var x := Listener(p, q, false, CheckFlag, Starter(t));
        s' := Set(s, t, StartSpawned(p, |s.listeners|)).(listeners := s.listeners + [x]);
      case StartSpawned(p, l) =>
        var x := s.listeners[l].(owner := Map);
        s' := Answer(s, t, Started(p)).(proxies := s.proxies[p := l], listeners := s.listeners[l := x]);
      case StopLocked(p) => s' := StopLockedMoves(s, t);
    }
  }

  lemma StopLockedMoves(s: Registry, t: nat) returns (s': Registry)
    requires Inv(s) && t < |s.callers| && s.callers[t].StopLocked?
    ensures MovesCaller(s, t, s')
  {
    hide Legal, Running, HeldApart, InUse;
    var p := s.callers[t].port;
    if p in s.proxies {
      var l := s.proxies[p];
      var x := s.listeners[l].(owner := Stopper(t));
      s' := Set(s, t, StopSignals(p, l, |s.log|))
            .(lock := None, log := s.log + [Stopped(p)], proxies := s.proxies - {p}, listeners := s.listeners[l := x]);
    } else {
      s' := Answer(s, t, StopRefused(p));
    }
  }

  lemma FreeCallerMoves(s: Registry, t: nat) returns (s': Registry)
    requires Inv(s) && s.lock == None && t < |s.callers| && Pending(s.callers[t])
    requires s.callers[t].StopJoins? ==> s.listeners[s.callers[t].l].at.Exited?
    ensures MovesCaller(s, t, s')
  {
    hide Legal, Running, HeldApart, InUse;
    match s.callers[t] {
      case StartWaits(p) =>
        s' := Set(s, t, StartLocked(p)).(lock := Some(t));
      case StopWaits(p) =>
        s' := Set(s, t, StopLocked(p)).(lock := Some(t));
      case StopSignals(_, _, _) => s' := SignalMoves(s, t);
      case StopJoins(_, _, _) => s' := JoinMoves(s, t);
    }
  }

  lemma SignalMoves(s: Registry, t: nat) returns (s': Registry)
    requires Inv(s) && t < |s.callers| && s.callers[t].StopSignals?
    ensures MovesCaller(s, t, s')
  {
    hide Legal, Running, HeldApart, InUse;
    var StopSignals(p, l, e) := s.callers[t];
    var x := s.listeners[l].(stop := true);
    s' := Set(s, t, StopJoins(p, l, e)).(listeners := s.listeners[l := x]);
  }

  lemma JoinMoves(s: Registry, t: nat) returns (s': Registry)
    requires Inv(s) && t < |s.callers| && s.callers[t].StopJoins? && s.listeners[s.callers[t].l].at.Exited?
    ensures MovesCaller(s, t, s')
  {
    hide Legal, Running, HeldApart, InUse;
    var StopJoins(p, l, e) := s.callers[t];
    var x := s.listeners[l].(owner := Nobody);
    s' := Set(s, t, Returned(e)).(listeners := s.listeners[l := x]);
  }

  // Once a flag is set the listener is gone within one more loop iteration: each of its turns
  // uses one up, nothing gives it more, and with none left it has exited.
  lemma FlaggedListenerExits(s: Registry, l: nat, s': Registry)
    requires l < |s.listeners| && s.listeners[l].stop && ListenerStep(s, l, s')
    ensures s'.listeners[l].stop && TurnsLeft(s'.listeners[l]) == TurnsLeft(s.listeners[l]) - 1
    ensures TurnsLeft(s.listeners[l]) <= 2 && (TurnsLeft(s'.listeners[l]) == 0 <==> s'.listeners[l].at.Exited?)
  {
  }

  // And whatever step of a call, or turn of a flagged listener, is taken next, it leaves less to do:
  // so with no new calls every call ends, whatever the scheduler chooses.
  lemma EveryMoveShortens(s: Registry, s': Registry)
    requires Inv(s)
    requires (exists t: nat :: MovesCaller(s, t, s')) || (exists l: nat :: MovesFlagged(s, l, s'))
    ensures Left(s') < Left(s)
  {
    hide Inv, StartStep, StopStep, ListenerStep, Left;
    if t: nat :| MovesCaller(s, t, s') {
      if StartStep(s, t, s') {
        StartShortens(s, t, s');
      } else {
        StopShortens(s, t, s');
      }
    } else if l: nat :| MovesFlagged(s, l, s') {
      TurnShortens(s, l, s');
    }
  }

  lemma StartShortens(s: Registry, t: nat, s': Registry)
    requires Inv(s) && t < |s.callers| && StartStep(s, t, s')
    ensures Left(s') < Left(s)
  {
    hide Inv, InUse, CallersLeft, ListenersLeft;
    CallersUpdate(s.callers, t, s'.callers[t]);
    if s.callers[t].StartNonblocking? {
      ListenersAppend(s.listeners, s'.listeners[|s.listeners|]);
    } else if s.callers[t].StartSpawned? {
      var l := s.callers[t].l;
      ListenersUpdate(s.listeners, l, s'.listeners[l]);
    }
  }

  lemma StopShortens(s: Registry, t: nat, s': Registry)
    requires Inv(s) && t < |s.callers| && StopStep(s, t, s')
    ensures Left(s') < Left(s)
  {
    hide Inv, CallersLeft, ListenersLeft;
    CallersUpdate(s.callers, t, s'.callers[t]);
    if s.callers[t].StopLocked? && s.callers[t].port in s.proxies {
      var l := s.proxies[s.callers[t].port];
      ListenersUpdate(s.listeners, l, s'.listeners[l]);
    } else if s.callers[t].StopSignals? || s.callers[t].StopJoins? {
      var l := s.callers[t].l;
      ListenersUpdate(s.listeners, l, s'.listeners[l]);
    }
  }

  lemma TurnShortens(s: Registry, l: nat, s': Registry)
    requires l < |s.listeners| && s.listeners[l].stop && ListenerStep(s, l, s')
    ensures Left(s') < Left(s)
  {
    ListenersUpdate(s.listeners, l, s'.listeners[l]);
  }

  // Listeners that go on polling, and other programs, never add to what is left to do.
  lemma BystandersDoNotDelay(s: Registry, s': Registry)
    requires ForeignStep(s, s') || (exists l: nat :: l < |s.listeners| && ListenerStep(s, l, s'))
    ensures Left(s') <= Left(s)
  {
    if l: nat :| l < |s.listeners| && ListenerStep(s, l, s') {
      ListenersUpdate(s.listeners, l, s'.listeners[l]);
    }
  }
}
