// What the guest agent does with one control request
// (guest-agent/src/transport/dispatch.rs), with the proxy registry as the map that
// ProxyRegistry shows concurrent starts and stops to act as.
module Dispatch {
  import opened Wrappers

  const MAX_PORT: nat := 0xffff

  // Where a proxy sends its connections: a vsock address.
  datatype Target = Target(cid: nat, port: nat)

  // A running proxy, kept under the port it was asked for: the TCP port its listener is bound to,
  // and its target. The two ports differ when the kernel was asked for port 0.
  datatype Proxy = Proxy(socket: nat, target: Target)

  type Proxies = map<int, Proxy>

  datatype Request =
    | StatusQuery
    | VmRestore(restoredAt: nat)
    | StartTcpVsockProxy(tcpPort: nat, target: Target)
    | StopTcpVsockProxy(tcpPort: nat)
    | Unset

  // An error travels as its text, which is determined by these.
  datatype Reason = InvalidPort(port: nat) | AlreadyRunning(port: nat) | CannotBind(port: nat) | NotRunning(port: nat)

  datatype Stats = Stats(running: bool, cpuPct: nat, memAvailable: nat, lastBeat: nat)

  datatype Response = StatusReport(healthy: bool, cpuPct: nat, memAvailable: nat, lastBeat: nat) | Ack | Error(reason: Reason)

  // What the request meets in the guest: the TCP port the kernel binds for it, if it does, whether
  // mounting and setting the clock succeed, and the current statistics.
  datatype Env = Env(socket: Option<nat>, restores: bool, stats: Stats)

  // u16::try_from.
  function ParsePort(wire: nat): Option<nat> {
    if wire <= MAX_PORT then Some(wire) else None
  }

  // What bind may give: the port asked for, or any for 0, and none that is taken.
  predicate Binds(proxies: Proxies, port: nat, socket: nat) {
    && 0 < socket <= MAX_PORT && (port != 0 ==> socket == port)
    && forall key :: key in proxies ==> proxies[key].socket != socket
  }

  function Start(proxies: Proxies, wire: nat, target: Target, socket: Option<nat>): Result<Proxies, Reason> {
    match ParsePort(wire)
    case None => Err(InvalidPort(wire))
    case Some(port) =>
      if port in proxies then Err(AlreadyRunning(port))
      else if socket.None? || !Binds(proxies, port, socket.value) then Err(CannotBind(port))
      else Ok(proxies[port := Proxy(socket.value, target)])
  }

  function Stop(proxies: Proxies, wire: nat): Result<Proxies, Reason> {
    match ParsePort(wire)
    case None => Err(InvalidPort(wire))
    case Some(port) => if port in proxies then Ok(proxies - {port}) else Err(NotRunning(port))
  }

  function AckOrError(r: Result<Proxies, Reason>): Response {
    if r.Ok? then Ack else Error(r.error)
  }

  // The answer, if the connection gets one, and the registry afterwards.
  function Handle(req: Request, proxies: Proxies, env: Env): (Option<Response>, Proxies) {
    match req
    case StatusQuery =>
      var st := env.stats;
      (Some(StatusReport(st.running, st.cpuPct, st.memAvailable, st.lastBeat)), proxies)
    case VmRestore(_) => (if env.restores then Some(Ack) else None, proxies)
    case StartTcpVsockProxy(wire, target) =>
      var r := Start(proxies, wire, target, env.socket);
      (Some(AckOrError(r)), if r.Ok? then r.value else proxies)
    case StopTcpVsockProxy(wire) =>
      var r := Stop(proxies, wire);
      (Some(AckOrError(r)), if r.Ok? then r.value else proxies)
    case Unset => (None, proxies)
  }

  // A status query is answered with the current statistics, and a restore is acknowledged exactly
  // when mounting and setting the clock succeed, and otherwise gets no answer; neither touches a
  // proxy. Nor does a request of no type, which gets none.
  lemma OtherRequests(req: Request, proxies: Proxies, env: Env)
    requires !req.StartTcpVsockProxy? && !req.StopTcpVsockProxy?
    ensures var (answer, after) := Handle(req, proxies, env);
            && after == proxies
            && (req.StatusQuery? ==>
                  && answer.Some? && answer.value.StatusReport?
                  && (answer.value.healthy <==> env.stats.running) && answer.value.cpuPct == env.stats.cpuPct
                  && answer.value.memAvailable == env.stats.memAvailable && answer.value.lastBeat == env.stats.lastBeat)
            && (req.VmRestore? ==> (answer == Some(Ack) <==> env.restores) && (answer == None <==> !env.restores))
            && (req.Unset? ==> answer == None)
  {
  }

  // Which starts and stops are acknowledged, and what is wrong with the others: a number above
  // 65535 first, then a proxy that is there already, or not, then a port that cannot be had.
  lemma ProxyRequests(wire: nat, target: Target, proxies: Proxies, env: Env)
    ensures var (answer, after) := Handle(StartTcpVsockProxy(wire, target), proxies, env);
            && (wire > 65535 ==> answer == Some(Error(InvalidPort(wire))))
            && (wire <= 65535 && wire in proxies ==> answer == Some(Error(AlreadyRunning(wire))))
            && (wire <= 65535 && wire !in proxies ==>
                  if env.socket.Some? && Binds(proxies, wire, env.socket.value)
                  then && answer == Some(Ack) && after.Keys == proxies.Keys + {wire}
                       && after[wire] == Proxy(env.socket.value, target)
                       && forall key :: key in proxies ==> after[key] == proxies[key]
                  else answer == Some(Error(CannotBind(wire))))
    ensures var (answer, after) := Handle(StopTcpVsockProxy(wire), proxies, env);
            && (wire > 65535 ==> answer == Some(Error(InvalidPort(wire))))
            && (wire <= 65535 && wire !in proxies ==> answer == Some(Error(NotRunning(wire))))
            && (wire <= 65535 && wire in proxies ==>
                  && answer == Some(Ack) && after.Keys == proxies.Keys - {wire}
                  && forall key :: key in after ==> after[key] == proxies[key])
  {
    hide Binds;
  }

  // Every proxy listens on a real port, on its own unless it was asked for 0, and no two on one.
  predicate WellBound(proxies: Proxies) {
    && (forall key :: key in proxies ==>
          0 <= key <= MAX_PORT && 0 < proxies[key].socket <= MAX_PORT && (key != 0 ==> proxies[key].socket == key))
    && forall key, key' :: key in proxies && key' in proxies && key != key' ==> proxies[key].socket != proxies[key'].socket
  }

  lemma HandleKeepsWellBound(req: Request, proxies: Proxies, env: Env)
    requires WellBound(proxies)
    ensures WellBound(Handle(req, proxies, env).1)
  {
    hide WellBound;
    match req
    case StartTcpVsockProxy(wire, target) => StartKeepsWellBound(proxies, wire, target, env.socket);
    case StopTcpVsockProxy(wire) => StopKeepsWellBound(proxies, wire);
    case _ =>
  }

  lemma StartKeepsWellBound(proxies: Proxies, wire: nat, target: Target, socket: Option<nat>)
    requires WellBound(proxies)
    ensures var r := Start(proxies, wire, target, socket); r.Ok? ==> WellBound(r.value)
  {
  }

  lemma StopKeepsWellBound(proxies: Proxies, wire: nat)
    requires WellBound(proxies)
    ensures var r := Stop(proxies, wire); r.Ok? ==> WellBound(r.value)
  {
  }

  // A refusal changes nothing, whatever is asked, and an acknowledged start or stop is undone by
  // an acknowledged stop or by starting the same proxy again.
  lemma StartStopUndo(proxies: Proxies, wire: nat, target: Target, env: Env)
    requires WellBound(proxies)
    ensures forall req :: Handle(req, proxies, env).0 != Some(Ack) ==> Handle(req, proxies, env).1 == proxies
    ensures var (answer, after) := Handle(StartTcpVsockProxy(wire, target), proxies, env);
            answer == Some(Ack) ==> Handle(StopTcpVsockProxy(wire), after, env) == (Some(Ack), proxies)
    ensures var (answer, after) := Handle(StopTcpVsockProxy(wire), proxies, env);
            answer == Some(Ack) ==>
              var again := env.(socket := Some(proxies[wire].socket));
              Handle(StartTcpVsockProxy(wire, proxies[wire].target), after, again) == (Some(Ack), proxies)
  {
    hide WellBound, Binds;
    StopUndoesStart(proxies, wire, target, env.socket);
    StartUndoesStop(proxies, wire);
  }

  lemma StopUndoesStart(proxies: Proxies, wire: nat, target: Target, socket: Option<nat>)
    ensures var r := Start(proxies, wire, target, socket);
            r.Ok? ==> Stop(r.value, wire) == Result.Ok(proxies)
  {
    hide Binds;
    if wire !in proxies && socket.Some? {
      assert proxies[wire := Proxy(socket.value, target)] - {wire} == proxies;
    }
  }

  lemma StartUndoesStop(proxies: Proxies, wire: nat)
    requires WellBound(proxies)
    ensures var r := Stop(proxies, wire);
            r.Ok? ==>
              wire in proxies && Start(r.value, wire, proxies[wire].target, Some(proxies[wire].socket)) == Result.Ok(proxies)
  {
    if wire <= MAX_PORT && wire in proxies {
      assert (proxies - {wire})[wire := proxies[wire]] == proxies;
      assert Binds(proxies - {wire}, wire, proxies[wire].socket);
    }
  }
}
