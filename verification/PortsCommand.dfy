// `labctl ports add|rm|reload` (cmd/ports.go) and the port part of snapshot and restore, over the
// three places a forwarded port lives: the ledger row, the host's socat units and the guest
// agent's registry. The guest's half goes through uint32(port) on the wire (vm/status.go) and
// parse_port in the guest (guest-agent/src/transport/dispatch.rs).
module PortsCommand {
  import opened Wrappers
  import opened PortList
  import opened Streams
  import opened Framing
  import opened Dispatch

  // VMADDR_CID_HOST, the host's vsock address.
  const HOST_CID: nat := 2

  // Go's conversion of an int to uint32.
  function Wire(port: int): nat { port % 0x1_0000_0000 }

  // The guest's registry key for a port given on the command line, if the guest accepts it.
  function GuestKey(port: int): Option<nat> { ParsePort(Wire(port)) }

  // The guest keeps a port under its own number exactly for 0 to 65535; larger and negative
  // numbers are refused, unless they wrap around to some other port.
  lemma GuestKeyExact(port: int)
    ensures GuestKey(port) == Some(port) <==> 0 <= port <= MAX_PORT
    ensures GuestKey(port).None? <==> port % 0x1_0000_0000 > MAX_PORT
  {
  }

  function ToSet(ports: seq<int>): set<int> {
    set p | p in ports
  }

  // A proxy as labctl asks for it under this key: it sends to the same port of the host, and listens
  // on that port too, unless it is 0 and the kernel has picked one.
  predicate Fresh(key: int, proxy: Proxy) {
    && key >= 0 && proxy.target == Target(HOST_CID, key)
    && 0 < proxy.socket <= MAX_PORT && (key != 0 ==> proxy.socket == key)
  }

  predicate AllFresh(guest: Proxies) {
    forall key :: key in guest ==> Fresh(key, guest[key])
  }

  datatype Ports = Ports(ledger: seq<int>, forwards: set<int>, guest: Proxies)

  // The three places hold the same ports, all of them real, each listened on in the guest.
  predicate Agree(s: Ports) {
    && NoDuplicates(s.ledger)
    && s.forwards == ToSet(s.ledger)
    && s.guest.Keys == ToSet(s.ledger)
    && AllFresh(s.guest)
    && forall p :: p in s.ledger ==> 1 <= p <= MAX_PORT
  }

  // A connection to this TCP port inside the guest comes out at that TCP port of the host: a proxy
  // listens there and dials the host over vsock, and the forwarder for that vsock port dials the
  // same number, which must be a port. The host's vsock address is 2.
  ghost predicate Routes(s: Ports, port: int, out: int) {
    exists key :: key in s.guest && RoutesVia(s, key, port, out)
  }

  predicate RoutesVia(s: Ports, key: int, port: int, out: int)
    requires key in s.guest
  {
    && 1 <= out <= MAX_PORT && out in s.forwards
    && s.guest[key].socket == port && s.guest[key].target == Target(2, out)
  }

  function GuestKeys(ports: seq<int>): (keys: set<int>)
    ensures forall k :: k in keys ==> 0 <= k <= MAX_PORT
  {
    set p | p in ports && GuestKey(p).Some? :: GuestKey(p).value
  }

  // Whatever numbers the ledger holds, 0, wrapped and refused ones included: if each has its
  // forwarder and each the guest accepts its proxy, then exactly the ledger's ports from 1 to
  // 65535 come out, at the same number, and nothing else comes out anywhere.
  lemma RoutesExactly(s: Ports, port: int, out: int)
    requires s.forwards == ToSet(s.ledger) && s.guest.Keys == GuestKeys(s.ledger) && AllFresh(s.guest)
    ensures Routes(s, port, out) <==> port in s.ledger && 1 <= port <= MAX_PORT && out == port
  {
    if port in s.ledger && 1 <= port <= MAX_PORT && out == port {
      GuestKeyExact(port);
      assert GuestKey(port) == Some(port) && port in GuestKeys(s.ledger);
      assert RoutesVia(s, port, port, out);
    }
  }

  // Agreement is what makes forwarding work: a port comes out, and then at the same number,
  // exactly when it is in the ledger.
  lemma AgreementRoutes(s: Ports, port: int, out: int)
    requires Agree(s)
    ensures Routes(s, port, out) <==> port in s.ledger && out == port
  {
    GuestKeysOfSmall(s.ledger);
    RoutesExactly(s, port, out);
  }

  datatype Command = Add(port: int) | Remove(port: int) | Reload | SnapshotAndRestore

  // The request to start a proxy for this port, which was not running, took effect.
  ghost predicate Started(was: Proxies, port: int, now: Proxies) {
    exists socket: nat :: Start(was, Wire(port), Target(HOST_CID, Wire(port)), Some(socket)) == Result.Ok(now)
  }

  predicate StoppedProxy(was: Proxies, port: int, now: Proxies) {
    Stop(was, Wire(port)) == Result.Ok(now)
  }

  ghost predicate SameOutside(was: Proxies, now: Proxies, keys: set<int>) {
    forall key :: key !in keys ==> (key in was <==> key in now) && (key in was ==> now[key] == was[key])
  }

  // Everything under these keys has just been started; everything else is as it was.
  ghost predicate Renewed(was: Proxies, now: Proxies, keys: set<int>) {
    (forall key :: key in keys ==> key in now && Fresh(key, now[key])) && SameOutside(was, now, keys)
  }

  // What was in the saved memory, and perhaps some of the ports it did not have.
  predicate Extends(guest: Proxies, saved: Proxies, ports: seq<int>) {
    && saved.Keys <= guest.Keys <= saved.Keys + GuestKeys(ports)
    && forall key :: key in guest ==> if key in saved then guest[key] == saved[key] else Fresh(key, guest[key])
  }

  // What a command does when every one of its operations succeeds on a running VM. A snapshot and
  // the restore from it count as one: the new VM has the saved row and the saved memory, and its
  // starts in the guest are best effort. The stop of a forwarder may report success in vain: the
  // forwarder is then still there.
  ghost predicate Succeeds(s: Ports, c: Command, s': Ports) {
    match c
    case Add(p) =>
      && p !in s.ledger && p !in s.forwards
      && s'.ledger == s.ledger + [p] && s'.forwards == s.forwards + {p} && Started(s.guest, p, s'.guest)
    case Remove(p) =>
      && p in s.ledger
      && s'.ledger == Without(s.ledger, p) && (s'.forwards == s.forwards - {p} || s'.forwards == s.forwards)
      && StoppedProxy(s.guest, p, s'.guest)
    case Reload =>
      && (forall p :: p in s.ledger ==> p in s.forwards && GuestKey(p).Some?)
      && s'.ledger == s.ledger && s'.forwards == s.forwards && Renewed(s.guest, s'.guest, GuestKeys(s.ledger))
    case SnapshotAndRestore =>
      && NoDuplicates(s.ledger)
      && s'.ledger == s.ledger && s'.forwards == ToSet(s.ledger) && Extends(s'.guest, s.guest, s.ledger)
  }

  lemma StartedIsFresh(was: Proxies, port: int, now: Proxies)
    requires Started(was, port, now)
    ensures GuestKey(port).Some? && GuestKey(port).value !in was && GuestKey(port).value == Wire(port)
    ensures var key := GuestKey(port).value;
            && key in now && now == was[key := now[key]] && Fresh(key, now[key])
  {
  }

  // From agreement, adding a port leads to agreement exactly when the port is a real one, 1 to
  // 65535; in every case exactly the real ports of the ledger come out.
  lemma AddAgreesExactly(s: Ports, p: int, s': Ports)
    requires Agree(s) && Succeeds(s, Add(p), s')
    ensures Agree(s') <==> 1 <= p <= MAX_PORT
    ensures forall port, out :: Routes(s', port, out) <==> port in s'.ledger && 1 <= port <= MAX_PORT && out == port
  {
    hide Fresh, Started, Routes, GuestKey;
    StartedIsFresh(s.guest, p, s'.guest);
    GuestKeyExact(p);
    assert ToSet(s'.ledger) == ToSet(s.ledger) + {p};
    assert s'.ledger[|s.ledger|] == p;
    KeysAfterAdd(s.ledger, p);
    forall port, out ensures Routes(s', port, out) <==> port in s'.ledger && 1 <= port <= MAX_PORT && out == port {
      RoutesExactly(s', port, out);
    }
  }

  lemma KeysAfterAdd(ports: seq<int>, p: int)
    requires GuestKey(p).Some? && forall q :: q in ports ==> 1 <= q <= MAX_PORT
    ensures GuestKeys(ports + [p]) == ToSet(ports) + {GuestKey(p).value}
  {
    GuestKeysOfSmall(ports);
    assert p in ports + [p];
    forall key | key in GuestKeys(ports) ensures key in GuestKeys(ports + [p]) {
      var q :| q in ports && GuestKey(q).Some? && GuestKey(q).value == key;
      assert q in ports + [p];
    }
  }

  // Port 0 is accepted all the way: host and guest both hold it, and the guest listens on a port
  // the kernel has picked. The add succeeds, and neither port 0 nor that one comes out anywhere.
  lemma PortZeroGoesNowhere(socket: nat) returns (s: Ports)
    requires 1 <= socket <= MAX_PORT
    ensures Agree(Ports([], {}, map[])) && Succeeds(Ports([], {}, map[]), Add(0), s)
    ensures s.ledger == [0] && 0 in s.guest && s.guest[0].socket == socket
    ensures !Agree(s) && forall port, out :: !Routes(s, port, out)
  {
    s := Ports([0], {0}, map[0 := Proxy(socket, Target(HOST_CID, 0))]);
    var before: Proxies := map[];
    assert Start(before, Wire(0), Target(HOST_CID, Wire(0)), Some(socket)) == Result.Ok(s.guest);
    assert Started(before, 0, s.guest);
    AddAgreesExactly(Ports([], {}, map[]), 0, s);
  }

  // A number past 32 bits: the add succeeds, the host listens for 4294967376, the guest on 80,
  // and nothing comes out anywhere.
  lemma WrappedPortDisagrees() returns (s: Ports)
    ensures Agree(Ports([], {}, map[])) && Succeeds(Ports([], {}, map[]), Add(0x1_0000_0050), s)
    ensures 80 in s.guest && !Agree(s) && forall port, out :: !Routes(s, port, out)
  {
    s := Ports([0x1_0000_0050], {0x1_0000_0050}, map[80 := Proxy(80, Target(HOST_CID, 80))]);
    var before: Proxies := map[];
    assert Start(before, Wire(0x1_0000_0050), Target(HOST_CID, 80), Some(80)) == Result.Ok(s.guest);
    assert Started(before, 0x1_0000_0050, s.guest);
    AddAgreesExactly(Ports([], {}, map[]), 0x1_0000_0050, s);
  }

  // From agreement, removing a port leads to agreement exactly when its forwarder is gone. It comes
  // out nowhere either way, but where the forwarder is left, the port cannot be added again.
  lemma RemoveAgreesExactly(s: Ports, p: int, s': Ports)
    requires Agree(s) && Succeeds(s, Remove(p), s')
    ensures Agree(s') <==> p !in s'.forwards
    ensures forall port, out :: Routes(s', port, out) <==> port in s'.ledger && out == port
    ensures p in s'.forwards ==> forall s'' :: !Succeeds(s', Add(p), s'')
  {
    hide Fresh, Routes, Succeeds, StoppedProxy;
    var t := s'.(forwards := s.forwards - {p});
    RemovedPlaces(s, p, s');
    assert p !in s'.ledger && p in s.forwards;
    if p !in s'.forwards {
      assert s'.forwards == s.forwards - {p};
    }
    forall port, out ensures Routes(s', port, out) <==> port in s'.ledger && out == port {
      AgreementRoutes(t, port, out);
      LeftForwarderIsIdle(t, p, s', port, out);
    }
    forall s'' | Succeeds(s', Add(p), s'') ensures p !in s'.forwards {
      AddNeedsItsName(s', p, s'');
    }
  }

  lemma AddNeedsItsName(s: Ports, p: int, s': Ports)
    requires Succeeds(s, Add(p), s')
    ensures p !in s.forwards
  {
  }

  // A forwarder that no proxy in the guest dials carries nothing.
  lemma LeftForwarderIsIdle(t: Ports, p: int, s: Ports, port: int, out: int)
    requires Agree(t) && p !in t.ledger && s.guest == t.guest && t.forwards <= s.forwards <= t.forwards + {p}
    ensures Routes(s, port, out) <==> Routes(t, port, out)
  {
    forall key | key in s.guest ensures RoutesVia(s, key, port, out) <==> RoutesVia(t, key, port, out) {
      assert key in t.ledger && s.guest[key].target == Target(HOST_CID, key);
    }
  }

  lemma RemovedPlaces(s: Ports, p: int, s': Ports)
    requires Agree(s) && Succeeds(s, Remove(p), s')
    ensures Agree(s'.(forwards := s.forwards - {p})) && p !in s'.ledger && p in s.forwards
    ensures s'.forwards == s.forwards - {p} || s'.forwards == s.forwards
  {
    hide Fresh;
    WithoutHas(s.ledger, p);
    WithoutKeepsDistinct(s.ledger, p);
    GuestKeyExact(p);
    assert s'.guest == s.guest - {p};
    assert ToSet(s'.ledger) == ToSet(s.ledger) - {p};
  }

  lemma GuestKeysOfSmall(ports: seq<int>)
    requires forall p :: p in ports ==> 1 <= p <= MAX_PORT
    ensures GuestKeys(ports) == ToSet(ports)
  {
    forall p | p in ports ensures GuestKey(p) == Some(p) {
      GuestKeyExact(p);
    }
    forall p | p in ToSet(ports) ensures p in GuestKeys(ports) {
      assert GuestKey(p) == Some(p);
    }
  }

  // A successful reload brings the guest back in line whatever it had lost, exactly when it was
  // not running ports the ledger does not know.
  lemma ReloadRepairs(s: Ports, s': Ports)
    requires NoDuplicates(s.ledger) && s.forwards == ToSet(s.ledger)
    requires forall p :: p in s.ledger ==> 1 <= p <= MAX_PORT
    requires Succeeds(s, Reload, s')
    ensures Agree(s') <==> s.guest.Keys <= ToSet(s.ledger)
  {
    hide Fresh, GuestKeys, GuestKey, ToSet;
    GuestKeysOfSmall(s.ledger);
    if s.guest.Keys <= ToSet(s.ledger) {
      forall key ensures key in s'.guest.Keys <==> key in ToSet(s.ledger) {
        assert key in s.guest ==> key in s.guest.Keys;
      }
      assert s'.guest.Keys == ToSet(s.ledger);
    }
    if Agree(s') {
      forall key | key in s.guest.Keys ensures key in ToSet(s.ledger) {
        assert key !in ToSet(s.ledger) ==> key in s'.guest;
      }
    }
  }

  // What agreed when it was saved agrees when it is restored, whatever becomes of the best-effort
  // starts: each port is already in the registry that was in memory.
  lemma RestoreKeepsAgreement(s: Ports, s': Ports)
    requires Agree(s) && Succeeds(s, SnapshotAndRestore, s')
    ensures s' == s
  {
    GuestKeysOfSmall(s.ledger);
    assert s'.guest == s.guest;
  }

  ghost predicate IsHistory(run: seq<Ports>, commands: seq<Command>) {
    && |run| == |commands| + 1
    && forall k :: 0 <= k < |commands| ==> Succeeds(run[k], commands[k], run[k + 1])
  }

  // The port added is a real one; the forwarder of the port removed is gone.
  predicate WellDone(c: Command, s': Ports) {
    match c
    case Add(p) => 1 <= p <= MAX_PORT
    case Remove(p) => p !in s'.forwards
    case _ => true
  }

  lemma CommandAgreesExactly(s: Ports, c: Command, s': Ports)
    requires Agree(s) && Succeeds(s, c, s')
    ensures Agree(s') <==> WellDone(c, s')
  {
    hide Agree, Succeeds, Routes;
    match c
    case Add(p) => AddAgreesExactly(s, p, s');
    case Remove(p) => RemoveAgreesExactly(s, p, s');
    case Reload =>
      AgreeingParts(s);
      ReloadRepairs(s, s');
    case SnapshotAndRestore => RestoreKeepsAgreement(s, s');
  }

  ghost predicate WellDoneUntil(run: seq<Ports>, commands: seq<Command>, k: nat)
    requires |run| == |commands| + 1 && k < |run|
  {
    forall j :: 0 <= j < k ==> WellDone(commands[j], run[j + 1])
  }

  // Through any number of successful adds, removals and reloads, and of snapshots each followed by
  // its restore, ledger, forwarders and guest registry stay the same set if and only if every
  // added port is one of 1 to 65535 and no removal leaves its forwarder behind.
  lemma {:induction false} HistoriesAgree(run: seq<Ports>, commands: seq<Command>, k: nat)
    requires IsHistory(run, commands) && k < |run| && Agree(run[0])
    ensures (forall j :: 0 <= j <= k ==> Agree(run[j])) <==> WellDoneUntil(run, commands, k)
  {
    hide Agree, Succeeds, WellDone;
    if k > 0 {
      HistoriesAgree(run, commands, k - 1);
      assert Succeeds(run[k - 1], commands[k - 1], run[k - 1 + 1]);
      if Agree(run[k - 1]) {
        CommandAgreesExactly(run[k - 1], commands[k - 1], run[k]);
      }
      if WellDoneUntil(run, commands, k) {
        assert WellDone(commands[k - 1], run[k - 1 + 1]);
      }
    }
  }

  lemma AgreeingParts(s: Ports)
    requires Agree(s)
    ensures NoDuplicates(s.ledger) && s.forwards == ToSet(s.ledger) && s.guest.Keys <= ToSet(s.ledger)
    ensures forall p :: p in s.ledger ==> 1 <= p <= MAX_PORT
  {
  }

  // ----- The commands

  // The messages of these commands and their answers: numbers that fit their fields.
  predicate Fits(req: Request) {
    match req
    case StartTcpVsockProxy(port, target) => port < LIMIT && target.cid < LIMIT && target.port < LIMIT
    case StopTcpVsockProxy(port) => port < LIMIT
    case _ => false
  }

  predicate FitsAnswer(resp: Response) {
    resp.Ack? || (resp.Error? && resp.reason.port < LIMIT)
  }

  // The message encoding loses nothing: protobuf's part.
  ghost predicate CodecsCarry(reqs: Codec<Request>, resps: Codec<Response>) {
    && (forall m :: Fits(m) ==> Carries(reqs, m))
    && (forall m :: FitsAnswer(m) ==> Carries(resps, m))
  }

  // Some way of splitting a stream, and where, if anywhere, each direction breaks.
  method Connection() returns (split: seq<Byte> -> seq<seq<Byte>>, up: Option<nat>, down: Option<nat>)
    ensures forall s :: Flatten(split(s)) == s && forall c :: c in split(s) ==> c != []
  {
    split := s => if s == [] then [] else [s];
    up, down := *, *;
    assert forall s: seq<Byte> :: s != [] ==> [s][1..] == [];
  }

  lemma AnswersFit(req: Request, proxies: Proxies, env: Env)
    requires Fits(req)
    ensures Handle(req, proxies, env).0.Some? && FitsAnswer(Handle(req, proxies, env).0.value)
  {
  }

  lemma KeyIsWire(ports: seq<int>, k: nat)
    requires k < |ports|
    ensures GuestKey(ports[k]).Some? ==> GuestKey(ports[k]).value in GuestKeys(ports)
    ensures GuestKey(ports[k]).Some? ==> GuestKey(ports[k]).value == Wire(ports[k])
  {
  }

  predicate FreshIn(guest: Proxies, key: int) {
    key in guest && Fresh(key, guest[key])
  }

  // A stop and a start of one port that may each have happened or not.
  lemma EntryRenewed(before: Proxies, between: Proxies, after: Proxies, port: int, ok: bool)
    requires between == before || StoppedProxy(before, port, between)
    requires if ok then Started(between, port, after) else after == between || Started(between, port, after)
    ensures GuestKey(port).None? ==> after == before
    ensures GuestKey(port).Some? ==> SameOutside(before, after, {GuestKey(port).value})
    ensures ok ==> GuestKey(port).Some? && FreshIn(after, GuestKey(port).value)
  {
    hide Fresh, Started;
    if Started(between, port, after) {
      StartedIsFresh(between, port, after);
    }
  }

  lemma AllRenewed(was: Proxies, now: Proxies, ports: seq<int>)
    requires SameOutside(was, now, GuestKeys(ports))
    requires forall p :: p in ports ==> GuestKey(p).Some? && FreshIn(now, GuestKey(p).value)
    ensures Renewed(was, now, GuestKeys(ports))
  {
    hide Fresh, GuestKey;
  }

  lemma NothingElse(guest: Proxies, keys: set<int>)
    ensures SameOutside(guest, guest, keys)
  {
  }

  lemma OneMoreKey(ports: seq<int>, k: nat)
    requires k < |ports|
    ensures GuestKeys(ports[..k + 1]) ==
            GuestKeys(ports[..k]) + if GuestKey(ports[k]).Some? then {GuestKey(ports[k]).value} else {}
  {
    hide GuestKey;
    var longer := ports[..k + 1];
    assert longer == ports[..k] + [ports[k]];
    forall key | key in GuestKeys(ports[..k]) ensures key in GuestKeys(longer) {
      var p :| p in ports[..k] && GuestKey(p).Some? && GuestKey(p).value == key;
      assert p in longer;
    }
    assert ports[k] in longer;
  }

  function StartRequest(port: int): Request { Request.StartTcpVsockProxy(Wire(port), Target(HOST_CID, Wire(port))) }

  function StopRequest(port: int): Request { Request.StopTcpVsockProxy(Wire(port)) }

  // One start per port, in order.
  function Starts(ports: seq<int>): seq<Request> {
    seq(|ports|, k requires 0 <= k < |ports| => StartRequest(ports[k]))
  }

  // A stop and a start per port, in order.
  function Renewals(ports: seq<int>): seq<Request> {
    if ports == [] then []
    else Renewals(ports[..|ports| - 1]) + [StopRequest(ports[|ports| - 1]), StartRequest(ports[|ports| - 1])]
  }

  lemma OneMoreRenewal(ports: seq<int>, k: nat)
    requires k < |ports|
    ensures Renewals(ports[..k + 1]) == Renewals(ports[..k]) + [StopRequest(ports[k])] + [StartRequest(ports[k])]
  {
    assert ports[..k + 1][..k] == ports[..k];
    assert Renewals(ports[..k]) + [StopRequest(ports[k]), StartRequest(ports[k])]
        == Renewals(ports[..k]) + [StopRequest(ports[k])] + [StartRequest(ports[k])];
  }

  lemma NoRenewals()
    ensures Renewals([]) == []
  {
  }

  lemma OutsideOneMore(was: Proxies, before: Proxies, now: Proxies, keys: set<int>, key: Option<nat>)
    requires SameOutside(was, before, keys)
    requires if key.Some? then SameOutside(before, now, {key.value}) else now == before
    ensures SameOutside(was, now, keys + if key.Some? then {key.value} else {})
  {
  }

  // Renewing one port leaves those before it fresh, unless it has their key.
  lemma FreshOneMore(before: Proxies, now: Proxies, ports: seq<int>, k: nat)
    requires k < |ports| && GuestKey(ports[k]).Some?
    requires SameOutside(before, now, {GuestKey(ports[k]).value})
    ensures forall p :: p in ports[..k] && GuestKey(p).Some? && FreshIn(before, GuestKey(p).value)
                        && GuestKey(p) != GuestKey(ports[k]) ==>
              FreshIn(now, GuestKey(p).value)
  {
    hide GuestKey, Fresh;
  }

  // A port of the list that is taken, or is there a second time.
  lemma Clashes(taken: set<int>, ports: seq<int>, k: nat)
    requires k < |ports| && ports[k] in taken + ToSet(ports[..k])
    ensures !(NoDuplicates(ports) && taken !! ToSet(ports))
  {
    if ports[k] in ports[..k] {
      var j :| 0 <= j < k && ports[..k][j] == ports[k];
    }
  }

  lemma AsSaved(guest: Proxies, ports: seq<int>)
    ensures Extends(guest, guest, ports)
  {
  }

  class Vm {
    var ledger: seq<int>
    var forwards: set<int>
    var guest: Proxies
    // How requests and answers are put into bytes.
    const reqs: Codec<Request>
    const resps: Codec<Response>
    var running: bool
    // Every request the host has tried to send, in order.
    ghost var asked: seq<Request>

    constructor (reqs: Codec<Request>, resps: Codec<Response>)
      requires CodecsCarry(reqs, resps)
      ensures ledger == [] && forwards == {} && guest == map[] && running && asked == [] && Valid()
    {
      ledger, forwards, guest, running, asked := [], {}, map[], true, [];
      this.reqs, this.resps := reqs, resps;
    }

    ghost predicate Valid() { CodecsCarry(reqs, resps) }

    function Now(): Ports
      reads this
    {
      Ports(ledger, forwards, guest)
    }

    // A request to the guest agent and its answer: DialVsock may fail, and the connection may
    // break in either direction at any byte.
    method SendRequest(req: Request) returns (resp: Option<Response>, ghost env: Option<Env>)
      requires Valid() && Fits(req)
      modifies this`guest, this`asked
      ensures asked == old(asked) + [req]
      ensures env.None? ==> resp == None && guest == old(guest)
      ensures env.Some? ==> guest == Handle(req, old(guest), env.value).1
      ensures resp.Some? ==> env.Some? && resp == Handle(req, old(guest), env.value).0
    {
      asked := asked + [req];
      resp, env := None, None;
      var dialled: bool := *;
      if !dialled { return; }
      var split, up, down := Connection();
      var met: Env := *;
      var before := guest;
      AnswersFit(req, before, met);
      var handled;
      resp, handled := Exchange(req, reqs, resps, r => Handle(r, before, met).0, split, up, down);
      if handled.Some? {
        env := Some(met);
        guest := Handle(req, before, met).1;
      }
    }

    method StartTcpVsockProxy(port: int) returns (ok: bool)
      requires Valid()
      modifies this`guest, this`asked
      ensures asked == old(asked) + [StartRequest(port)]
      ensures if ok then Started(old(guest), port, guest) else guest == old(guest) || Started(old(guest), port, guest)
    {
      var resp;
      ghost var env;
      resp, env := SendRequest(Request.StartTcpVsockProxy(Wire(port), Target(HOST_CID, Wire(port))));
      ok := resp.Some? && !resp.value.Error?;
      if guest != old(guest) || ok {
        assert Start(old(guest), Wire(port), Target(HOST_CID, Wire(port)), Some(env.value.socket.value)) == Result.Ok(guest);
      }
    }

    method StopTcpVsockProxy(port: int) returns (ok: bool)
      requires Valid()
      modifies this`guest, this`asked
      ensures asked == old(asked) + [StopRequest(port)]
      ensures if ok then StoppedProxy(old(guest), port, guest) else guest == old(guest) || StoppedProxy(old(guest), port, guest)
    {
      var resp;
      ghost var env;
      resp, env := SendRequest(Request.StopTcpVsockProxy(Wire(port)));
      ok := resp.Some? && !resp.value.Error?;
    }

    // systemd-run: the name must not be taken. A launch that fails may still have started the
    // forwarder.
    method LaunchPortForward(port: int, fails: bool) returns (ok: bool)
      modifies this`forwards
      ensures ok <==> !fails && port !in old(forwards)
      ensures forwards == old(forwards) || forwards == old(forwards) + {port}
      ensures ok ==> port in forwards
    {
      ok := !fails && port !in forwards;
      var started: bool := *;
      if ok || started {
        forwards := forwards + {port};
      }
    }

    // A stop may report success in vain, and one that fails may still have stopped the forwarder.
    method StopPortForward(port: int, fails: bool) returns (ok: bool)
      modifies this`forwards
      ensures ok <==> !fails
      ensures forwards == old(forwards) || forwards == old(forwards) - {port}
    {
      ok := !fails;
      var stopped: bool := *;
      if stopped {
        forwards := forwards - {port};
      }
    }

    // `ports add`: nothing happens if the port is in the ledger already or the ledger refuses the
    // write; otherwise the port is in the ledger, whatever follows. A stopped VM needs no more; on
    // a running one the forwarder comes next, and only if that is up the guest is asked, once.
    method AddPort(port: int, storeFails: bool, launchFails: bool) returns (ok: bool)
      requires Valid()
      modifies this
      ensures running == old(running) && (old(NoDuplicates(ledger)) ==> NoDuplicates(ledger))
      ensures ok && running ==> Succeeds(old(Now()), Add(port), Now())
      ensures port in old(ledger) || storeFails ==> !ok && Now() == old(Now()) && asked == old(asked)
      ensures port !in old(ledger) && !storeFails ==>
                && ledger == old(ledger) + [port]
                && if !running then ok && forwards == old(forwards) && guest == old(guest) && asked == old(asked)
                   else if launchFails || port in old(forwards) then
                     && !ok && guest == old(guest) && asked == old(asked)
                     && (forwards == old(forwards) || forwards == old(forwards) + {port})
                   else
                     && forwards == old(forwards) + {port} && asked == old(asked) + [StartRequest(port)]
                     && (Started(old(guest), port, guest) || (!ok && guest == old(guest)))
    {
      for k := 0 to |ledger|
        invariant port !in ledger[..k]
      {
        if ledger[k] == port {
          return false;
        }
      }
      assert ledger[..|ledger|] == ledger;
      if storeFails {
        return false;
      }
      ledger := ledger + [port];
      if !running {
        return true;
      }
      ok := LaunchPortForward(port, launchFails);
      if !ok { return; }
      ok := StartTcpVsockProxy(port);
    }

    // `ports rm`: nothing happens if the port is not in the ledger or the ledger refuses the write;
    // otherwise the port is out of the ledger, whatever follows. The forwarder is stopped next, and
    // if that reports success and the VM runs, the guest is asked, once.
    method RemovePort(port: int, storeFails: bool, stopFails: bool) returns (ok: bool)
      requires Valid()
      modifies this
      ensures running == old(running) && (old(NoDuplicates(ledger)) ==> NoDuplicates(ledger))
      ensures ok && running ==> Succeeds(old(Now()), Remove(port), Now())
      ensures port !in old(ledger) || storeFails ==> !ok && Now() == old(Now()) && asked == old(asked)
      ensures port in old(ledger) && !storeFails ==>
                && ledger == Without(old(ledger), port)
                && (forwards == old(forwards) || forwards == old(forwards) - {port})
                && if stopFails || !running then (ok <==> !stopFails) && guest == old(guest) && asked == old(asked)
                   else
                     && asked == old(asked) + [StopRequest(port)]
                     && (StoppedProxy(old(guest), port, guest) || (!ok && guest == old(guest)))
    {
      hide Without, NoDuplicates, StoppedProxy;
      var was := ledger;
      WithoutHas(ledger, port);
      var slice := new int[|was|](k requires 0 <= k < |was| => was[k]);
      assert slice[..] == was;
      var n, found := CompactWithout(slice, port);
      if !found || storeFails {
        return false;
      }
      if NoDuplicates(ledger) {
        WithoutKeepsDistinct(ledger, port);
      }
      ledger := slice[..n];
      ok := StopPortForward(port, stopFails);
      if !ok { return; }
      if running {
        ok := StopTcpVsockProxy(port);
      }
    }

    // Only what is running can be restarted.
    method RestartPortForwards(fails: bool) returns (ok: bool)
      ensures ok <==> (!fails || ledger == []) && forall p :: p in ledger ==> p in forwards
    {
      for k := 0 to |ledger|
        invariant (k > 0 ==> !fails) && forall p :: p in ledger[..k] ==> p in forwards
      {
        var p := ledger[k];
        assert p in ledger;
        if fails || p !in forwards {
          return false;
        }
      }
      assert ledger[..|ledger|] == ledger;
      return true;
    }

    // A proxy may not be running, so the stop's answer is ignored.
    method RenewProxy(port: int) returns (ok: bool)
      requires Valid()
      modifies this`guest, this`asked
      ensures asked == old(asked) + [StopRequest(port)] + [StartRequest(port)]
      ensures if GuestKey(port).Some? then SameOutside(old(guest), guest, {GuestKey(port).value}) else guest == old(guest)
      ensures ok ==> GuestKey(port).Some? && FreshIn(guest, GuestKey(port).value)
    {
      hide GuestKey, Started, StoppedProxy, Fresh;
      var _ := StopTcpVsockProxy(port);
      ghost var between := guest;
      ok := StartTcpVsockProxy(port);
      EntryRenewed(old(guest), between, guest, port, ok);
    }

    // `ports reload`: nothing is asked of the guest unless every forwarder has been restarted; then
    // it is asked port by port to stop and to start, until a start fails. That one is
    // ledger[renewed]; the ports before it have been renewed, and the proxies of all other ports
    // are left alone.
    method ReloadPorts(restartFails: bool) returns (ok: bool, ghost renewed: nat)
      requires Valid()
      modifies this`guest, this`asked
      ensures renewed <= |ledger|
      ensures forall p :: p in ledger[..renewed] ==>
                GuestKey(p).Some? && (FreshIn(guest, GuestKey(p).value) || (!ok && renewed < |ledger| && GuestKey(p) == GuestKey(ledger[renewed])))
      ensures SameOutside(old(guest), guest, GuestKeys(if renewed < |ledger| then ledger[..renewed + 1] else ledger))
      ensures ok <==> renewed == |ledger|
      ensures ledger != [] && (restartFails || exists p :: p in ledger && p !in forwards) ==>
                !ok && guest == old(guest) && asked == old(asked)
      ensures ledger == [] || (!restartFails && forall p :: p in ledger ==> p in forwards) ==>
                asked == old(asked) + Renewals(if ok then ledger else ledger[..renewed + 1])
      ensures ok ==> Succeeds(old(Now()), Reload, Now())
    {
      hide GuestKeys, GuestKey, Started, StoppedProxy, FreshIn, SameOutside, Renewed, StopRequest, StartRequest, Renewals;
      renewed := 0;
      assert Renewals([]) == [] by { NoRenewals(); }
      NothingElse(guest, GuestKeys(if 0 < |ledger| then ledger[..1] else ledger));
      ok := RestartPortForwards(restartFails);
      if !ok { return; }
      NothingElse(guest, GuestKeys(ledger[..0]));
      for k := 0 to |ledger|
        invariant renewed == k && SameOutside(old(guest), guest, GuestKeys(ledger[..k]))
        invariant forall p :: p in ledger[..k] ==> GuestKey(p).Some? && FreshIn(guest, GuestKey(p).value)
        invariant asked == old(asked) + Renewals(ledger[..k])
      {
        KeyIsWire(ledger, k);
        OneMoreKey(ledger, k);
        OneMoreRenewal(ledger, k);
        ghost var before := guest;
        ok := RenewProxy(ledger[k]);
        OutsideOneMore(old(guest), before, guest, GuestKeys(ledger[..k]), GuestKey(ledger[k]));
        if GuestKey(ledger[k]).Some? {
          FreshOneMore(before, guest, ledger, k);
        }
        if !ok { return; }
        assert ledger[..k + 1] == ledger[..k] + [ledger[k]];
        renewed := k + 1;
      }
      assert ledger[..|ledger|] == ledger;
      AllRenewed(old(guest), guest, ledger);
      return true, renewed;
    }

    // `labctl restore`: the new VM takes its ports from the snapshot's row and its guest registry
    // from the snapshot's memory. The forwarders are launched in order, each under a name that must
    // not be taken, up to the one that fails; if none does, the guest is asked for each port, best
    // effort.
    method Restore(savedLedger: seq<int>, savedGuest: Proxies, failsAt: Option<nat>) returns (ok: bool)
      requires Valid()
      modifies this
      ensures ledger == savedLedger && running == old(running)
      ensures forwards <= old(forwards) + ToSet(savedLedger) && Extends(guest, savedGuest, savedLedger)
      ensures ok <==> (failsAt.None? || failsAt.value >= |savedLedger|)
                      && NoDuplicates(savedLedger) && old(forwards) !! ToSet(savedLedger)
      ensures ok ==> forwards == old(forwards) + ToSet(savedLedger) && asked == old(asked) + Starts(savedLedger)
      ensures !ok ==>
                && guest == savedGuest && asked == old(asked)
                && exists k :: 0 <= k < |savedLedger| && forwards == old(forwards) + ToSet(savedLedger[..k])
      ensures ok && old(forwards) == {} ==>
                forall f :: Succeeds(Ports(savedLedger, f, savedGuest), SnapshotAndRestore, Now())
    {
      hide GuestKeys, Fresh, StartRequest;
      ledger, guest := savedLedger, savedGuest;
      ok := LaunchPortForwards(failsAt);
      if ok {
        StartGuestPortProxies();
      }
    }

    method LaunchPortForwards(failsAt: Option<nat>) returns (ok: bool)
      modifies this`forwards
      ensures ok <==> (failsAt.None? || failsAt.value >= |ledger|) && NoDuplicates(ledger) && old(forwards) !! ToSet(ledger)
      ensures ok ==> forwards == old(forwards) + ToSet(ledger)
      ensures !ok ==> exists k :: 0 <= k < |ledger| && forwards == old(forwards) + ToSet(ledger[..k])
    {
      for k := 0 to |ledger|
        invariant forwards == old(forwards) + ToSet(ledger[..k]) && old(forwards) !! ToSet(ledger[..k])
        invariant NoDuplicates(ledger[..k]) && (failsAt.Some? ==> k <= failsAt.value)
      {
        if failsAt == Some(k) || ledger[k] in forwards {
          if ledger[k] in forwards {
            Clashes(old(forwards), ledger, k);
          }
          return false;
        }
        assert ledger[..k + 1] == ledger[..k] + [ledger[k]];
        forwards := forwards + {ledger[k]};
      }
      assert ledger[..|ledger|] == ledger;
      return true;
    }

    // Whatever becomes of each, they are all asked for.
    method StartGuestPortProxies()
      requires Valid()
      modifies this`guest, this`asked
      ensures Extends(guest, old(guest), ledger) && asked == old(asked) + Starts(ledger)
    {
      hide GuestKeys, Fresh, Started;
      AsSaved(guest, ledger);
      for k := 0 to |ledger|
        invariant Extends(guest, old(guest), ledger) && asked == old(asked) + Starts(ledger[..k])
      {
        ghost var before := guest;
        var _ := StartTcpVsockProxy(ledger[k]);
        KeyIsWire(ledger, k);
        assert ledger[..k + 1] == ledger[..k] + [ledger[k]];
        if guest != before {
          StartedIsFresh(before, ledger[k], guest);
        }
      }
      assert ledger[..|ledger|] == ledger;
    }
  }

  // A VM saved while its three places agreed comes back in agreement, whatever becomes of the
  // best-effort starts.
  method RestoreAgrees(saved: Ports, vm: Vm, failsAt: Option<nat>) returns (ok: bool)
    requires vm.Valid() && Agree(saved) && vm.forwards == {}
    modifies vm
    ensures ok <==> failsAt.None? || failsAt.value >= |saved.ledger|
    ensures ok ==> Agree(vm.Now()) && vm.Now() == saved
  {
    ok := vm.Restore(saved.ledger, saved.guest, failsAt);
    if ok {
      RestoreKeepsAgreement(saved, vm.Now());
    }
  }
}
