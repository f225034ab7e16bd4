// The names derived from a slot index (state/state.go) and from a VM id and port (vm/vm.go):
// each one determines what it was derived from, and no two kinds of unit name collide.
module Names {
  import opened Decimal

  const FIRST_CID: nat := 3
  const HOSTS_PER_SUBNET: nat := 254

  function TapName(i: nat): string { "tap" + Itoa(i) }

  function VmId(i: nat): string { "vm" + Itoa(i) }

  function SubnetOctet(i: nat): nat { (i + 2) / HOSTS_PER_SUBNET }

  function HostOctet(i: nat): nat { (i + 2) % HOSTS_PER_SUBNET + 1 }

  function Dotted(first: nat, rest: string): string { Itoa(first) + ['.'] + rest }

  function DottedQuad(a: nat, b: nat, c: nat, d: nat): string {
    Dotted(a, Dotted(b, Dotted(c, Itoa(d))))
  }

  function VmIp(i: nat): string { DottedQuad(172, 16, SubnetOctet(i), HostOctet(i)) }

  function UnitName(id: string): string { "labctl-" + id }

  function SocatUnitName(id: string, port: int): string { UnitName(id) + "-socat-" + ItoaInt(port) }

  // The two low bytes of the MAC carry the CID: cid>>8 and cid&0xff.
  function GuestMac(cid: nat): string {
    "AA:FC:00:00:" + MacTail(cid / 256, cid % 256)
  }

  function MacTail(high: nat, low: nat): string { Hex2(high) + [':'] + Hex2(low) }

  // The address the boot arguments name as the gateway, 172.16.0.1.
  function Gateway(): string { DottedQuad(172, 16, 0, 1) }

  // What labctl calls slot i, in full.
  lemma NamesInFull(i: nat, port: int)
    ensures TapName(i) == "tap" + Itoa(i) && VmId(i) == "vm" + Itoa(i)
    ensures UnitName(VmId(i)) == "labctl-vm" + Itoa(i)
    ensures SocatUnitName(VmId(i), port) == "labctl-vm" + Itoa(i) + "-socat-" + ItoaInt(port)
    ensures VmIp(i) == "172.16." + Itoa((i + 2) / 254) + "." + Itoa((i + 2) % 254 + 1)
  {
    hide Itoa, ItoaInt;
    assert "labctl-" + ("vm" + Itoa(i)) == "labctl-vm" + Itoa(i);
    PrefixInFull();
    var c, d := Itoa((i + 2) / 254), Itoa((i + 2) % 254 + 1);
    assert "172" + ['.'] + ("16" + ['.'] + (c + ['.'] + d)) == "172.16." + c + "." + d;
  }

  lemma PrefixInFull()
    ensures Itoa(172) == "172" && Itoa(16) == "16"
  {
    assert Itoa(1) == "1" && Itoa(17) == "17";
  }

  // The MAC of a CID that fits one byte, for instance: the bytes are padded, and in lower case.
  lemma MacsInFull()
    ensures GuestMac(3) == "AA:FC:00:00:00:03" && GuestMac(0x1af) == "AA:FC:00:00:01:af"
  {
    assert Hex2(0) == "00" && Hex2(3) == "03" && Hex2(1) == "01";
    assert Hex(0xa) == "a";
    assert Hex2(0xaf) == "af";
    hide Hex2;
    assert "00" + [':'] + "03" == "00:03" && "01" + [':'] + "af" == "01:af";
  }

  lemma TapNameInjective(i: nat, j: nat)
    requires TapName(i) == TapName(j)
    ensures i == j
  {
    assert TapName(i)[3..] == Itoa(i) && TapName(j)[3..] == Itoa(j);
    ItoaInjective(i, j);
  }

  lemma VmIdInjective(i: nat, j: nat)
    requires VmId(i) == VmId(j)
    ensures i == j
  {
    assert VmId(i)[2..] == Itoa(i) && VmId(j)[2..] == Itoa(j);
    ItoaInjective(i, j);
  }

  lemma UnitNameInjective(a: string, b: string)
    requires UnitName(a) == UnitName(b)
    ensures a == b
  {
    assert UnitName(a)[7..] == a && UnitName(b)[7..] == b;
  }

  lemma DottedInjective(a: nat, rest: string, a': nat, rest': string)
    requires Dotted(a, rest) == Dotted(a', rest')
    ensures a == a' && rest == rest'
  {
    SplitAtFirst(Itoa(a), rest, Itoa(a'), rest', '.');
    ItoaInjective(a, a');
  }

  // Dotted-quad text determines all four numbers, whatever their widths.
  lemma DottedQuadInjective(a: nat, b: nat, c: nat, d: nat, a': nat, b': nat, c': nat, d': nat)
    requires DottedQuad(a, b, c, d) == DottedQuad(a', b', c', d')
    ensures a == a' && b == b' && c == c' && d == d'
  {
    DottedInjective(a, Dotted(b, Dotted(c, Itoa(d))), a', Dotted(b', Dotted(c', Itoa(d'))));
    DottedInjective(b, Dotted(c, Itoa(d)), b', Dotted(c', Itoa(d')));
    DottedInjective(c, Itoa(d), c', Itoa(d'));
    ItoaInjective(d, d');
  }

  lemma VmIpInjective(i: nat, j: nat)
    requires VmIp(i) == VmIp(j)
    ensures i == j
  {
    DottedQuadInjective(172, 16, SubnetOctet(i), HostOctet(i), 172, 16, SubnetOctet(j), HostOctet(j));
    assert i + 2 == SubnetOctet(i) * HOSTS_PER_SUBNET + HostOctet(i) - 1;
    assert j + 2 == SubnetOctet(j) * HOSTS_PER_SUBNET + HostOctet(j) - 1;
  }

  // Every index gets a usable host address: the last octet is never a network or broadcast
  // address, the gateway is never handed out, and exactly the first 252 indices fall in the
  // gateway's own /24, on the addresses .3 to .254.
  lemma VmIpUsable(i: nat)
    ensures 1 <= HostOctet(i) <= 254
    ensures VmIp(i) != Gateway()
    ensures SubnetOctet(i) == 0 <==> i < 252
    ensures i < 252 ==> HostOctet(i) == i + 3
  {
    if VmIp(i) == Gateway() {
      DottedQuadInjective(172, 16, SubnetOctet(i), HostOctet(i), 172, 16, 0, 1);
    }
  }

  // Splitting the CID into two bytes and printing each in hexadecimal loses nothing.
  lemma GuestMacInjective(c: nat, d: nat)
    requires GuestMac(c) == GuestMac(d)
    ensures c == d
  {
    assert GuestMac(c)[12..] == MacTail(c / 256, c % 256);
    assert GuestMac(d)[12..] == MacTail(d / 256, d % 256);
    SplitAtFirst(Hex2(c / 256), Hex2(c % 256), Hex2(d / 256), Hex2(d % 256), ':');
    Hex2Injective(c / 256, d / 256);
    Hex2Injective(c % 256, d % 256);
  }

  lemma VmIdHasNoDash(i: nat)
    ensures '-' !in VmId(i)
  {
  }

  // A host object as labctl names it to the kernel and to systemd.
  datatype HostUnit = VmUnit(slot: nat) | Forwarder(slot: nat, port: int)

  function HostUnitName(u: HostUnit): string {
    match u
    case VmUnit(i) => UnitName(VmId(i))
    case Forwarder(i, port) => SocatUnitName(VmId(i), port)
  }

  lemma ForwarderNameSplits(i: nat, port: int)
    ensures HostUnitName(Forwarder(i, port))[7..] == VmId(i) + ['-'] + ("socat-" + ItoaInt(port))
  {
    hide VmId, ItoaInt;
    var tail := VmId(i) + ['-'] + ("socat-" + ItoaInt(port));
    assert HostUnitName(Forwarder(i, port)) == "labctl-" + tail;
    assert ("labctl-" + tail)[7..] == tail;
  }

  // No two units share a name: forwarder names are injective in (slot, port), VM unit names in
  // the slot, and a forwarder never takes a VM's name. Stopping one therefore stops only it.
  lemma HostUnitNameInjective(u: HostUnit, v: HostUnit)
    requires HostUnitName(u) == HostUnitName(v)
    ensures u == v
  {
    VmIdHasNoDash(u.slot);
    VmIdHasNoDash(v.slot);
    match (u, v) {
      case (VmUnit(i), VmUnit(j)) =>
        UnitNameInjective(VmId(i), VmId(j));
        VmIdInjective(i, j);
      case (Forwarder(i, p), Forwarder(j, q)) =>
        ForwarderNameSplits(i, p);
        ForwarderNameSplits(j, q);
        SplitAtFirst(VmId(i), "socat-" + ItoaInt(p), VmId(j), "socat-" + ItoaInt(q), '-');
        VmIdInjective(i, j);
        assert ("socat-" + ItoaInt(p))[6..] == ItoaInt(p) && ("socat-" + ItoaInt(q))[6..] == ItoaInt(q);
        ItoaIntInjective(p, q);
      case (VmUnit(i), Forwarder(j, q)) =>
        ForwarderNameSplits(j, q);
        VmUnitIsNotForwarder(i, j, q);
      case (Forwarder(i, p), VmUnit(j)) =>
        VmUnitIsNotForwarder(j, i, p);
    }
  }

  lemma VmUnitIsNotForwarder(i: nat, j: nat, port: int)
    ensures UnitName(VmId(i)) != SocatUnitName(VmId(j), port)
  {
    VmIdHasNoDash(i);
    ForwarderNameSplits(j, port);
    assert UnitName(VmId(i))[7..] == VmId(i);
    var tail := VmId(j) + ['-'] + ("socat-" + ItoaInt(port));
    assert tail[|VmId(j)|] == '-';
    assert '-' in tail;
  }
}
