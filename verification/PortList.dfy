// A VM's list of forwarded ports, and the removal loop of cmd/ports.go, which compacts the slice
// into its own backing array while it is still being iterated.
module PortList {
  // The list without a port, everything else in its order.
  function Without(ports: seq<int>, port: int): seq<int> {
    if ports == [] then []
    else if ports[|ports| - 1] == port then Without(ports[..|ports| - 1], port)
    else Without(ports[..|ports| - 1], port) + [ports[|ports| - 1]]
  }

  predicate NoDuplicates(ports: seq<int>) {
    forall j, k :: 0 <= j < k < |ports| ==> ports[j] != ports[k]
  }

  lemma {:induction false} WithoutHas(ports: seq<int>, port: int)
    ensures forall p :: p in Without(ports, port) <==> p in ports && p != port
    ensures |Without(ports, port)| <= |ports|
  {
    if ports != [] {
      WithoutHas(ports[..|ports| - 1], port);
      assert ports == ports[..|ports| - 1] + [ports[|ports| - 1]];
    }
  }

  lemma {:induction false} WithoutKeepsDistinct(ports: seq<int>, port: int)
    requires NoDuplicates(ports)
    ensures NoDuplicates(Without(ports, port))
    ensures port in ports ==> |Without(ports, port)| == |ports| - 1
    ensures port !in ports ==> Without(ports, port) == ports
  {
    if ports != [] {
      var n := |ports| - 1;
      WithoutHas(ports[..n], port);
      WithoutKeepsDistinct(ports[..n], port);
      assert ports == ports[..n] + [ports[n]];
      var w := Without(ports[..n], port);
      forall j | 0 <= j < |w| ensures w[j] != ports[n] {
        assert w[j] in w && w[j] in ports[..n];
        assert exists k :: 0 <= k < n && ports[k] == w[j];
      }
    }
  }

  // Removing what has just been added gives the list back.
  lemma WithoutUndoesAppend(ports: seq<int>, port: int)
    requires NoDuplicates(ports) && port !in ports
    ensures Without(ports + [port], port) == ports
  {
    WithoutKeepsDistinct(ports, port);
    assert (ports + [port])[..|ports|] == ports;
  }

  // ----- What two lists have in common apart from one port

  // How many of the first n elements are another port.
  function OthersBefore(ports: seq<int>, port: int, n: nat): nat
    requires n <= |ports|
  {
    if n == 0 then 0 else OthersBefore(ports, port, n - 1) + if ports[n - 1] == port then 0 else 1
  }

  // The same other ports in the same order: as many of them, and those with equally many of them
  // before them are the same.
  predicate SameOthers(a: seq<int>, b: seq<int>, port: int) {
    && OthersBefore(a, port, |a|) == OthersBefore(b, port, |b|)
    && forall i, j | 0 <= i < |a| && 0 <= j < |b| && a[i] != port && b[j] != port ::
         OthersBefore(a, port, i) == OthersBefore(b, port, j) ==> a[i] == b[j]
  }

  lemma {:induction false} OthersCount(ports: seq<int>, port: int, n: nat)
    requires n <= |ports|
    ensures |Without(ports[..n], port)| == OthersBefore(ports, port, n)
  {
    if n > 0 {
      OthersCount(ports, port, n - 1);
      WithoutOneMore(ports, port, n);
    }
  }

  // Removal keeps each other port, with as many before it as there were other ports before it.
  lemma {:induction false} OtherKept(ports: seq<int>, port: int, n: nat, i: nat)
    requires i < n <= |ports| && ports[i] != port
    ensures OthersBefore(ports, port, i) < |Without(ports[..n], port)|
    ensures Without(ports[..n], port)[OthersBefore(ports, port, i)] == ports[i]
  {
    hide Without, OthersBefore;
    OthersCount(ports, port, n - 1);
    WithoutOneMore(ports, port, n);
    if i < n - 1 {
      OtherKept(ports, port, n - 1, i);
    }
  }

  lemma WithoutOneMore(ports: seq<int>, port: int, n: nat)
    requires 0 < n <= |ports|
    ensures var last := ports[n - 1];
            && Without(ports[..n], port) == Without(ports[..n - 1], port) + (if last == port then [] else [last])
            && OthersBefore(ports, port, n) == OthersBefore(ports, port, n - 1) + (if last == port then 0 else 1)
  {
    assert ports[..n][..n - 1] == ports[..n - 1];
  }

  lemma {:induction false} OtherAt(ports: seq<int>, port: int, n: nat, r: nat) returns (i: nat)
    requires n <= |ports| && r < OthersBefore(ports, port, n)
    ensures i < n && ports[i] != port && OthersBefore(ports, port, i) == r
  {
    i := n - 1;
    if ports[i] == port || OthersBefore(ports, port, i) != r {
      i := OtherAt(ports, port, n - 1, r);
    }
  }

  // Removal leaves two lists equal exactly when they have the same other ports in the same order.
  lemma SameOthersExactly(a: seq<int>, b: seq<int>, port: int)
    ensures Without(a, port) == Without(b, port) <==> SameOthers(a, b, port)
  {
    hide Without, OthersBefore;
    OthersCount(a, port, |a|);
    OthersCount(b, port, |b|);
    assert a[..|a|] == a && b[..|b|] == b;
    if SameOthers(a, b, port) {
      forall r: nat | r < |Without(a, port)| ensures Without(a, port)[r] == Without(b, port)[r] {
        var i := OtherAt(a, port, |a|, r);
        var j := OtherAt(b, port, |b|, r);
        OtherKept(a, port, |a|, i);
        OtherKept(b, port, |b|, j);
      }
    }
    if Without(a, port) == Without(b, port) {
      forall i, j | 0 <= i < |a| && 0 <= j < |b| && a[i] != port && b[j] != port
        ensures OthersBefore(a, port, i) == OthersBefore(b, port, j) ==> a[i] == b[j]
      {
        OtherKept(a, port, |a|, i);
        OtherKept(b, port, |b|, j);
      }
    }
  }

  // ----- The loop

  // remaining := v.Ports[:0], then append each kept port: reads and writes share one array, and
  // the write position never overtakes the read position. The first n elements are the result;
  // the array's tail keeps its old contents.
  method CompactWithout(a: array<int>, port: int) returns (n: nat, found: bool)
    modifies a
    ensures n <= a.Length
    ensures a[..n] == Without(old(a[..]), port)
    ensures a[n..] == old(a[n..])
    ensures found <==> port in old(a[..])
  {
    n, found := 0, false;
    for k := 0 to a.Length
      invariant n <= k
      invariant a[..n] == Without(old(a[..k]), port)
      invariant a[n..] == old(a[n..])
      invariant found <==> port in old(a[..k])
    {
      var p := a[k];
      assert p == old(a[k]) by {
        assert a[n..][k - n] == old(a[n..])[k - n];
      }
      assert old(a[..k + 1])[..k] == old(a[..k]);
      if p == port {
        found := true;
      } else {
        a[n] := p;
        n := n + 1;
        assert a[..n] == a[..n - 1] + [p];
      }
    }
    assert old(a[..a.Length]) == old(a[..]);
  }
}
