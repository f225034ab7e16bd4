// The epoll wrapper (guest-agent/src/scheduler/epoll.rs): a list of registrations kept beside the
// kernel's interest set. Any registration may fail, file descriptors may be closed behind the
// poller's back, which ends their registration, and closed numbers may come back for other files.
module Poller {
  import opened Wrappers
  import opened Signals

  type Fd = int

  datatype Op = Registered(tag: SignalSource, fd: Fd) | Removed(fd: Fd) | Purged

  // What a registration or a removal makes of the interest set.
  function Apply(m: map<Fd, SignalSource>, op: Op): map<Fd, SignalSource> {
    match op
    case Registered(tag, fd) => m[fd := tag]
    case Removed(fd) => m - {fd}
    case Purged => map[]
  }

  // What a history of registrations and removals leaves registered.
  function Replay(history: seq<Op>): map<Fd, SignalSource> {
    if history == [] then map[] else Apply(Replay(history[..|history| - 1]), history[|history| - 1])
  }

  lemma ReplayAppend(history: seq<Op>, op: Op)
    ensures Replay(history + [op]) == Apply(Replay(history), op)
  {
    assert (history + [op])[..|history|] == history;
  }

  predicate Touches(op: Op, fd: Fd) {
    match op
    case Registered(_, f) => f == fd
    case Removed(f) => f == fd
    case Purged => true
  }

  // The k-th operation is the last one that concerns fd, and it registered it under the tag.
  predicate LastWord(history: seq<Op>, k: nat, fd: Fd, tag: SignalSource) {
    && k < |history| && history[k] == Registered(tag, fd)
    && forall j :: k < j < |history| ==> !Touches(history[j], fd)
  }

  // A descriptor is registered under a tag exactly when the last word on it says so.
  lemma {:induction false} ReplayIsLastWord(history: seq<Op>, fd: Fd, tag: SignalSource)
    ensures fd in Replay(history) && Replay(history)[fd] == tag <==> exists k: nat :: LastWord(history, k, fd, tag)
  {
    if history != [] {
      var n := |history| - 1;
      var before := history[..n];
      ReplayIsLastWord(before, fd, tag);
      if Touches(history[n], fd) {
        assert history[n] == Registered(tag, fd) ==> LastWord(history, n, fd, tag);
      } else {
        if k: nat :| LastWord(before, k, fd, tag) {
          assert LastWord(history, k, fd, tag);
        }
        if k: nat :| LastWord(history, k, fd, tag) {
          assert LastWord(before, k, fd, tag);
        }
      }
    }
  }

  predicate DistinctFds(r: seq<(SignalSource, Fd)>) {
    forall j, k :: 0 <= j < k < |r| ==> r[j].1 != r[k].1
  }

  // The list and the map say the same.
  predicate Lists(r: seq<(SignalSource, Fd)>, m: map<Fd, SignalSource>) {
    && DistinctFds(r)
    && (forall k :: 0 <= k < |r| ==> r[k].1 in m && m[r[k].1] == r[k].0)
    && (forall fd :: fd in m ==> exists k :: 0 <= k < |r| && r[k].1 == fd)
  }

  // The kernel knows no descriptor that is not in the map, and none under another tag.
  predicate Agrees(interest: map<Fd, nat>, m: map<Fd, SignalSource>) {
    forall fd :: fd in interest ==> fd in m && interest[fd] == Code(m[fd])
  }

  function Codes(m: map<Fd, SignalSource>): map<Fd, nat> {
    map fd | fd in m :: Code(m[fd])
  }

  class Kernel {
    // The interest set: descriptor to the u64 that comes with its events.
    var interest: map<Fd, nat>

    constructor ()
      ensures interest == map[]
    {
      interest := map[];
    }

    method Add(fd: Fd, data: nat) returns (ok: bool, exist: bool)
      modifies this
      ensures exist <==> fd in old(interest)
      ensures exist ==> !ok
      ensures interest == if ok then old(interest)[fd := data] else old(interest)
    {
      exist := fd in interest;
      ok := *;
      ok := ok && !exist;
      if ok {
        interest := interest[fd := data];
      }
    }

    method Modify(fd: Fd, data: nat) returns (ok: bool)
      modifies this
      ensures ok ==> fd in old(interest)
      ensures interest == if ok then old(interest)[fd := data] else old(interest)
    {
      ok := *;
      ok := ok && fd in interest;
      if ok {
        interest := interest[fd := data];
      }
    }

    // Succeeds on a registered descriptor; otherwise reports that it is not there, or another error.
    method Delete(fd: Fd) returns (ok: bool, noent: bool)
      modifies this
      ensures ok <==> fd in old(interest)
      ensures noent ==> !ok
      ensures interest == old(interest) - {fd}
    {
      ok := fd in interest;
      noent := *;
      noent := noent && !ok;
      interest := interest - {fd};
    }
  }

  class Poller {
    const epfd: Kernel
    var registered: seq<(SignalSource, Fd)>
    // Every registration and removal so far.
    ghost var history: seq<Op>

    // The list is what the history left registered, and the kernel knows of nothing else and
    // under no other tag. Descriptors closed elsewhere are missing from the kernel's side.
    ghost predicate Valid()
      reads this, epfd
    {
      && Lists(registered, Replay(history))
      && Agrees(epfd.interest, Replay(history))
    }

    // Nothing was closed behind the poller's back.
    ghost predicate Exact()
      reads this, epfd
    {
      epfd.interest == Codes(Replay(history))
    }

    constructor (epfd: Kernel)
      requires epfd.interest == map[]
      ensures Valid() && Exact() && this.epfd == epfd && history == []
    {
      this.epfd := epfd;
      registered, history := [], [];
    }

    // A registered descriptor is closed by someone else: the kernel drops it, the list keeps it.
    method ClosedElsewhere(fd: Fd)
      requires Valid()
      modifies epfd
      ensures Valid() && fd !in epfd.interest
      ensures Exact() <==> old(Exact()) && fd !in Replay(history)
    {
      epfd.interest := epfd.interest - {fd};
    }

    method AddEpoll(tag: SignalSource, fd: Fd) returns (ok: bool)
      requires Valid()
      modifies this, epfd
      ensures Valid() && (old(Exact()) ==> Exact())
      ensures history == if ok then old(history) + [Registered(tag, fd)] else old(history)
      ensures ok ==> fd in epfd.interest
      ensures !ok ==> registered == old(registered) && epfd.interest == old(epfd.interest)
    {
      hide Replay, Lists, Agrees, Codes;
      var exist;
      ok, exist := epfd.Add(fd, Code(tag));
      if exist {
        ok := epfd.Modify(fd, Code(tag));
      }
      if !ok { return; }
      ReplayAppend(history, Registered(tag, fd));
      KernelUpdated(old(epfd.interest), Replay(history), tag, fd);
      history := history + [Registered(tag, fd)];
      var k := Find(registered, fd);
      registered := if k < |registered| then registered[k := (tag, fd)] else registered + [(tag, fd)];
      ListsUpdated(old(registered), Replay(old(history)), k, tag, fd);
    }

    // Registers each spec in turn and stops at the first that fails: what was registered before
    // the failure stays.
    method AddAll(specs: seq<(SignalSource, Fd)>) returns (ok: bool, ghost n: nat)
      requires Valid()
      modifies this, epfd
      ensures Valid() && (old(Exact()) ==> Exact())
      ensures n <= |specs| && (ok <==> n == |specs|)
      ensures history == old(history) + Registrations(specs, n)
    {
      hide Replay, Lists, Agrees, Codes, Registrations;
      n := 0;
      NoRegistrations(specs);
      for i := 0 to |specs|
        invariant Valid() && (old(Exact()) ==> Exact()) && n == i
        invariant history == old(history) + Registrations(specs, n)
      {
        ok := AddEpoll(specs[i].0, specs[i].1);
        if !ok { return; }
        OneMoreRegistration(specs, n);
        n := n + 1;
      }
      ok := true;
    }

    method RemoveEpoll(fd: Fd) returns (ok: bool)
      requires Valid()
      modifies this, epfd
      ensures Valid() && (old(Exact()) ==> Exact())
      ensures history == if ok then old(history) + [Removed(fd)] else old(history)
      ensures ok ==> fd !in epfd.interest
      ensures !ok ==> registered == old(registered) && epfd.interest == old(epfd.interest)
    {
      hide Replay, Lists, Agrees, Codes;
      var noent;
      ok, noent := epfd.Delete(fd);
      KernelRemoved(old(epfd.interest), Replay(history), fd);
      ok := ok || noent;
      if !ok { return; }
      ReplayAppend(history, Removed(fd));
      history := history + [Removed(fd)];
      registered := Retain(registered, fd);
      RetainLists(old(registered), Replay(old(history)), fd);
    }

    // Errors are ignored: a descriptor the kernel does not know is as good as removed. Afterwards
    // nothing is registered, on either side.
    method PurgeAll()
      requires Valid()
      modifies this, epfd
      ensures Valid() && Exact()
      ensures registered == [] && epfd.interest == map[]
      ensures history == old(history) + [Purged]
    {
      hide Replay, Lists, Agrees, Codes, AllListed;
      ListedInList(registered, epfd.interest, Replay(history));
      while registered != []
        invariant history == old(history) && AllListed(epfd.interest, registered)
        decreases |registered|
      {
        var fd := registered[0].1;
        ListedButFirst(epfd.interest, registered);
        registered := registered[1..];
        var _, _ := epfd.Delete(fd);
      }
      ReplayAppend(history, Purged);
      history := history + [Purged];
      NothingListed(epfd.interest);
    }

    // epoll::wait reports some registered descriptors; each event decodes to the source that the
    // last word on its descriptor gave.
    method GetEvents(ready: seq<Fd>) returns (sources: seq<Option<SignalSource>>)
      requires Valid() && forall k :: 0 <= k < |ready| ==> ready[k] in epfd.interest
      ensures |sources| == |ready|
      ensures forall k :: 0 <= k < |ready| ==>
                ready[k] in Replay(history) && sources[k] == Some(Replay(history)[ready[k]])
    {
      sources := [];
      for i := 0 to |ready|
        invariant |sources| == i
        invariant forall k :: 0 <= k < i ==> ready[k] in Replay(history) && sources[k] == Some(Replay(history)[ready[k]])
      {
        var fd := ready[i];
        assert fd in epfd.interest && fd in Replay(history);
        FromU64InvertsCode(epfd.interest[fd], Replay(history)[fd]);
        sources := sources + [FromU64(epfd.interest[fd])];
      }
    }
  }

  // iter_mut().find: the first entry for fd, or the end.
  method Find(r: seq<(SignalSource, Fd)>, fd: Fd) returns (k: nat)
    ensures k <= |r|
    ensures forall j :: 0 <= j < k ==> r[j].1 != fd
    ensures k < |r| ==> r[k].1 == fd
  {
    k := 0;
    while k < |r| && r[k].1 != fd
      invariant k <= |r|
      invariant forall j :: 0 <= j < k ==> r[j].1 != fd
    {
      k := k + 1;
    }
  }

  // Vec::retain(|r| r.1 != fd)
  function Retain(r: seq<(SignalSource, Fd)>, fd: Fd): (out: seq<(SignalSource, Fd)>)
    ensures forall e :: e in out <==> e in r && e.1 != fd
    ensures DistinctFds(r) ==> DistinctFds(out)
  {
    if r == [] then []
    else if r[0].1 == fd then Retain(r[1..], fd)
    else [r[0]] + Retain(r[1..], fd)
  }

  lemma RetainLists(r: seq<(SignalSource, Fd)>, m: map<Fd, SignalSource>, fd: Fd)
    requires Lists(r, m)
    ensures Lists(Retain(r, fd), m - {fd})
  {
    var out := Retain(r, fd);
    forall k | 0 <= k < |out| ensures out[k].1 in m - {fd} && m[out[k].1] == out[k].0 {
      assert out[k] in out && out[k] in r;
    }
    forall f | f in m - {fd} ensures exists k :: 0 <= k < |out| && out[k].1 == f {
      var k :| 0 <= k < |r| && r[k].1 == f;
      assert r[k] in out;
    }
  }

  // What registering the first n specs adds to the history.
  function Registrations(specs: seq<(SignalSource, Fd)>, n: nat): seq<Op>
    requires n <= |specs|
  {
    seq(n, k requires 0 <= k < n => Registered(specs[k].0, specs[k].1))
  }

  lemma NoRegistrations(specs: seq<(SignalSource, Fd)>)
    ensures Registrations(specs, 0) == []
  {
  }

  lemma OneMoreRegistration(specs: seq<(SignalSource, Fd)>, n: nat)
    requires n < |specs|
    ensures Registrations(specs, n + 1) == Registrations(specs, n) + [Registered(specs[n].0, specs[n].1)]
  {
  }

  // Everything the kernel knows is in the list.
  ghost predicate AllListed(interest: map<Fd, nat>, r: seq<(SignalSource, Fd)>) {
    forall fd :: fd in interest ==> exists k :: 0 <= k < |r| && r[k].1 == fd
  }

  lemma ListedInList(r: seq<(SignalSource, Fd)>, interest: map<Fd, nat>, m: map<Fd, SignalSource>)
    requires Lists(r, m) && Agrees(interest, m)
    ensures AllListed(interest, r)
  {
  }

  lemma ListedButFirst(interest: map<Fd, nat>, r: seq<(SignalSource, Fd)>)
    requires AllListed(interest, r) && r != []
    ensures AllListed(interest - {r[0].1}, r[1..])
  {
    forall fd | fd in interest - {r[0].1} ensures exists k :: 0 <= k < |r[1..]| && r[1..][k].1 == fd {
      var k :| 0 <= k < |r| && r[k].1 == fd;
      assert r[1..][k - 1].1 == fd;
    }
  }

  lemma NothingListed(interest: map<Fd, nat>)
    requires AllListed(interest, [])
    ensures interest == map[] && Lists([], map[]) && Agrees(map[], map[]) && Codes(map[]) == map[]
  {
    assert forall fd :: fd !in interest;
  }

  lemma KernelRemoved(interest: map<Fd, nat>, m: map<Fd, SignalSource>, fd: Fd)
    ensures Agrees(interest, m) ==> Agrees(interest - {fd}, m - {fd})
    ensures interest == Codes(m) ==> interest - {fd} == Codes(m - {fd})
    ensures fd !in interest ==> interest - {fd} == interest
  {
  }

  lemma KernelUpdated(interest: map<Fd, nat>, m: map<Fd, SignalSource>, tag: SignalSource, fd: Fd)
    ensures Agrees(interest, m) ==> Agrees(interest[fd := Code(tag)], m[fd := tag])
    ensures interest == Codes(m) ==> interest[fd := Code(tag)] == Codes(m[fd := tag])
  {
  }

  lemma ListsUpdated(r: seq<(SignalSource, Fd)>, m: map<Fd, SignalSource>, k: nat, tag: SignalSource, fd: Fd)
    requires Lists(r, m) && k <= |r|
    requires forall j :: 0 <= j < k ==> r[j].1 != fd
    requires k < |r| ==> r[k].1 == fd
    ensures Lists(if k < |r| then r[k := (tag, fd)] else r + [(tag, fd)], m[fd := tag])
  {
    var u := if k < |r| then r[k := (tag, fd)] else r + [(tag, fd)];
    forall f | f in m || f == fd ensures exists j :: 0 <= j < |u| && u[j].1 == f {
      if f == fd {
        assert u[k].1 == f;
      } else {
        var j :| 0 <= j < |r| && r[j].1 == f;
        assert u[j].1 == f;
      }
    }
  }
}
