// PID 1 and its zombies (guest-agent/src/boot/signals.rs drain_signals and the event loop of
// guest-agent/src/main.rs). SIGCHLD is one pending bit, whatever number of children exit; the
// signalfd is readable, and epoll reports it, while SIGCHLD or SIGTERM is pending.
module Reaper {
  import opened Signals

  // epoll's event buffer: room for this many events.
  const MAX_EVENTS: nat := 8

  // Waiting in epoll; working through the events it returned; in drain_signals' first loop; in
  // its second. `rest` are the events still to be handled.
  datatype At =
    | Waiting
    | Handling(queue: seq<SignalSource>)
    | Draining(rest: seq<SignalSource>)
    | Reaping(rest: seq<SignalSource>)

  datatype Sys = Sys(children: set<nat>, zombies: set<nat>, chld: bool, term: bool, at: At)

  // ----- Kernel steps: at any moment

  predicate Exits(s: Sys, c: nat, s': Sys) {
    c in s.children && s' == s.(children := s.children - {c}, zombies := s.zombies + {c}, chld := true)
  }

  predicate Spawns(s: Sys, c: nat, s': Sys) {
    c !in s.children && c !in s.zombies && s' == s.(children := s.children + {c})
  }

  predicate Terminates(s: Sys, s': Sys) {
    s' == s.(term := true)
  }

  // ----- Steps of the loop. `drainFirst` is the order in the source; the other order is the
  // mistake it avoids.

  predicate LoopStep(s: Sys, drainFirst: bool, s': Sys) {
    match s.at
    case Waiting =>
      && s'.at.Handling? && 0 < |s'.at.queue| <= MAX_EVENTS
      && (Signal in s'.at.queue <==> s.chld || s.term)
      && s' == s.(at := s'.at)
    case Handling(queue) =>
      if queue == [] then s' == s.(at := Waiting)
      else if queue[0] == Signal then s' == s.(at := if drainFirst then Draining(queue[1..]) else Reaping(queue[1..]))
      else s' == s.(at := Handling(queue[1..]))
    case Draining(rest) =>
      if s.chld || s.term then s' == s.(chld := false, term := false)
      else s' == s.(at := if drainFirst then Reaping(rest) else Handling(rest))
    case Reaping(rest) =>
      if s.zombies == {} then s' == s.(at := if drainFirst then Handling(rest) else Draining(rest))
      else s'.zombies < s.zombies && |s'.zombies| == |s.zombies| - 1 && s' == s.(zombies := s'.zombies)
  }

  ghost predicate KernelStep(s: Sys, s': Sys) {
    Terminates(s, s') || exists c :: Exits(s, c, s') || Spawns(s, c, s')
  }

  ghost predicate IsRun(run: seq<Sys>, drainFirst: bool) {
    && run != [] && run[0].zombies == {} && !run[0].chld && run[0].at.Waiting?
    && forall k :: 0 <= k < |run| - 1 ==> KernelStep(run[k], run[k + 1]) || LoopStep(run[k], drainFirst, run[k + 1])
  }

  // A zombie is never forgotten: its signal is pending, or the loop has yet to finish reaping.
  predicate Remembered(s: Sys) {
    s.zombies != {} ==> s.chld || s.at.Draining? || s.at.Reaping?
  }

  // However children exit between any two system calls, in every reachable state.
  lemma {:induction false} NoLostZombie(run: seq<Sys>, k: nat)
    requires IsRun(run, true) && k < |run|
    ensures Remembered(run[k])
  {
    if k > 0 {
      NoLostZombie(run, k - 1);
      assert KernelStep(run[k - 1], run[k]) || LoopStep(run[k - 1], true, run[k]);
    }
  }

  // ----- Progress

  function FirstSignal(queue: seq<SignalSource>): (k: nat)
    requires Signal in queue
    ensures k < |queue|
  {
    if queue[0] == Signal then 0 else 1 + FirstSignal(queue[1..])
  }

  // How many steps of the loop can pass before no zombie is left, if no more children exit.
  function StepsToClean(s: Sys): nat {
    |s.zombies| +
    match s.at
    case Reaping(_) => 0
    case Draining(_) => if s.chld || s.term then 2 else 1
    case Handling(queue) => if Signal in queue then 3 + FirstSignal(queue) else 4 + MAX_EVENTS + |queue|
    case Waiting => 3 + MAX_EVENTS
  }

  // The loop is never stuck while there is a zombie, and each of its steps brings it closer.
  lemma LoopProgresses(s: Sys, s': Sys)
    requires Remembered(s) && s.zombies != {} && LoopStep(s, true, s')
    ensures Remembered(s') && s'.zombies <= s.zombies
    ensures s'.zombies == {} || StepsToClean(s') < StepsToClean(s)
  {
  }

  lemma LoopIsNeverStuck(s: Sys) returns (s': Sys)
    requires Remembered(s) && s.zombies != {}
    ensures LoopStep(s, true, s')
  {
    s' := s;
    match s.at {
      case Waiting => s' := s.(at := Handling([Signal]));
      case Handling(queue) =>
        s' := s.(at := if queue == [] then Waiting else if queue[0] == Signal then Draining(queue[1..]) else Handling(queue[1..]));
      case Draining(rest) => s' := if s.chld || s.term then s.(chld := false, term := false) else s.(at := Reaping(rest));
      case Reaping(rest) =>
        var z :| z in s.zombies;
        s' := s.(zombies := s.zombies - {z});
    }
  }

  // Once children stop exiting, the loop left to itself reaches a state without zombies.
  lemma {:induction false} ZombiesDieOut(run: seq<Sys>)
    requires run != [] && Remembered(run[0]) && |run| > StepsToClean(run[0])
    requires forall k :: 0 <= k < |run| - 1 ==> LoopStep(run[k], true, run[k + 1])
    ensures exists k :: 0 <= k < |run| && run[k].zombies == {}
    decreases |run|
  {
    if run[0].zombies != {} {
      assert |run| > 1 by {
        assert StepsToClean(run[0]) > 0;
      }
      LoopProgresses(run[0], run[1]);
      if run[1].zombies != {} {
        forall k | 0 <= k < |run[1..]| - 1 ensures LoopStep(run[1..][k], true, run[1..][k + 1]) {
          assert run[1..][k] == run[k + 1] && run[1..][k + 1] == run[k + 1 + 1];
        }
        ZombiesDieOut(run[1..]);
        var k :| 0 <= k < |run[1..]| && run[1..][k].zombies == {};
        assert run[k + 1].zombies == {};
      }
    }
  }

  // ----- Why the order matters

  // Reaping before draining: a child that exits between the two leaves a zombie behind whose
  // signal the drain has thrown away.
  lemma ReapFirstLosesAZombie() returns (run: seq<Sys>)
    ensures IsRun(run, false)
    ensures run[|run| - 1].at.Waiting? && run[|run| - 1].zombies == {1} && Forgotten(run[|run| - 1])
  {
    var s0 := Sys({1, 2}, {}, false, false, Waiting);
    var s1 := Sys({1}, {2}, true, false, Waiting);
    var s2 := Sys({1}, {2}, true, false, Handling([Signal]));
    var s3 := Sys({1}, {2}, true, false, Reaping([]));
    var s4 := Sys({1}, {}, true, false, Reaping([]));
    var s5 := Sys({1}, {}, true, false, Draining([]));
    var s6 := Sys({}, {1}, true, false, Draining([]));
    var s7 := Sys({}, {1}, false, false, Draining([]));
    var s8 := Sys({}, {1}, false, false, Handling([]));
    var s9 := Sys({}, {1}, false, false, Waiting);
    assert Exits(s0, 2, s1) && Exits(s5, 1, s6);
    assert [Signal][1..] == [];
    run := [s0, s1, s2, s3, s4, s5, s6, s7, s8, s9];
  }

  predicate Forgotten(s: Sys) {
    && s.zombies != {} && !s.chld && !s.term
    && (s.at.Waiting? || (s.at.Handling? && Signal !in s.at.queue))
  }

  // And it stays: nothing the loop does, in either order, reaps it until another signal arrives.
  lemma ForgottenStays(s: Sys, drainFirst: bool, s': Sys)
    requires Forgotten(s) && LoopStep(s, drainFirst, s')
    ensures Forgotten(s') && s'.zombies == s.zombies
  {
  }

  // ----- The two loops of drain_signals

  class Kernel {
    var children: set<nat>
    var zombies: set<nat>
    var chld: bool

    constructor (children: set<nat>)
      ensures this.children == children && zombies == {} && !chld
    {
      this.children, zombies, chld := children, {}, false;
    }

    // Children may exit between any two system calls.
    method Meanwhile()
      modifies this
      ensures children <= old(children) && zombies == old(zombies) + (old(children) - children)
      ensures if children == old(children) then chld == old(chld) else chld
    {
    }

    // read(signalfd): true if a signal was consumed, false for EAGAIN.
    method ReadSignal() returns (got: bool)
      modifies this`chld
      ensures got <==> old(chld)
      ensures !chld
    {
      got, chld := chld, false;
    }

    // wait4(-1, WNOHANG): true if a child was reaped.
    method WaitAny() returns (reaped: bool)
      modifies this`zombies
      ensures reaped <==> old(zombies) != {}
      ensures reaped ==> zombies < old(zombies)
      ensures !reaped ==> zombies == {}
    {
      reaped := zombies != {};
      if reaped {
        var z :| z in zombies;
        zombies := zombies - {z};
      }
    }
  }

  // Everything that was a zombie on entry is reaped, and any that came about meanwhile has its
  // signal pending on return; and a signal is pending only if a child has exited meanwhile, so
  // that epoll does not report it for nothing.
  method DrainSignals(k: Kernel)
    requires k.children !! k.zombies
    modifies k
    ensures k.children <= old(k.children)
    ensures old(k.zombies) !! k.zombies && k.zombies <= old(k.children) - k.children
    ensures k.zombies != {} ==> k.chld
    ensures k.chld ==> k.children < old(k.children)
  {
    var got := true;
    while got
      invariant k.children <= old(k.children) && k.children !! k.zombies
      invariant k.zombies <= old(k.zombies) + (old(k.children) - k.children)
      invariant !got && k.chld ==> k.children < old(k.children)
      decreases k.children, k.chld, got
    {
      got := k.ReadSignal();
      k.Meanwhile();
    }
    var reaped := true;
    while reaped
      invariant k.children <= old(k.children) && k.children !! k.zombies
      invariant k.zombies <= old(k.zombies) + (old(k.children) - k.children)
      invariant k.chld ==> k.children < old(k.children)
      invariant !reaped ==> (k.zombies != {} ==> k.chld) && k.zombies <= old(k.children) - k.children
      decreases k.children + k.zombies, k.children, reaped
    {
      reaped := k.WaitAny();
      k.Meanwhile();
    }
  }
}
