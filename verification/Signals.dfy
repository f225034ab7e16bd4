// The tags under which PID 1 registers its event sources (guest-agent/src/boot/signals.rs).
module Signals {
  import opened Wrappers

  datatype SignalSource = Signal | VsockListen | PtyVsockListen | Timer

  // `signal_tag as u64`
  function Code(s: SignalSource): nat {
    match s
    case Signal => 1
    case VsockListen => 2
    case PtyVsockListen => 3
    case Timer => 4
  }

  function FromU64(v: nat): Option<SignalSource> {
    if v == 1 then Some(Signal)
    else if v == 2 then Some(VsockListen)
    else if v == 3 then Some(PtyVsockListen)
    else if v == 4 then Some(Timer)
    else None
  }

  // Reading a tag back inverts writing it, and nothing else reads as a tag.
  lemma FromU64InvertsCode(v: nat, s: SignalSource)
    ensures FromU64(v) == Some(s) <==> v == Code(s)
  {
  }
}
