// The control protocol's framing: a 4-byte big-endian length, then that many bytes of protobuf
// (vm/status.go writeFramed and readFramed; guest-agent/src/transport/vsock.rs
// read_length_prefix, extract_payload and send_response, which are the same functions).
module Framing {
  import opened Wrappers
  import opened Streams

  const LIMIT: nat := 0x1_0000_0000

  // binary.BigEndian.PutUint32 of uint32(n): the low four bytes, most significant first.
  function PutUint32(n: nat): (bytes: seq<Byte>)
    ensures |bytes| == 4
  {
    [n / 256 / 256 / 256 % 256, n / 256 / 256 % 256, n / 256 % 256, n % 256]
  }

  // binary.BigEndian.Uint32, u32::from_be_bytes.
  function Uint32(bytes: seq<Byte>): (n: nat)
    requires |bytes| == 4
    ensures n < LIMIT
  {
    var a: int, b: int, c: int, d: int := bytes[0], bytes[1], bytes[2], bytes[3];
    ((a * 256 + b) * 256 + c) * 256 + d
  }

  lemma Uint32RoundTrip(n: nat)
    ensures Uint32(PutUint32(n)) == n % LIMIT
  {
    var p := n / 256;
    var q := p / 256;
    var r := q / 256;
    var top := r / 256;
    assert n == top * LIMIT + Uint32(PutUint32(n));
  }

  function BigEndian(a: int, b: int, c: int, d: int): int {
    a * 0x100_0000 + b * 0x1_0000 + c * 0x100 + d
  }

  // Most significant byte first, both ways.
  lemma PrefixIsBigEndian(n: nat, bytes: seq<Byte>)
    requires |bytes| == 4
    ensures var b := PutUint32(n); BigEndian(b[0], b[1], b[2], b[3]) == n % 0x1_0000_0000
    ensures Uint32(bytes) == BigEndian(bytes[0], bytes[1], bytes[2], bytes[3])
  {
    UintIsBigEndian(bytes);
    UintIsBigEndian(PutUint32(n));
    Uint32RoundTrip(n);
  }

  lemma UintIsBigEndian(bytes: seq<Byte>)
    requires |bytes| == 4
    ensures Uint32(bytes) == BigEndian(bytes[0], bytes[1], bytes[2], bytes[3])
  {
  }

  // On the wire: four bytes that are the payload's length, big-endian, and the payload.
  lemma FrameOnTheWire(payload: seq<Byte>)
    requires |payload| < 0x1_0000_0000
    ensures var f := Frame(payload);
            |f| == 4 + |payload| && f[4..] == payload && BigEndian(f[0], f[1], f[2], f[3]) == |payload|
  {
    hide PutUint32, Uint32, BigEndian;
    PrefixIsBigEndian(|payload|, PutUint32(|payload|));
  }

  function Frame(payload: seq<Byte>): seq<Byte> {
    PutUint32(|payload|) + payload
  }

  // What a reader of one frame makes of a stream: the payload and what follows, or nothing.
  function ParseFrame(s: seq<Byte>): Option<(seq<Byte>, seq<Byte>)> {
    if |s| < 4 || |s| - 4 < Uint32(s[..4]) then None
    else Some((s[4..4 + Uint32(s[..4])], s[4 + Uint32(s[..4])..]))
  }

  // A payload comes back as it was sent, and what follows it is left alone, exactly when its
  // length fits the prefix.
  lemma FrameRoundTrip(payload: seq<Byte>, rest: seq<Byte>)
    ensures ParseFrame(Frame(payload) + rest) == Some((payload, rest)) <==> |payload| < LIMIT
  {
    var s := Frame(payload) + rest;
    Uint32RoundTrip(|payload|);
    assert s[..4] == PutUint32(|payload|);
    if |payload| < LIMIT {
      assert s[4..4 + |payload|] == payload && s[4 + |payload|..] == rest;
    }
  }

  // A stream cut short anywhere inside the frame is an error, never another message.
  lemma TruncatedFrameIsAnError(payload: seq<Byte>, cut: nat)
    requires |payload| < LIMIT && cut < |Frame(payload)|
    ensures ParseFrame(Frame(payload)[..cut]).None?
  {
    var s := Frame(payload)[..cut];
    Uint32RoundTrip(|payload|);
    if cut >= 4 {
      assert s[..4] == PutUint32(|payload|);
    }
  }

  // No two payloads share a frame, and no frame is the beginning of another.
  lemma FramesArePrefixFree(p: seq<Byte>, q: seq<Byte>)
    requires |p| < LIMIT && |q| < LIMIT && Frame(p) <= Frame(q)
    ensures p == q
  {
    FrameRoundTrip(p, Frame(q)[|Frame(p)|..]);
    FrameRoundTrip(q, []);
    assert Frame(q) == Frame(p) + Frame(q)[|Frame(p)|..] == Frame(q) + [];
  }

  // A connection that takes `room` more bytes before it breaks; None means it does not break.
  class Writer {
    var sent: seq<Byte>
    var room: Option<nat>

    constructor (room: Option<nat>)
      ensures sent == [] && this.room == room
    {
      sent, this.room := [], room;
    }

    predicate Takes(n: nat)
      reads this
    {
      room.None? || n <= room.value
    }

    method Write(data: seq<Byte>) returns (ok: bool)
      modifies this
      ensures ok <==> old(Takes(|data|))
      ensures sent == old(sent) + if ok then data else data[..old(room).value]
      ensures room == if old(room).None? then None else Some(if ok then old(room).value - |data| else 0)
    {
      ok := Takes(|data|);
      if ok {
        sent := sent + data;
        room := if room.None? then None else Some(room.value - |data|);
      } else {
        sent, room := sent + data[..room.value], Some(0);
      }
    }
  }

  // Two writes; what has left is always a beginning of the frame, and all of it on success.
  method WriteFramed(w: Writer, payload: seq<Byte>) returns (ok: bool)
    modifies w
    ensures ok <==> old(w.Takes(|Frame(payload)|))
    ensures w.sent == old(w.sent) + if ok then Frame(payload) else Frame(payload)[..old(w.room).value]
  {
    ghost var f := Frame(payload);
    ok := w.Write(PutUint32(|payload|));
    if !ok {
      assert f[..old(w.room).value] == PutUint32(|payload|)[..old(w.room).value];
      return;
    }
    ok := w.Write(payload);
    if ok {
      assert w.sent == old(w.sent) + f;
    } else {
      assert f[..old(w.room).value] == PutUint32(|payload|) + payload[..old(w.room).value - 4];
    }
  }

  // However the transport splits the bytes, the outcome is the parse of the whole stream.
  method ReadFramed(r: Reader) returns (res: Option<seq<Byte>>)
    requires r.Valid()
    modifies r
    ensures r.Valid()
    ensures match ParseFrame(old(r.Rest()))
            case None => res == None
            case Some((payload, rest)) => res == Some(payload) && r.Rest() == rest
  {
    ghost var s := r.Rest();
    var prefix := ReadFull(r, 4);
    if prefix.None? {
      return None;
    }
    assert s[..4] == prefix.value && s[4..] == r.Rest();
    var size := Uint32(prefix.value);
    res := ReadFull(r, size);
    if res.Some? {
      assert s[4..4 + size] == res.value && s[4 + size..] == r.Rest();
    }
  }

  // How a type of message is put into bytes and back.
  datatype Codec<!M> = Codec(marshal: M -> seq<Byte>, unmarshal: seq<Byte> -> Option<M>)

  predicate Carries<M(==)>(c: Codec<M>, m: M) {
    c.unmarshal(c.marshal(m)) == Some(m) && |c.marshal(m)| < LIMIT
  }

  // The guest's handle_connection: read one request, dispatch it, send the answer. `handled` is
  // the request that was dispatched.
  method HandleConnection<Req, Resp>(r: Reader, w: Writer, reqs: Codec<Req>, resps: Codec<Resp>, dispatch: Req -> Option<Resp>)
    returns (handled: Option<Req>)
    requires r.Valid()
    modifies r, w
    ensures handled == match ParseFrame(old(r.Rest())) case None => None case Some((payload, _)) => reqs.unmarshal(payload)
    ensures match ParseFrame(old(r.Rest()))
            case None => w.sent == old(w.sent)
            case Some((payload, _)) =>
              match reqs.unmarshal(payload)
              case None => w.sent == old(w.sent)
              case Some(req) =>
                match dispatch(req)
                case None => w.sent == old(w.sent)
                case Some(resp) =>
                  var frame := Frame(resps.marshal(resp));
                  w.sent == old(w.sent) + if old(w.Takes(|frame|)) then frame else frame[..old(w.room).value]
  {
    var payload := ReadFramed(r);
    if payload.None? {
      return None;
    }
    handled := reqs.unmarshal(payload.value);
    match handled
    case None =>
    case Some(req) =>
      match dispatch(req) {
        case None =>
        case Some(resp) => var _ := WriteFramed(w, resps.marshal(resp));
      }
  }

  // A whole exchange, sendRequest on the host against handle_connection in the guest, over a
  // transport that splits what either side sends in any way and may break either way at any
  // byte: the guest handles exactly the host's request, or none if that direction broke before the
  // last byte of its frame; the host gets exactly the guest's answer to it, or an error if there is
  // none, or if the other direction broke before the last byte of that.
  method Exchange<Req(==), Resp(==)>(req: Req, reqs: Codec<Req>, resps: Codec<Resp>, dispatch: Req -> Option<Resp>,
                                     split: seq<Byte> -> seq<seq<Byte>>, up: Option<nat>, down: Option<nat>)
    returns (got: Option<Resp>, handled: Option<Req>)
    requires Carries(reqs, req) && (dispatch(req).Some? ==> Carries(resps, dispatch(req).value))
    requires forall s :: Flatten(split(s)) == s && forall c :: c in split(s) ==> c != []
    ensures handled == if up.None? || 4 + |reqs.marshal(req)| <= up.value then Some(req) else None
    ensures got == if handled.Some? && dispatch(req).Some? && (down.None? || 4 + |resps.marshal(dispatch(req).value)| <= down.value)
                   then dispatch(req) else None
  {
    ghost var reqFrame := Frame(reqs.marshal(req));
    FrameRoundTrip(reqs.marshal(req), []);
    assert reqFrame + [] == reqFrame;
    var toGuest := new Writer(up);
    var toHost := new Writer(down);
    var sent := WriteFramed(toGuest, reqs.marshal(req));
    if !sent {
      TruncatedFrameIsAnError(reqs.marshal(req), |toGuest.sent|);
      assert toGuest.sent == reqFrame[..|toGuest.sent|];
    } else {
      assert toGuest.sent == reqFrame;
    }
    var atGuest := new Reader(split(toGuest.sent));
    handled := HandleConnection(atGuest, toHost, reqs, resps, dispatch);
    if !sent {
      return None, handled;
    }
    var atHost := new Reader(split(toHost.sent));
    if dispatch(req).Some? {
      AnswerFrame(resps.marshal(dispatch(req).value), toHost.sent, down);
    }
    var payload := ReadFramed(atHost);
    got := if payload.Some? then resps.unmarshal(payload.value) else None;
  }

  lemma AnswerFrame(payload: seq<Byte>, sent: seq<Byte>, room: Option<nat>)
    requires |payload| < LIMIT
    requires sent == [] + if room.None? || |Frame(payload)| <= room.value then Frame(payload) else Frame(payload)[..room.value]
    ensures ParseFrame(sent) == if room.None? || |Frame(payload)| <= room.value then Some((payload, [])) else None
  {
    FrameRoundTrip(payload, []);
    assert Frame(payload) + [] == Frame(payload);
    if room.Some? && room.value < |Frame(payload)| {
      TruncatedFrameIsAnError(payload, room.value);
      assert sent == Frame(payload)[..room.value];
    } else {
      assert sent == Frame(payload);
    }
  }
}
