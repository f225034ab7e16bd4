// The Firecracker vsock handshake (vm/vsock.go): "CONNECT <port>\n" out, one line back, and then
// the session on the same connection. The line is read through a buffered reader, which may have
// read past it; the session reads through that same buffer.
module Handshake {
  import opened Wrappers
  import opened Streams

  const BUFFER: nat := 4096
  const NEWLINE: Byte := 10

  predicate IsSpace(b: Byte) { b == 32 || 9 <= b <= 13 }

  // strings.TrimSpace, as far as a prefix of the result can tell.
  function TrimLeft(line: seq<Byte>): seq<Byte> {
    if line != [] && IsSpace(line[0]) then TrimLeft(line[1..]) else line
  }

  // strings.HasPrefix(strings.TrimSpace(line), "OK")
  predicate Accepts(line: seq<Byte>) {
    var t := TrimLeft(line);
    |t| >= 2 && t[0] == 79 && t[1] == 75
  }

  function NewlineAt(s: seq<Byte>): (k: nat)
    requires NEWLINE in s
    ensures k < |s| && s[k] == NEWLINE && NEWLINE !in s[..k]
  {
    if s[0] == NEWLINE then 0 else 1 + NewlineAt(s[1..])
  }

  // The first line of a stream, with its newline, and what follows.
  function FirstLine(s: seq<Byte>): Option<(seq<Byte>, seq<Byte>)> {
    if NEWLINE in s then Some((s[..NewlineAt(s) + 1], s[NewlineAt(s) + 1..])) else None
  }

  // What the host makes of the guest's side of the connection: the bytes of the session, if the
  // connection was accepted.
  function Session(s: seq<Byte>): Option<seq<Byte>> {
    match FirstLine(s)
    case Some((line, rest)) => if Accepts(line) then Some(rest) else None
    case None => None
  }

  // What the guest's side must say to be accepted: at place k the first newline, before it white
  // space, then "OK" at place n, and then anything.
  predicate SaysOk(s: seq<Byte>, n: nat, k: nat) {
    && n + 2 <= k < |s| && s[k] == 10 && (forall j :: 0 <= j < k ==> s[j] != 10)
    && (forall j :: 0 <= j < n ==> s[j] == 32 || 9 <= s[j] <= 13) && s[n] == 79 && s[n + 1] == 75
  }

  // A connection is accepted if and only if it says OK, and its session is what follows that line.
  lemma SessionExactly(s: seq<Byte>, session: seq<Byte>)
    ensures Session(s) == Some(session) <==> exists n: nat, k: nat :: SaysOk(s, n, k) && session == s[k + 1..]
  {
    if NEWLINE in s {
      var k := NewlineAt(s);
      var line := s[..k + 1];
      assert forall j :: 0 <= j < k ==> s[j] == s[..k][j] != 10;
      AcceptsExactly(line);
      if Session(s) == Some(session) {
        var n: nat :| StartsOk(line, n);
        assert n + 1 != k;
        assert SaysOk(s, n, k);
      }
      forall n: nat, m: nat | SaysOk(s, n, m) ensures m == k && StartsOk(line, n) {
        assert NEWLINE !in s[..m];
        NewlineUnique(s, m);
      }
    }
  }

  predicate StartsOk(line: seq<Byte>, n: nat) {
    n + 2 <= |line| && (forall j :: 0 <= j < n ==> IsSpace(line[j])) && line[n] == 79 && line[n + 1] == 75
  }

  lemma {:induction false} AcceptsExactly(line: seq<Byte>)
    ensures Accepts(line) <==> exists n: nat :: StartsOk(line, n)
  {
    if line != [] && IsSpace(line[0]) {
      AcceptsExactly(line[1..]);
      if n: nat :| StartsOk(line[1..], n) {
        assert StartsOk(line, n + 1);
      }
      if n: nat :| StartsOk(line, n) {
        assert StartsOk(line[1..], n - 1);
      }
    } else {
      if Accepts(line) {
        assert StartsOk(line, 0);
      }
    }
  }

  // In particular: white space, "OK", the rest of the line, and the session.
  lemma OkReplyIsAccepted(spaces: seq<Byte>, tail: seq<Byte>, session: seq<Byte>)
    requires forall b :: b in spaces ==> b == 32 || (9 <= b <= 13 && b != 10)
    requires 10 !in tail
    ensures Session(spaces + [79, 75] + tail + [10] + session) == Some(session)
  {
    var s := spaces + [79, 75] + tail + [10] + session;
    var n, k := |spaces|, |spaces| + 2 + |tail|;
    assert forall j :: 0 <= j < n ==> s[j] == spaces[j] && spaces[j] in spaces;
    assert forall j :: n + 2 <= j < k ==> s[j] == tail[j - n - 2] && tail[j - n - 2] in tail;
    assert SaysOk(s, n, k) && s[k + 1..] == session;
    SessionExactly(s, session);
  }

  lemma NewlineUnique(s: seq<Byte>, k: nat)
    requires k < |s| && s[k] == NEWLINE && NEWLINE !in s[..k]
    ensures NewlineAt(s) == k
  {
    var m := NewlineAt(s);
    assert forall j :: 0 <= j < k ==> s[..k][j] == s[j];
    assert forall j :: 0 <= j < m ==> s[..m][j] == s[j];
  }

  lemma FirstLineAfter(a: seq<Byte>, b: seq<Byte>)
    requires NEWLINE !in a
    ensures FirstLine(a + b) == match FirstLine(b)
                                case None => None
                                case Some((line, rest)) => Some((a + line, rest))
  {
    if NEWLINE in b {
      var k := NewlineAt(b);
      assert (a + b)[|a| + k] == NEWLINE;
      assert (a + b)[..|a| + k] == a + b[..k];
      NewlineUnique(a + b, |a| + k);
      assert (a + b)[..|a| + k + 1] == a + b[..k + 1] && (a + b)[|a| + k + 1..] == b[k + 1..];
    }
  }

  lemma FirstLineWithin(a: seq<Byte>, b: seq<Byte>)
    requires NEWLINE in a
    ensures FirstLine(a + b) == Some((FirstLine(a).value.0, FirstLine(a).value.1 + b))
  {
    var k := NewlineAt(a);
    assert (a + b)[k] == NEWLINE && (a + b)[..k] == a[..k];
    NewlineUnique(a + b, k);
    assert (a + b)[..k + 1] == a[..k + 1] && (a + b)[k + 1..] == a[k + 1..] + b;
  }

  // bufio.Reader over a connection.
  class BufReader {
    const src: Reader
    var buf: seq<Byte>

    ghost predicate Valid()
      reads this, src
    {
      src.Valid() && |buf| <= BUFFER
    }

    // Everything a caller has not been given yet.
    ghost function Pending(): seq<Byte>
      reads this, src
    {
      buf + src.Rest()
    }

    constructor (src: Reader)
      requires src.Valid()
      ensures Valid() && this.src == src && Pending() == src.Rest()
    {
      this.src := src;
      buf := [];
    }

    // ReadString('\n'): reads on until the newline has been buffered.
    method ReadLine() returns (line: Option<seq<Byte>>)
      requires Valid()
      modifies this, src
      ensures Valid()
      ensures match FirstLine(old(Pending()))
              case None => line == None
              case Some((l, rest)) => line == Some(l) && Pending() == rest
    {
      var full := [];
      ghost var all := Pending();
      assert all == full + Pending();
      while true
        invariant Valid() && NEWLINE !in full
        invariant all == full + Pending()
        decreases |src.Rest()|, |buf|
      {
        FirstLineAfter(full, Pending());
        match FirstLine(buf) {
          case Some((l, rest)) =>
            FirstLineWithin(buf, src.Rest());
            buf := rest;
            return Some(full + l);
          case None =>
            assert full + (buf + src.Rest()) == (full + buf) + src.Rest();
            full, buf := full + buf, [];
            var data, eof := src.Read(BUFFER);
            assert [] + (data + src.Rest()) == data + src.Rest();
            if eof {
              assert all == full;
              FirstLineAfter(full, []);
              assert full + [] == full;
              return None;
            }
            buf := data;
        }
      }
    }

    // vsockConn.Read: buffered bytes first; a large read goes straight to the connection.
    method Read(max: nat) returns (data: seq<Byte>, eof: bool)
      requires Valid() && max > 0
      modifies this, src
      ensures Valid()
      ensures old(Pending()) == data + Pending()
      ensures |data| <= max && (eof <==> data == []) && (eof <==> old(Pending()) == [])
    {
      if buf == [] {
        if max >= BUFFER {
          data, eof := src.Read(max);
          return;
        }
        buf, eof := src.Read(BUFFER);
      }
      eof := buf == [];
      var n := if |buf| < max then |buf| else max;
      data, buf := buf[..n], buf[n..];
      assert data + buf == buf[..0] + (data + buf);
    }
  }

  lemma Decided(s: seq<Byte>)
    ensures Session(s).Some? <==> exists n: nat, k: nat :: SaysOk(s, n, k)
    ensures forall n: nat, k: nat :: SaysOk(s, n, k) ==> k < |s| && Session(s) == Some(s[k + 1..])
  {
    hide Session;
    forall n: nat, k: nat | SaysOk(s, n, k) ensures Session(s) == Some(s[k + 1..]) {
      SessionExactly(s, s[k + 1..]);
    }
    if Session(s).Some? {
      SessionExactly(s, Session(s).value);
    }
  }

  // The dial succeeds exactly when the guest's side accepts, and the session it returns has
  // before it exactly the bytes after the reply line: none lost to the buffer, none added.
  method DialVsock(conn: Reader) returns (session: Option<BufReader>)
    requires conn.Valid()
    modifies conn
    ensures session.Some? <==> Session(old(conn.Rest())).Some?
    ensures session.Some? ==> fresh(session.value) && session.value.src == conn && session.value.Valid()
    ensures session.Some? ==> Some(session.value.Pending()) == Session(old(conn.Rest()))
    ensures session.Some? <==> exists n: nat, k: nat :: SaysOk(old(conn.Rest()), n, k)
    ensures forall n: nat, k: nat :: SaysOk(old(conn.Rest()), n, k) ==> session.value.Pending() == old(conn.Rest())[k + 1..]
  {
    hide Accepts, SaysOk, Flatten;
    Decided(conn.Rest());
    var br := new BufReader(conn);
    var line := br.ReadLine();
    if line.None? || !Accepts(line.value) {
      return None;
    }
    return Some(br);
  }

  // Reading the session to its end, with reads of any size, yields the bytes after the reply line
  // in order, however the transport split the stream: the reply and the session's first bytes
  // may well have arrived in one piece.
  method DialAndReadAll(conn: Reader, sizes: nat -> nat) returns (r: Option<seq<Byte>>)
    requires conn.Valid() && forall k :: sizes(k) > 0
    modifies conn
    ensures r == Session(old(conn.Rest()))
  {
    hide Session, Accepts, FirstLine, Flatten, SaysOk;
    var session := DialVsock(conn);
    if session.None? {
      return None;
    }
    var s := session.value;
    ghost var all := s.Pending();
    var got: seq<Byte> := [];
    var k: nat := 0;
    var eof := false;
    while !eof
      invariant s.Valid() && s.src == conn && all == got + s.Pending()
      invariant eof ==> s.Pending() == []
      invariant fresh(s)
      decreases !eof, |s.Pending()|
    {
      var data;
      data, eof := s.Read(sizes(k));
      assert got + (data + s.Pending()) == (got + data) + s.Pending();
      got := got + data;
      k := k + 1;
    }
    assert got + [] == got;
    return Some(got);
  }
}
