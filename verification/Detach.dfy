// Leaving a console session with ctrl+] (vm/vm.go ctrlBracketReader and AttachSession).
module Detach {
  import opened Wrappers
  import opened Streams

  const CTRL_BRACKET: Byte := 0x1d
  // io.Copy's buffer.
  const COPY_BUFFER: nat := 32768

  // The input up to the first ctrl+].
  function Before(s: seq<Byte>): (r: seq<Byte>)
    ensures r <= s && CTRL_BRACKET !in r
    ensures |r| < |s| ==> s[|r|] == CTRL_BRACKET
    ensures |r| < |s| <==> CTRL_BRACKET in s
  {
    if s == [] || s[0] == CTRL_BRACKET then [] else [s[0]] + Before(s[1..])
  }

  lemma {:induction false} BeforeAfter(a: seq<Byte>, b: seq<Byte>)
    ensures Before(a + b) == if CTRL_BRACKET in a then Before(a) else a + Before(b)
  {
    if a == [] {
      assert a + b == b;
    } else {
      assert (a + b)[1..] == a[1..] + b;
      BeforeAfter(a[1..], b);
    }
  }

  class CtrlBracketReader {
    const r: Reader
    var detached: bool

    constructor (r: Reader)
      ensures this.r == r && !detached
    {
      this.r := r;
      detached := false;
    }

    // Passes a read through up to the first ctrl+], which fires detach and ends the stream.
    method Read(max: nat) returns (data: seq<Byte>, eof: bool, ghost chunk: seq<Byte>)
      requires r.Valid() && max > 0 && !detached
      modifies this, r
      ensures r.Valid()
      ensures old(r.Rest()) == chunk + r.Rest() && |chunk| <= max
      ensures data == Before(chunk) && (detached <==> CTRL_BRACKET in chunk)
      ensures old(r.chunks) != [] && |old(r.chunks)[0]| <= max ==> chunk == old(r.chunks)[0]
      ensures eof <==> detached || old(r.Rest()) == []
      ensures !detached && !eof ==> data != []
    {
      data, eof := r.Read(max);
      chunk := data;
      for i := 0 to |data|
        invariant CTRL_BRACKET !in data[..i]
        invariant !detached
      {
        if data[i] == CTRL_BRACKET {
          detached := true;
          assert data == data[..i] + data[i..];
          BeforeAfter(data[..i], data[i..]);
          data, eof := data[..i], true;
          assert data + [] == data;
          return;
        }
      }
      assert data[..|data|] == data;
      BeforeAfter(data, []);
      assert data + [] == data;
    }
  }

  // io.Copy from the terminal to the connection. Detaching also lets the session close the
  // connection, and nothing orders that close after the write of the bytes the same read
  // returned: closeWins says which comes first. Whatever the input and however it is split into
  // reads, what is copied is the input before the first ctrl+], and detach fires exactly when
  // there is one; except that, if the close wins, the bytes that came in the same read as the
  // ctrl+] are lost, and only those.
  method CopyInput(input: Reader, closeWins: bool) returns (copied: seq<Byte>, detached: bool, ghost last: seq<Byte>)
    requires input.Valid()
    modifies input
    ensures detached <==> 0x1d in old(input.Rest())
    ensures copied + last == Before(old(input.Rest())) && |last| < 32768
    ensures last != [] ==> closeWins && detached
    ensures !closeWins ==> copied == Before(old(input.Rest()))
  {
    ghost var all := input.Rest();
    var c := new CtrlBracketReader(input);
    copied, last := [], [];
    while true
      invariant input.Valid() && c.r == input && !c.detached
      invariant all == copied + input.Rest() && CTRL_BRACKET !in copied
      decreases |input.Rest()|
    {
      ghost var rest := input.Rest();
      var data, eof, chunk := c.Read(COPY_BUFFER);
      CopiedSoFar(copied, chunk, input.Rest());
      if c.detached && closeWins {
        last := data;
        return copied, true, last;
      }
      copied := copied + data;
      if eof {
        return copied, c.detached, [];
      }
    }
  }

  // One more read: the copy so far, the read, and what is still to come.
  lemma CopiedSoFar(copied: seq<Byte>, chunk: seq<Byte>, rest: seq<Byte>)
    requires CTRL_BRACKET !in copied
    ensures copied + (chunk + rest) == (copied + chunk) + rest
    ensures CTRL_BRACKET in chunk ==> Before(copied + (chunk + rest)) == copied + Before(chunk)
    ensures CTRL_BRACKET !in chunk ==> Before(chunk) == chunk
    ensures CTRL_BRACKET !in chunk && rest == [] ==> Before(copied + (chunk + rest)) == copied + chunk
  {
    hide Before;
    assert copied + (chunk + rest) == (copied + chunk) + rest;
    BeforeAfter(copied, chunk + rest);
    BeforeAfter(chunk, rest);
    if CTRL_BRACKET !in chunk {
      BeforeAll(chunk);
      if rest == [] {
        BeforeAll(rest);
        assert chunk + rest == chunk;
      }
    }
  }

  lemma BeforeAll(s: seq<Byte>)
    requires CTRL_BRACKET !in s
    ensures Before(s) == s
  {
    assert |Before(s)| == |s|;
  }

  // The loss is real: typed in one piece, "ab" and ctrl+] have detached the session by the time
  // the read returns "ab", which is still to be written.
  method DetachFiresBeforeTheWrite() returns (data: seq<Byte>, detached: bool)
    ensures data == [97, 98] && detached
  {
    var input := new Reader([[97, 98, CTRL_BRACKET]]);
    var c := new CtrlBracketReader(input);
    var eof;
    ghost var chunk;
    data, eof, chunk := c.Read(COPY_BUFFER);
    assert chunk == [97, 98, CTRL_BRACKET];
    BeforeAfter([97, 98], [CTRL_BRACKET]);
    detached := c.detached;
  }

  // So two splits of the same input copy the same bytes, unless a close wins.
  method SplitsAgree(a: Reader, b: Reader) returns (x: seq<Byte>, y: seq<Byte>)
    requires a.Valid() && b.Valid() && a != b && a.Rest() == b.Rest()
    modifies a, b
    ensures x == y
  {
    var p, q;
    ghost var last;
    x, p, last := CopyInput(a, false);
    y, q, last := CopyInput(b, false);
  }
}
