// Byte streams that arrive in arbitrary pieces. What a reader sees is a list of chunks fixed by
// the transport; a Read takes no more than one of them, so every way of splitting a stream is
// covered and no result below depends on it.
module Streams {
  import opened Wrappers

  type Byte = b: int | 0 <= b < 256

  function Flatten(chunks: seq<seq<Byte>>): seq<Byte> {
    if chunks == [] then [] else chunks[0] + Flatten(chunks[1..])
  }

  class Reader {
    var chunks: seq<seq<Byte>>

    // A connection never returns zero bytes without an error.
    ghost predicate Valid()
      reads this
    {
      forall c :: c in chunks ==> c != []
    }

    // The bytes still to come.
    ghost function Rest(): seq<Byte>
      reads this
    {
      Flatten(chunks)
    }

    constructor (chunks: seq<seq<Byte>>)
      requires forall c :: c in chunks ==> c != []
      ensures Valid() && this.chunks == chunks
    {
      this.chunks := chunks;
    }

    method Read(max: nat) returns (data: seq<Byte>, eof: bool)
      requires Valid() && max > 0
      modifies this
      ensures Valid()
      ensures old(Rest()) == data + Rest()
      ensures |data| <= max && (eof <==> data == []) && (eof <==> old(Rest()) == [])
      ensures old(chunks) != [] && |old(chunks)[0]| <= max ==> data == old(chunks)[0]
    {
      if chunks == [] {
        return [], true;
      }
      var head := chunks[0];
      assert head in chunks && head != [];
      if |head| <= max {
        data, chunks := head, chunks[1..];
        assert forall c :: c in chunks ==> c in old(chunks);
      } else {
        data, chunks := head[..max], [head[max..]] + chunks[1..];
        assert chunks[1..] == old(chunks)[1..];
        assert forall c :: c in chunks ==> c == head[max..] || c in old(chunks);
        assert head == head[..max] + head[max..];
      }
      eof := false;
    }
  }

  // io.ReadFull and read_exact: all n bytes, or an error if the stream ends before.
  method ReadFull(r: Reader, n: nat) returns (res: Option<seq<Byte>>)
    requires r.Valid()
    modifies r
    ensures r.Valid()
    ensures res.Some? <==> |old(r.Rest())| >= n
    ensures res.Some? ==> |res.value| == n && old(r.Rest()) == res.value + r.Rest()
  {
    var buf := [];
    while |buf| < n
      invariant r.Valid() && |buf| <= n
      invariant old(r.Rest()) == buf + r.Rest()
    {
      var data, eof := r.Read(n - |buf|);
      if eof {
        return None;
      }
      buf := buf + data;
    }
    return Some(buf);
  }
}
