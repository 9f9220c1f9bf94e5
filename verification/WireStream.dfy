/** What packet framing and media records share: the size of a packet body, and streams cut into chunks. */
module WireStream {
  import opened Bytes

  const MAXIMUM_WIRE_BODY: nat := 32 * 1024 * 1024

  function Concat(chunks: seq<seq<byte>>): seq<byte> {
    if chunks == [] then [] else chunks[0] + Concat(chunks[1..])
  }

  lemma {:induction false} ConcatSplit(a: seq<seq<byte>>, b: seq<seq<byte>>)
    ensures Concat(a + b) == Concat(a) + Concat(b)
    decreases |a|
  {
    if a == [] {
      assert a + b == b;
    } else {
      assert (a + b)[1..] == a[1..] + b;
      ConcatSplit(a[1..], b);
    }
  }

  lemma ConcatOne(chunk: seq<byte>)
    ensures Concat([chunk]) == chunk
  {
    assert [chunk][1..] == [];
    assert chunk + [] == chunk;
  }

  /** Chunks of at least one and at most `limit` bytes. */
  predicate Sized(chunks: seq<seq<byte>>, limit: nat) {
    forall i :: 0 <= i < |chunks| ==> 1 <= |chunks[i]| <= limit
  }

  lemma SizedJoin(a: seq<seq<byte>>, b: seq<seq<byte>>, limit: nat)
    requires Sized(a, limit) && Sized(b, limit)
    ensures Sized(a + b, limit)
  {
  }

  function Bytewise(s: seq<byte>): seq<seq<byte>> {
    if s == [] then [] else [s[..1]] + Bytewise(s[1..])
  }

  lemma {:induction false} BytewiseSized(s: seq<byte>, limit: nat)
    requires limit >= 1
    ensures Sized(Bytewise(s), limit) && Concat(Bytewise(s)) == s
    decreases |s|
  {
    if s != [] {
      BytewiseSized(s[1..], limit);
      assert s == s[..1] + s[1..];
    }
  }
}
