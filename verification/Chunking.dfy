/** Splitting a payload into chunks, and what joining the chunks gives back. */
module Chunking {

  /** The payload cut every `size` elements; the last chunk holds the remainder. */
  function ChunksOf<T>(s: seq<T>, size: nat): seq<seq<T>>
    requires size >= 1
    decreases |s|
  {
    if |s| == 0 then []
    else if |s| <= size then [s]
    else [s[..size]] + ChunksOf(s[size..], size)
  }

  lemma ChunksStep<T>(s: seq<T>, size: nat, i: nat)
    requires size >= 1 && i < |s|
    ensures i + size < |s| ==> ChunksOf(s[i..], size) == [s[i..i + size]] + ChunksOf(s[i + size..], size)
    ensures i + size >= |s| ==> ChunksOf(s[i..], size) == [s[i..|s|]]
  {
    assert s[i..] == s[i..|s|];
    if i + size < |s| {
      assert s[i..][..size] == s[i..i + size] && s[i..][size..] == s[i + size..];
    }
  }

  method Chunks<T>(s: seq<T>, chunkSize: nat) returns (result: seq<seq<T>>)
    requires chunkSize >= 1
    ensures result == ChunksOf(s, chunkSize)
  {
    result := [];
    var i, len := 0, |s|;
    assert s[0..] == s;
    while i < len
      invariant 0 <= i
      invariant i < len ==> result + ChunksOf(s[i..], chunkSize) == ChunksOf(s, chunkSize)
      invariant i >= len ==> result == ChunksOf(s, chunkSize)
    {
      ChunksStep(s, chunkSize, i);
      result := result + [s[i..if i + chunkSize < len then i + chunkSize else len]];
      i := i + chunkSize;
    }
  }

  function Flatten<T>(chunks: seq<seq<T>>): seq<T> {
    if |chunks| == 0 then [] else chunks[0] + Flatten(chunks[1..])
  }

  lemma {:induction false} FlattenAppend<T>(chunks: seq<seq<T>>, chunk: seq<T>)
    ensures Flatten(chunks + [chunk]) == Flatten(chunks) + chunk
  {
    if |chunks| == 0 {
      assert chunks + [chunk] == [chunk];
      assert [chunk][1..] == [];
    } else {
      assert (chunks + [chunk])[1..] == chunks[1..] + [chunk];
      FlattenAppend(chunks[1..], chunk);
    }
  }

  /** Joining the chunks gives the payload back. */
  lemma {:induction false} FlattenChunks<T>(s: seq<T>, size: nat)
    requires size >= 1
    ensures Flatten(ChunksOf(s, size)) == s
    decreases |s|
  {
    if |s| == 0 {
    } else if |s| <= size {
      assert ChunksOf(s, size)[1..] == [];
    } else {
      assert ChunksOf(s, size)[1..] == ChunksOf(s[size..], size);
      FlattenChunks(s[size..], size);
      assert s == s[..size] + s[size..];
    }
  }

  /** Chunk `k` is the stretch of the payload that starts at `k * size`, and no chunk is empty. */
  lemma {:induction false} ChunkAt<T>(s: seq<T>, size: nat, k: nat)
    requires size >= 1 && k < |ChunksOf(s, size)|
    ensures k * size < |s|
    ensures ChunksOf(s, size)[k] == s[k * size..if (k + 1) * size < |s| then (k + 1) * size else |s|]
    decreases |s|
  {
    if |s| > size && k > 0 {
      var rest := s[size..];
      ChunkAt(rest, size, k - 1);
      assert (k - 1) * size + size == k * size && k * size + size == (k + 1) * size;
      var end := if k * size < |rest| then k * size else |rest|;
      assert rest[(k - 1) * size..end] == s[k * size..end + size];
    }
  }
}
