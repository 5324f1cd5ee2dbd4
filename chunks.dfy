/** Splitting a batch into the statements the repositories send: consecutive runs of at most n rows. */
module Chunks {

  function Flatten<T>(chunks: seq<seq<T>>): seq<T> {
    if chunks == [] then [] else chunks[0] + Flatten(chunks[1..])
  }

  lemma {:induction false} FlattenAppend<T>(a: seq<seq<T>>, b: seq<seq<T>>)
    ensures Flatten(a + b) == Flatten(a) + Flatten(b)
  {
    if a == [] {
      assert a + b == b;
    } else {
      assert (a + b)[1..] == a[1..] + b;
      FlattenAppend(a[1..], b);
    }
  }

  /** s cut into runs of n rows; only the last may be shorter, and none is empty. */
  function ChunksOf<T>(s: seq<T>, n: nat): (r: seq<seq<T>>)
    requires n > 0
    ensures Flatten(r) == s
    ensures forall i :: 0 <= i < |r| ==> 0 < |r[i]| <= n
    ensures forall i :: 0 <= i < |r| - 1 ==> |r[i]| == n
    decreases |s|
  {
    if |s| == 0 then []
    else if |s| <= n then [s]
    else
      var rest := ChunksOf(s[n..], n);
      assert [s[..n]] + rest == [s[..n]] + rest;
      assert Flatten([s[..n]] + rest) == s[..n] + Flatten(rest) by {
        assert ([s[..n]] + rest)[1..] == rest;
      }
      [s[..n]] + rest
  }

  /** The statement for a full pending run of exactly n rows. */
  lemma ChunksOfFull<T>(s: seq<T>, n: nat)
    requires n > 0 && 0 < |s| <= n
    ensures ChunksOf(s, n) == [s]
  {
  }

  /** A full run of n rows in front is cut off as the first chunk. */
  lemma ChunksOfCons<T>(head: seq<T>, tail: seq<T>, n: nat)
    requires n > 0 && |head| == n
    ensures ChunksOf(head + tail, n) == [head] + ChunksOf(tail, n)
  {
    var s := head + tail;
    assert s[..n] == head && s[n..] == tail;
    if |s| <= n {
      assert tail == [];
      assert s == head;
    }
  }

  /** The first chunk is the first min(n, |s|) elements, and the rest are the chunks of what follows. */
  lemma ChunksOfStep<T>(s: seq<T>, n: nat)
    requires n > 0 && s != []
    ensures var k := if |s| < n then |s| else n;
      ChunksOf(s, n) == [s[..k]] + ChunksOf(s[k..], n)
  {
    if |s| <= n {
      assert s[..|s|] == s && s[|s|..] == [];
    }
  }

  /** The chunk of s that starts at `start` runs to `end`, the next chunk boundary or the end of s. */
  lemma ChunkAt<T>(s: seq<T>, n: nat, start: nat, end: nat)
    requires n > 0 && start < |s| && end == (if start + n > |s| then |s| else start + n)
    ensures ChunksOf(s[start..], n) == [s[start..end]] + ChunksOf(s[end..], n)
  {
    ChunksOfStep(s[start..], n);
    assert s[start..][..end - start] == s[start..end] && s[start..][end - start..] == s[end..];
  }

  /** The rows of the first j chunks are a prefix of all the rows. */
  lemma FlattenPrefix<T>(chunks: seq<seq<T>>, j: nat)
    requires j <= |chunks|
    ensures |Flatten(chunks[..j])| <= |Flatten(chunks)|
    ensures Flatten(chunks[..j]) == Flatten(chunks)[..|Flatten(chunks[..j])|]
  {
    assert chunks == chunks[..j] + chunks[j..];
    FlattenAppend(chunks[..j], chunks[j..]);
  }

  /** There are never more statements than rows. */
  lemma {:induction false} ChunkCount<T>(s: seq<T>, n: nat)
    requires n > 0
    ensures |ChunksOf(s, n)| <= |s|
    decreases |s|
  {
    if |s| > n {
      ChunkCount(s[n..], n);
    }
  }
}
