/**
 * Splitting a materialised sequence into bounded chunks (Rust's
 * `slice::chunks`), and keeping the successful items of a sequence of
 * results.
 */
module Chunking {
  import opened Wrappers

  /** The fixed chunk size used by both drivers and by the reference batch insert. */
  const ChunkSize: nat := 50

  /** Concatenation of a sequence of chunks. */
  function Flatten<T>(chunks: seq<seq<T>>): seq<T>
  {
    if chunks == [] then [] else chunks[0] + Flatten(chunks[1..])
  }

  /**
   * Consecutive chunks of `s` of `n` items each, the last one possibly
   * shorter; an empty input has no chunks.
   */
  function Chunks<T>(s: seq<T>, n: nat): (chunks: seq<seq<T>>)
    requires n > 0
    ensures Flatten(chunks) == s
    ensures forall i :: 0 <= i < |chunks| ==> 1 <= |chunks[i]| <= n
    ensures forall i :: 0 <= i < |chunks| - 1 ==> |chunks[i]| == n
    decreases |s|
  {
    if s == [] then []
    else if |s| <= n then [s]
    else
      var rest := Chunks(s[n..], n);
      assert Flatten([s[..n]] + rest) == s[..n] + Flatten(rest);
      [s[..n]] + rest
  }

  /** The successful items of `s`, in order; failures are skipped. */
  function Oks<T(!new), E>(s: seq<Result<T, E>>): (r: seq<T>)
    ensures |r| <= |s|
    ensures forall x :: x in r <==> Ok(x) in s
  {
    if s == [] then []
    else
      var rest := Oks(s[..|s| - 1]);
      assert s == s[..|s| - 1] + [s[|s| - 1]];
      match s[|s| - 1]
      case Ok(x) => rest + [x]
      case Err(_) => rest
  }

  lemma {:induction false} OksConcat<T(!new), E>(a: seq<Result<T, E>>, b: seq<Result<T, E>>)
    ensures Oks(a + b) == Oks(a) + Oks(b)
    decreases |b|
  {
    if b == [] {
      assert a + b == a;
    } else {
      var b' := b[..|b| - 1];
      assert (a + b)[..|a + b| - 1] == a + b';
      assert (a + b)[|a + b| - 1] == b[|b| - 1];
      OksConcat(a, b');
    }
  }

  /** The successes of each chunk, chunk by chunk. */
  function OksEach<T(!new), E>(chunks: seq<seq<Result<T, E>>>): (r: seq<seq<T>>)
    ensures |r| == |chunks|
    ensures forall i :: 0 <= i < |r| ==> r[i] == Oks(chunks[i])
  {
    if chunks == [] then [] else [Oks(chunks[0])] + OksEach(chunks[1..])
  }

  /** Keeping the successes chunk by chunk gives the successes of the whole, in order. */
  lemma {:induction false} OksOfFlatten<T(!new), E>(chunks: seq<seq<Result<T, E>>>)
    ensures Flatten(OksEach(chunks)) == Oks(Flatten(chunks))
  {
    if chunks != [] {
      OksOfFlatten(chunks[1..]);
      OksConcat(chunks[0], Flatten(chunks[1..]));
    }
  }

  /** An input of at most `n` items forms at most one chunk, holding all of it. */
  lemma SmallInputOneChunk<T>(s: seq<T>, n: nat)
    requires 0 < n && |s| <= n
    ensures Chunks(s, n) == if s == [] then [] else [s]
  {
  }
}
