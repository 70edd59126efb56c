/** Cutting a sequence into chunks of one size and joining chunks back. */
module Chunking {
  function Flatten<T>(chunks: seq<seq<T>>): seq<T> {
    if chunks == [] then [] else Flatten(chunks[..|chunks| - 1]) + chunks[|chunks| - 1]
  }

  function Chunks<T>(s: seq<T>, width: nat): seq<seq<T>> {
    if width == 0 || |s| < width then []
    else Chunks(s[..|s| - width], width) + [s[|s| - width..]]
  }

  predicate AllOf<T>(chunks: seq<seq<T>>, width: nat) {
    forall i :: 0 <= i < |chunks| ==> |chunks[i]| == width
  }

  predicate Whole(length: nat, width: nat) {
    length == 0 || (0 < width <= length && Whole(length - width, width))
  }

  lemma {:induction false} WholeIs(length: nat, width: nat, n: nat)
    requires length == n * width && width > 0
    ensures Whole(length, width)
  {
    if n > 0 {
      assert length == (n - 1) * width + width;
      WholeIs(length - width, width, n - 1);
    }
  }

  lemma FlattenPush<T>(front: seq<seq<T>>, last: seq<T>)
    ensures Flatten(front + [last]) == Flatten(front) + last
  {
    assert (front + [last])[..|front|] == front;
  }

  lemma ChunksPush<T>(front: seq<T>, last: seq<T>, width: nat)
    requires |last| == width > 0
    ensures Chunks(front + last, width) == Chunks(front, width) + [last]
  {
    var s := front + last;
    assert s[..|s| - width] == front && s[|s| - width..] == last;
  }

  lemma {:induction false} FlattenLength<T>(chunks: seq<seq<T>>, width: nat)
    requires AllOf(chunks, width)
    ensures |Flatten(chunks)| == |chunks| * width
  {
    if chunks != [] {
      FlattenLength(chunks[..|chunks| - 1], width);
      assert |chunks| * width == (|chunks| - 1) * width + width;
    }
  }

  lemma {:induction false} FlattenConcat<T>(a: seq<seq<T>>, b: seq<seq<T>>)
    ensures Flatten(a + b) == Flatten(a) + Flatten(b)
  {
    if b == [] {
      assert a + b == a;
    } else {
      var front, last := b[..|b| - 1], b[|b| - 1];
      FlattenConcat(a, front);
      assert a + b == (a + front) + [last];
      FlattenPush(a + front, last);
    }
  }

  lemma {:induction false} ChunksFlatten<T>(chunks: seq<seq<T>>, width: nat)
    requires AllOf(chunks, width) && width > 0
    ensures Chunks(Flatten(chunks), width) == chunks
  {
    if chunks != [] {
      var front, last := chunks[..|chunks| - 1], chunks[|chunks| - 1];
      ChunksFlatten(front, width);
      assert chunks == front + [last];
      FlattenPush(front, last);
      ChunksPush(Flatten(front), last, width);
    }
  }

  lemma {:induction false} FlattenChunks<T>(s: seq<T>, width: nat)
    requires Whole(|s|, width)
    ensures AllOf(Chunks(s, width), width) && Flatten(Chunks(s, width)) == s
  {
    if s != [] {
      var front, last := s[..|s| - width], s[|s| - width..];
      FlattenChunks(front, width);
      FlattenPush(Chunks(front, width), last);
    }
  }

  lemma ChunksConcat<T>(a: seq<T>, b: seq<T>, width: nat)
    requires Whole(|a|, width) && Whole(|b|, width) && width > 0
    ensures Chunks(a + b, width) == Chunks(a, width) + Chunks(b, width)
  {
    FlattenChunks(a, width);
    FlattenChunks(b, width);
    FlattenConcat(Chunks(a, width), Chunks(b, width));
    ChunksFlatten(Chunks(a, width) + Chunks(b, width), width);
  }
}
