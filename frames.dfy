/** Bytes and ordered runs of notification frames: the vocabulary shared by the
    holder, which splits a payload into frames, and the verifier, which
    concatenates the frames it receives. */
module Frames {

  /** An unsigned octet, as carried by a Kotlin `ByteArray` or a JavaScript `Uint8Array`. */
  newtype byte = x: int | 0 <= x < 256

  /** The bytes carried by `chunks`, in arrival order. */
  function Flatten(chunks: seq<seq<byte>>): seq<byte>
  {
    if chunks == [] then [] else Flatten(chunks[..|chunks| - 1]) + chunks[|chunks| - 1]
  }

  /** The number of bytes carried by `chunks` (the sum of the frame lengths). */
  function TotalLength(chunks: seq<seq<byte>>): nat
  {
    if chunks == [] then 0 else TotalLength(chunks[..|chunks| - 1]) + |chunks[|chunks| - 1]|
  }

  /** Every frame carries at least one byte. */
  predicate NonEmptyFrames(chunks: seq<seq<byte>>)
  {
    forall i :: 0 <= i < |chunks| ==> |chunks[i]| > 0
  }

  lemma {:induction false} TotalLengthIsFlattenLength(chunks: seq<seq<byte>>)
    ensures TotalLength(chunks) == |Flatten(chunks)|
  {
    if chunks != [] {
      TotalLengthIsFlattenLength(chunks[..|chunks| - 1]);
    }
  }

  /** Concatenating two runs of frames concatenates the bytes they carry. */
  lemma {:induction false} FlattenConcat(a: seq<seq<byte>>, b: seq<seq<byte>>)
    ensures Flatten(a + b) == Flatten(a) + Flatten(b)
    decreases |b|
  {
    if b == [] {
      assert a + b == a;
    } else {
      var b' := b[..|b| - 1];
      assert (a + b)[..|a + b| - 1] == a + b';
      FlattenConcat(a, b');
    }
  }

  lemma {:induction false} TotalLengthConcat(a: seq<seq<byte>>, b: seq<seq<byte>>)
    ensures TotalLength(a + b) == TotalLength(a) + TotalLength(b)
    decreases |b|
  {
    if b == [] {
      assert a + b == a;
    } else {
      var b' := b[..|b| - 1];
      assert (a + b)[..|a + b| - 1] == a + b';
      TotalLengthConcat(a, b');
    }
  }

  /** The frames before frame `i` leave room for all of frame `i` within the run's total. */
  lemma PrefixWithin(chunks: seq<seq<byte>>, i: nat)
    requires i < |chunks|
    ensures TotalLength(chunks[..i]) + |chunks[i]| <= TotalLength(chunks)
  {
    assert chunks == chunks[..i] + chunks[i..];
    TotalLengthConcat(chunks[..i], chunks[i..]);
    assert chunks[i..] == [chunks[i]] + chunks[i + 1..];
    TotalLengthConcat([chunks[i]], chunks[i + 1..]);
    assert [chunks[i]][..0] == [];
  }

  /** In a run of non-empty frames every proper prefix carries strictly fewer
      bytes than the whole run: a byte counter fed the frames in order first
      reaches the run's total on its last frame. */
  lemma PrefixBelowTotal(chunks: seq<seq<byte>>, i: nat)
    requires NonEmptyFrames(chunks) && i < |chunks|
    ensures TotalLength(chunks[..i]) < TotalLength(chunks)
  {
    PrefixWithin(chunks, i);
  }
}
