/**
  `split_to_chunks`: consecutive slices of at most `size` elements, in order.
 */
module Chunking {
  import opened Wrappers

  /** The default `size` argument, used by every caller in the ingestors. */
  const DefaultChunkSize: nat := 50000

  /** Concatenation of a sequence of chunks. */
  function Flatten<T>(chunks: seq<seq<T>>): seq<T> {
    if chunks == [] then [] else chunks[0] + Flatten(chunks[1..])
  }

  lemma {:induction false} FlattenConcat<T>(a: seq<seq<T>>, b: seq<seq<T>>)
    ensures Flatten(a + b) == Flatten(a) + Flatten(b)
  {
    if a == [] {
      assert a + b == b;
    } else {
      assert (a + b)[1..] == a[1..] + b;
      FlattenConcat(a[1..], b);
    }
  }

  /** The first `k + 1` chunks are the first chunk, then `k` chunks of the rest. */
  lemma FlattenTakeCons<T>(chunks: seq<seq<T>>, k: nat)
    requires k < |chunks|
    ensures Flatten(chunks[..k + 1]) == chunks[0] + Flatten(chunks[1..][..k])
  {
    assert chunks[..k + 1][1..] == chunks[1..][..k];
  }

  function Min(a: int, b: int): int { if a <= b then a else b }

  /** The chunks a positive `size` yields: a slice of `size` elements, then the chunks of the rest. */
  function Chunks<T>(data: seq<T>, size: nat): seq<seq<T>>
    requires size > 0
    decreases |data|
  {
    if data == [] then []
    else if |data| <= size then [data]
    else [data[..size]] + Chunks(data[size..], size)
  }

  /**
    The input comes back by concatenation, every chunk is non-empty and at most `size`
    long, and only the last may be short.
   */
  lemma {:induction false} ChunksMeaning<T>(data: seq<T>, size: nat)
    requires size > 0
    ensures var r := Chunks(data, size);
      && Flatten(r) == data
      && (r == [] <==> data == [])
      && (forall k | 0 <= k < |r| :: 1 <= |r[k]| <= size)
      && (forall k | 0 <= k < |r| - 1 :: |r[k]| == size)
    decreases |data|
  {
    if data == [] {
    } else if |data| <= size {
      assert Flatten([data]) == data + Flatten([data][1..]);
    } else {
      var rest := Chunks(data[size..], size);
      ChunksMeaning(data[size..], size);
      assert ([data[..size]] + rest)[1..] == rest;
      assert data[..size] + data[size..] == data;
    }
  }

  /**
    The first `k` chunks concatenate to the first `k * size` elements of the input, or all
    of it; a chunk starts at `k * size`, inside the input.
   */
  lemma {:induction false} ChunksPrefix<T>(data: seq<T>, size: nat, k: nat)
    requires size > 0 && k <= |Chunks(data, size)|
    ensures Flatten(Chunks(data, size)[..k]) == data[..Min(k * size, |data|)]
    ensures k < |Chunks(data, size)| ==> k * size < |data|
    decreases |data|
  {
    var r := Chunks(data, size);
    if k == 0 {
      assert r[..0] == [];
    } else if |data| <= size {
      assert r[..k] == [data];
      assert Flatten([data]) == data + Flatten([data][1..]);
    } else {
      var rest := Chunks(data[size..], size);
      ChunksPrefix(data[size..], size, k - 1);
      assert r[..k][0] == data[..size] && r[..k][1..] == rest[..k - 1];
      assert (k - 1) * size + size == k * size;
      assert data[..size] + data[size..][..Min((k - 1) * size, |data| - size)] == data[..Min(k * size, |data|)];
    }
  }

  /** Where chunk `k` lies in the input: after the first `k * size` elements, up to `size` of them. */
  lemma ChunkAt<T>(data: seq<T>, size: nat, k: nat)
    requires size > 0 && k < |Chunks(data, size)|
    ensures k * size < |data| && Flatten(Chunks(data, size)) == data
    ensures Flatten(Chunks(data, size)[..k]) == data[..k * size]
    ensures Flatten(Chunks(data, size)[..k + 1]) == data[..Min((k + 1) * size, |data|)]
  {
    ChunksMeaning(data, size);
    ChunksPrefix(data, size, k);
    ChunksPrefix(data, size, k + 1);
  }

  /** Every element of every chunk is an element of the input. */
  lemma {:induction false} ChunkElements<T>(data: seq<T>, size: nat, k: nat, x: T)
    requires size > 0 && k < |Chunks(data, size)| && x in Chunks(data, size)[k]
    ensures x in data
    decreases |data|
  {
    if |data| > size {
      if k == 0 {
        assert x in data[..size];
      } else {
        ChunkElements(data[size..], size, k - 1, x);
        assert x in data[size..];
      }
    }
  }

  /** The error Python raises before yielding anything. */
  datatype ChunkError = ZeroStep

  /**
    `split_to_chunks(data, size)` for any integer `size`: `range` refuses a zero step,
    and a negative step yields nothing.
   */
  function SplitToChunks<T>(data: seq<T>, size: int): (r: Result<seq<seq<T>>, ChunkError>)
    ensures r.Err? <==> size == 0
    ensures size < 0 ==> r == Ok([])
    ensures size > 0 ==> r == Ok(Chunks(data, size))
  {
    if size == 0 then Err(ZeroStep)
    else if size < 0 then Ok([])
    else Ok(Chunks(data, size))
  }

  /** One step of the generator: the slice at offset `i`, then the chunks of what follows it. */
  lemma ChunksStep<T>(data: seq<T>, i: nat, size: nat)
    requires size > 0 && i < |data|
    ensures Chunks(data[i..], size)
         == [data[i..Min(i + size, |data|)]] + Chunks(data[Min(i + size, |data|)..], size)
  {
    var rest := data[i..];
    var j := Min(i + size, |data|);
    if |rest| <= size {
      assert data[i..j] == rest;
      assert data[j..] == [];
    } else {
      assert rest[..size] == data[i..j] && rest[size..] == data[j..];
    }
  }

  /** The loop's invariant survives taking the slice at offset `i`. */
  lemma ChunkListStep<T>(data: seq<T>, i: nat, size: nat, chunks: seq<seq<T>>)
    requires size > 0 && i < |data|
    requires chunks + Chunks(data[i..], size) == Chunks(data, size)
    ensures (chunks + [data[i..Min(i + size, |data|)]]) + Chunks(data[Min(i + size, |data|)..], size)
         == Chunks(data, size)
  {
    var j := Min(i + size, |data|);
    ChunksStep(data, i, size);
    ConcatAssoc(chunks, [data[i..j]], Chunks(data[j..], size));
  }

  lemma ConcatAssoc<T>(a: seq<T>, b: seq<T>, c: seq<T>)
    ensures a + (b + c) == (a + b) + c
  {
  }

  /** The generator's loop: slice after slice, stepping by `size`. */
  method ChunkList<T>(data: seq<T>, size: nat) returns (chunks: seq<seq<T>>)
    requires size > 0
    ensures chunks == Chunks(data, size)
  {
    chunks := [];
    var i := 0;
    while i < |data|
      invariant 0 <= i <= |data|
      invariant chunks + Chunks(data[i..], size) == Chunks(data, size)
    {
      var j := Min(i + size, |data|);
      ChunkListStep(data, i, size, chunks);
      chunks := chunks + [data[i..j]];
      i := j;
    }
    assert data[i..] == [];
    assert chunks + [] == chunks;
  }
}
