/**
 Rows in equal blocks: what `view`, `chunk` and `cat` do to the first dimension
 of a tensor. A tensor is the sequence of its rows. `Chunk` has PyTorch's rule
 that the pieces are of the rounded-up size, so that there may be fewer pieces
 than asked for and the last one may be short; the lemmas say when cutting and
 concatenating undo each other, where a block begins in the whole, and how many
 pieces there are.
 */
module Blocks {
  import opened Arithmetic
  import opened Common

  predicate EqualBlocks<T>(bs: seq<seq<T>>, size: nat) {
    forall i :: 0 <= i < |bs| ==> |bs[i]| == size
  }

  /** `rows.chunk(n)`: pieces of size `ceil(len / n)`, the last one possibly shorter; no rows give `n` empty pieces. */
  function Chunk<T>(rows: seq<T>, n: nat): seq<seq<T>>
    requires n > 0
  {
    if rows == [] then seq(n, _ => [])
    else
      CeilDivPositive(|rows|, n);
      ChunkBySize(rows, CeilDiv(|rows|, n))
  }

  function ChunkBySize<T>(rows: seq<T>, size: nat): seq<seq<T>>
    requires size > 0
    decreases |rows|
  {
    if |rows| <= size then [rows]
    else [rows[..size]] + ChunkBySize(rows[size..], size)
  }

  // ---- equal blocks

  lemma {:induction false} ConcatLength<T>(bs: seq<seq<T>>, size: nat)
    requires EqualBlocks(bs, size)
    ensures |Concat(bs)| == |bs| * size
  {
    if bs != [] {
      ConcatLength(bs[1..], size);
    }
  }

  predicate InRange<T>(rows: seq<T>, at: int, n: nat) {
    0 <= at && at + n <= |rows|
  }

  /** The `n` rows from row `at` on. */
  function Slice<T>(rows: seq<T>, at: int, n: nat): seq<T>
    requires InRange(rows, at, n)
  {
    rows[at..at + n]
  }

  /** Block `g` of the whole begins at row `g * size`. */
  lemma {:induction false} ConcatSlice<T>(bs: seq<seq<T>>, size: nat, g: nat)
    requires EqualBlocks(bs, size) && g < |bs|
    ensures InRange(Concat(bs), g * size, size) && Slice(Concat(bs), g * size, size) == bs[g]
  {
    if g > 0 {
      ConcatSlice(bs[1..], size, g - 1);
      assert g * size == (g - 1) * size + size;
      SliceDrop(Concat(bs), size, (g - 1) * size, size);
    }
  }

  lemma SliceDrop<T>(rows: seq<T>, d: nat, at: nat, n: nat)
    requires d <= |rows| && InRange(rows[d..], at, n)
    ensures InRange(rows, at + d, n) && Slice(rows, at + d, n) == Slice(rows[d..], at, n)
  {
  }

  /** Cutting what was put together from equal blocks gives the blocks. */
  lemma {:induction false} ChunkConcat<T>(bs: seq<seq<T>>, size: nat)
    requires EqualBlocks(bs, size) && size > 0 && bs != []
    ensures ChunkBySize(Concat(bs), size) == bs
  {
    if |bs| == 1 {
      assert Concat(bs) == bs[0];
    } else {
      ChunkConcat(bs[1..], size);
      assert Concat(bs)[size..] == Concat(bs[1..]) && Concat(bs)[..size] == bs[0];
      assert |Concat(bs[1..])| > 0 by {
        assert Concat(bs[1..]) == bs[1] + Concat(bs[2..]) by {
          assert bs[1..][0] == bs[1] && bs[1..][1..] == bs[2..];
        }
      }
    }
  }

  lemma {:induction false} ChunkParts<T>(rows: seq<T>, n: nat, size: nat)
    requires |rows| == n * size && n > 0 && size > 0
    ensures |ChunkBySize(rows, size)| == n && Concat(ChunkBySize(rows, size)) == rows
    ensures EqualBlocks(ChunkBySize(rows, size), size)
  {
    assert n * size == (n - 1) * size + size;
    if n > 1 {
      assert (n - 1) * size > 0;
      ChunkParts(rows[size..], n - 1, size);
    } else {
      assert Concat([rows]) == rows;
    }
  }

  /** `chunk` into a number that divides the rows gives that many equal blocks. */
  lemma ChunkDivides<T>(rows: seq<T>, n: nat, size: nat)
    requires |rows| == n * size && n > 0 && size > 0
    ensures Chunk(rows, n) == ChunkBySize(rows, size)
    ensures |Chunk(rows, n)| == n && Concat(Chunk(rows, n)) == rows && EqualBlocks(Chunk(rows, n), size)
  {
    assert n * size == size * n;
    DivExact(size, n);
    ChunkParts(rows, n, size);
  }

  /** Piece `p` of `chunk` holds the rows from `p * size` on, at most `size` of them. */
  lemma {:induction false} ChunkAt<T>(rows: seq<T>, size: nat, p: nat)
    requires size > 0 && p < |ChunkBySize(rows, size)|
    ensures 0 <= p * size <= |rows|
    ensures ChunkBySize(rows, size)[p]
         == if (p + 1) * size <= |rows| then rows[p * size..(p + 1) * size] else rows[p * size..]
  {
    if p > 0 {
      ChunkAt(rows[size..], size, p - 1);
      assert p * size == (p - 1) * size + size && (p + 1) * size == p * size + size;
    } else if |rows| == size {
      assert rows[..size] == rows;
    }
  }

  lemma {:induction false} ChunkCount<T>(rows: seq<T>, size: nat)
    requires size > 0 && rows != []
    ensures |ChunkBySize(rows, size)| == CeilDiv(|rows|, size)
    decreases |rows|
  {
    if |rows| > size {
      ChunkCount(rows[size..], size);
      CeilDivStep(|rows|, size);
    } else {
      DivModUnique(1, size, |rows| - 1);
    }
  }
}
