/**
 The fused QKV weight. The converter interleaves the rows of q, k and v one
 query group at a time; tensor parallelism cuts the result into equal blocks of
 rows; the mergers take it apart again. A tensor is the sequence of its rows.
 */
module QkvLayout {
  import opened Arithmetic
  import opened Common
  import opened Blocks

  datatype Qkv<+T> = Qkv(q: seq<T>, k: seq<T>, v: seq<T>)

  /** `kvHeads` groups, each of `ratio` query heads, one key head and one value head of `headDim` rows. */
  datatype Heads = Heads(kvHeads: nat, ratio: nat, headDim: nat) {
    predicate Valid() { kvHeads > 0 && ratio > 0 && headDim > 0 }

    function QRows(): nat { ratio * headDim }

    function GroupRows(): nat { QRows() + 2 * headDim }
  }

  predicate Shaped<T>(x: Qkv<T>, hd: Heads) {
    |x.q| == hd.kvHeads * hd.QRows() && |x.k| == |x.v| == hd.kvHeads * hd.headDim
  }

  // ---- the converter

  /** `cat([q, k, v], dim=1)` on tensors viewed as one block of rows per query group. */
  function FuseGroups<T>(qs: seq<seq<T>>, ks: seq<seq<T>>, vs: seq<seq<T>>): seq<seq<T>>
    requires |qs| == |ks| == |vs|
  {
    seq(|qs|, g requires 0 <= g < |qs| => qs[g] + ks[g] + vs[g])
  }

  lemma Views<T>(x: Qkv<T>, hd: Heads)
    requires hd.Valid() && Shaped(x, hd)
    ensures
      var qs, ks, vs := ChunkBySize(x.q, hd.QRows()), ChunkBySize(x.k, hd.headDim), ChunkBySize(x.v, hd.headDim);
      && |qs| == |ks| == |vs| == hd.kvHeads
      && EqualBlocks(qs, hd.QRows()) && EqualBlocks(ks, hd.headDim) && EqualBlocks(vs, hd.headDim)
      && Concat(qs) == x.q && Concat(ks) == x.k && Concat(vs) == x.v
  {
    assert hd.QRows() > 0;
    ChunkParts(x.q, hd.kvHeads, hd.QRows());
    ChunkParts(x.k, hd.kvHeads, hd.headDim);
    ChunkParts(x.v, hd.kvHeads, hd.headDim);
  }

  function Groups<T>(x: Qkv<T>, hd: Heads): seq<seq<T>>
    requires hd.Valid() && Shaped(x, hd)
  {
    Views(x, hd);
    FuseGroups(ChunkBySize(x.q, hd.QRows()), ChunkBySize(x.k, hd.headDim), ChunkBySize(x.v, hd.headDim))
  }

  /** The fused weight. */
  function Fuse<T>(x: Qkv<T>, hd: Heads): seq<T>
    requires hd.Valid() && Shaped(x, hd)
  {
    Concat(Groups(x, hd))
  }

  /** Group `g` of the fused weight: the group's query rows, then its key rows, then its value rows. */
  lemma FusedGroup<T>(x: Qkv<T>, hd: Heads, a: nat, h: nat, g: nat)
    requires hd.Valid() && Shaped(x, hd) && a == hd.QRows() && h == hd.headDim && g < hd.kvHeads
    ensures InRange(Fuse(x, hd), g * (a + 2 * h), a + 2 * h) && InRange(x.q, g * a, a)
    ensures InRange(x.k, g * h, h) && InRange(x.v, g * h, h)
    ensures Slice(Fuse(x, hd), g * (a + 2 * h), a + 2 * h)
         == Slice(x.q, g * a, a) + Slice(x.k, g * h, h) + Slice(x.v, g * h, h)
  {
    Views(x, hd);
    FusedBlock(ChunkBySize(x.q, a), ChunkBySize(x.k, h), ChunkBySize(x.v, h), a, h, a + 2 * h, g);
  }

  lemma FusedBlock<T>(qs: seq<seq<T>>, ks: seq<seq<T>>, vs: seq<seq<T>>, a: nat, h: nat, size: nat, g: nat)
    requires |qs| == |ks| == |vs| && EqualBlocks(qs, a) && EqualBlocks(ks, h) && EqualBlocks(vs, h)
    requires size == a + 2 * h && g < |qs|
    ensures InRange(Concat(FuseGroups(qs, ks, vs)), g * size, size) && InRange(Concat(qs), g * a, a)
    ensures InRange(Concat(ks), g * h, h) && InRange(Concat(vs), g * h, h)
    ensures Slice(Concat(FuseGroups(qs, ks, vs)), g * size, size)
         == Slice(Concat(qs), g * a, a) + Slice(Concat(ks), g * h, h) + Slice(Concat(vs), g * h, h)
  {
    ConcatSlice(qs, a, g);
    ConcatSlice(ks, h, g);
    ConcatSlice(vs, h, g);
    ConcatSlice(FuseGroups(qs, ks, vs), size, g);
  }

  // ---- the mergers

  datatype Error = DivisionByZero | HeadCountMismatch | NoShards | NotDivisible | NoChunks | SplitMismatch

  /** The slice `[lo:hi]` of every group. */
  function Pieces<T>(gs: seq<seq<T>>, lo: nat, hi: nat): seq<seq<T>>
    requires lo <= hi && forall g :: 0 <= g < |gs| ==> hi <= |gs[g]|
  {
    seq(|gs|, g requires 0 <= g < |gs| => gs[g][lo..hi])
  }

  /** The query, key and value rows of every group, each concatenated. */
  function SplitGroups<T>(gs: seq<seq<T>>, a: nat, h: nat): Qkv<T>
    requires EqualBlocks(gs, a + 2 * h)
  {
    Qkv(Concat(Pieces(gs, 0, a)), Concat(Pieces(gs, a, a + h)), Concat(Pieces(gs, a + h, a + 2 * h)))
  }

  /** The chunks of all shards, in order. */
  function ShardGroups<T>(shards: seq<seq<T>>, groups: nat): seq<seq<T>>
    requires groups > 0
  {
    if shards == [] then []
    else ShardGroups(shards[..|shards| - 1], groups) + Chunk(shards[|shards| - 1], groups)
  }

  /** The number of rows of a query piece and of a key or value piece. */
  function PieceSizes(rows: nat, ratio: nat, groups: nat): (nat, nat)
    requires groups > 0
  {
    var kvSize := rows / (ratio + 2);
    DivNat(rows, ratio + 2);
    DivNat(kvSize * ratio, groups);
    DivNat(kvSize, groups);
    (kvSize * ratio / groups, kvSize / groups)
  }

  /** The queries, keys and values that the shards of the tensor-parallel ranks hold. */
  function Merged<T>(tpData: seq<seq<T>>, heads: nat, kvHeads: nat): Result<Qkv<T>, Error> {
    if kvHeads == 0 then Err(DivisionByZero)
    else if heads % kvHeads != 0 then Err(HeadCountMismatch)
    else if tpData == [] then Err(NoShards)
    else
      DivNat(heads, kvHeads);
      DivNat(kvHeads, |tpData|);
      MergedGroups(tpData, heads / kvHeads, kvHeads / |tpData|)
  }

  function MergedGroups<T>(tpData: seq<seq<T>>, ratio: nat, groups: nat): Result<Qkv<T>, Error>
    requires tpData != []
  {
    if |tpData[0]| % (ratio + 2) != 0 then Err(NotDivisible)
    else if groups == 0 then Err(NoChunks)
    else
      var (a, h) := PieceSizes(|tpData[0]|, ratio, groups);
      var gs := ShardGroups(tpData, groups);
      if EqualBlocks(gs, a + 2 * h) then Ok(SplitGroups(gs, a, h)) else Err(SplitMismatch)
  }

  /** The legacy merger's QKV branch, shard by shard and chunk by chunk. */
  method MergeAcrossTp<T>(tpData: seq<seq<T>>, heads: nat, kvHeads: nat) returns (r: Result<Qkv<T>, Error>)
    ensures r == Merged(tpData, heads, kvHeads)
  {
    if kvHeads == 0 {
      return Err(DivisionByZero);
    }
    if heads % kvHeads != 0 {
      return Err(HeadCountMismatch);
    }
    if tpData == [] {
      return Err(NoShards);
    }
    DivNat(heads, kvHeads);
    DivNat(kvHeads, |tpData|);
    var ratio, groups: nat := heads / kvHeads, kvHeads / |tpData|;
    if |tpData[0]| % (ratio + 2) != 0 {
      return Err(NotDivisible);
    }
    if groups == 0 {
      return Err(NoChunks);
    }
    r := MergeShards(tpData, ratio, groups);
  }

  method MergeShards<T>(tpData: seq<seq<T>>, ratio: nat, groups: nat) returns (r: Result<Qkv<T>, Error>)
    requires tpData != [] && |tpData[0]| % (ratio + 2) == 0 && groups > 0
    ensures r == MergedGroups(tpData, ratio, groups)
  {
    var (a, h) := PieceSizes(|tpData[0]|, ratio, groups);
    var qLst: seq<seq<T>>, kLst: seq<seq<T>>, vLst: seq<seq<T>> := [], [], [];
    for t := 0 to |tpData|
      invariant PiecesOf(ShardGroups(tpData[..t], groups), a, h, qLst, kLst, vLst)
    {
      ShardGroupsStep(tpData, t, groups);
      var ok;
      ok, qLst, kLst, vLst :=
        AppendPieces(ShardGroups(tpData[..t], groups), Chunk(tpData[t], groups), a, h, qLst, kLst, vLst);
      if !ok {
        BadChunk(tpData, t, groups, a + 2 * h);
        return Err(SplitMismatch);
      }
    }
    assert tpData[..|tpData|] == tpData;
    return Ok(Qkv(Concat(qLst), Concat(kLst), Concat(vLst)));
  }

  /** The three lists hold the pieces of all chunks so far. */
  ghost predicate PiecesOf<T>(gs: seq<seq<T>>, a: nat, h: nat, qs: seq<seq<T>>, ks: seq<seq<T>>, vs: seq<seq<T>>) {
    && EqualBlocks(gs, a + 2 * h)
    && qs == Pieces(gs, 0, a) && ks == Pieces(gs, a, a + h) && vs == Pieces(gs, a + h, a + 2 * h)
  }

  /** `chunk.split([a, h, h])` on every chunk, appended to the three lists. */
  method AppendPieces<T>(ghost before: seq<seq<T>>, chunks: seq<seq<T>>, a: nat, h: nat,
                         qLst: seq<seq<T>>, kLst: seq<seq<T>>, vLst: seq<seq<T>>)
    returns (ok: bool, qs: seq<seq<T>>, ks: seq<seq<T>>, vs: seq<seq<T>>)
    requires PiecesOf(before, a, h, qLst, kLst, vLst)
    ensures ok <==> EqualBlocks(chunks, a + 2 * h)
    ensures ok ==> PiecesOf(before + chunks, a, h, qs, ks, vs)
  {
    qs, ks, vs := qLst, kLst, vLst;
    assert before + chunks[..0] == before;
    for i := 0 to |chunks|
      invariant EqualBlocks(chunks[..i], a + 2 * h)
      invariant PiecesOf(before + chunks[..i], a, h, qs, ks, vs)
    {
      var chunk := chunks[i];
      if |chunk| != a + 2 * h {
        return false, qs, ks, vs;
      }
      assert chunks[..i + 1] == chunks[..i] + [chunk];
      assert before + chunks[..i + 1] == (before + chunks[..i]) + [chunk];
      PiecesStep(before + chunks[..i], chunk, a, h, qs, ks, vs);
      qs, ks, vs := qs + [chunk[..a]], ks + [chunk[a..a + h]], vs + [chunk[a + h..]];
    }
    assert chunks[..|chunks|] == chunks;
    ok := true;
  }

  lemma PiecesStep<T>(gs: seq<seq<T>>, chunk: seq<T>, a: nat, h: nat,
                      qs: seq<seq<T>>, ks: seq<seq<T>>, vs: seq<seq<T>>)
    requires PiecesOf(gs, a, h, qs, ks, vs) && |chunk| == a + 2 * h
    ensures PiecesOf(gs + [chunk], a, h, qs + [chunk[..a]], ks + [chunk[a..a + h]], vs + [chunk[a + h..]])
  {
    assert chunk[0..a] == chunk[..a] && chunk[a + h..a + 2 * h] == chunk[a + h..];
  }

  lemma ShardGroupsStep<T>(shards: seq<seq<T>>, t: nat, groups: nat)
    requires t < |shards| && groups > 0
    ensures ShardGroups(shards[..t + 1], groups) == ShardGroups(shards[..t], groups) + Chunk(shards[t], groups)
  {
    var upTo := shards[..t + 1];
    assert upTo[..|upTo| - 1] == shards[..t] && upTo[|upTo| - 1] == shards[t];
  }

  /** A chunk of the wrong length spoils the split of all groups. */
  lemma BadChunk<T>(shards: seq<seq<T>>, t: nat, groups: nat, size: nat)
    requires t < |shards| && groups > 0 && !EqualBlocks(Chunk(shards[t], groups), size)
    ensures !EqualBlocks(ShardGroups(shards, groups), size)
  {
    ShardGroupsStep(shards, t, groups);
    ShardGroupsSuffix(shards, t + 1, groups);
    BadPart(ShardGroups(shards[..t], groups), Chunk(shards[t], groups), ShardGroups(shards, groups), size);
  }

  lemma BadPart<T>(before: seq<seq<T>>, part: seq<seq<T>>, all: seq<seq<T>>, size: nat)
    requires before + part <= all && !EqualBlocks(part, size)
    ensures !EqualBlocks(all, size)
  {
    var i :| 0 <= i < |part| && |part[i]| != size;
    var upTo := before + part;
    assert upTo[|before| + i] == part[i];
    assert all[..|upTo|] == upTo;
    assert all[|before| + i] == part[i];
  }

  lemma {:induction false} ShardGroupsSuffix<T>(shards: seq<seq<T>>, t: nat, groups: nat)
    requires t <= |shards| && groups > 0
    ensures ShardGroups(shards[..t], groups) <= ShardGroups(shards, groups)
  {
    if t == |shards| {
      assert shards[..t] == shards;
    } else {
      var init := shards[..|shards| - 1];
      ShardGroupsSuffix(init, t, groups);
      assert init[..t] == shards[..t];
    }
  }

  /** The distributed merger's QKV branch, on one tensor that holds every query group. */
  method SplitTensor<T>(tensor: seq<T>, heads: nat, kvHeads: nat) returns (r: Result<Qkv<T>, Error>)
    ensures r == Merged([tensor], heads, kvHeads)
  {
    if kvHeads == 0 {
      return Err(DivisionByZero);
    }
    if heads % kvHeads != 0 {
      return Err(HeadCountMismatch);
    }
    DivNat(heads, kvHeads);
    assert kvHeads / 1 == kvHeads;
    var ratio: nat := heads / kvHeads;
    if |tensor| % (ratio + 2) != 0 {
      return Err(NotDivisible);
    }
    var (a, h) := PieceSizes(|tensor|, ratio, kvHeads);
    var chunks := Chunk(tensor, kvHeads);
    var ok, qs, ks, vs := AppendPieces([], chunks, a, h, [], [], []);
    assert [] + chunks == chunks == ShardGroups([tensor], kvHeads);
    if !ok {
      return Err(SplitMismatch);
    }
    return Ok(Qkv(Concat(qs), Concat(ks), Concat(vs)));
  }

  // ---- round trips

  /** Every tensor-parallel shard is a block of the same number of whole groups. */
  predicate ShardsOk<T>(shards: seq<seq<T>>, groups: nat, hd: Heads) {
    EqualBlocks(shards, groups * hd.GroupRows())
  }

  lemma SplitFusedGroups<T>(x: Qkv<T>, hd: Heads)
    requires hd.Valid() && Shaped(x, hd)
    ensures EqualBlocks(Groups(x, hd), hd.GroupRows())
    ensures SplitGroups(Groups(x, hd), hd.QRows(), hd.headDim) == x
  {
    var a, h := hd.QRows(), hd.headDim;
    var qs, ks, vs := ChunkBySize(x.q, a), ChunkBySize(x.k, h), ChunkBySize(x.v, h);
    Views(x, hd);
    PiecesOfFused(qs, ks, vs, a, h);
  }

  lemma PiecesOfFused<T>(qs: seq<seq<T>>, ks: seq<seq<T>>, vs: seq<seq<T>>, a: nat, h: nat)
    requires |qs| == |ks| == |vs| && EqualBlocks(qs, a) && EqualBlocks(ks, h) && EqualBlocks(vs, h)
    ensures PiecesOf(FuseGroups(qs, ks, vs), a, h, qs, ks, vs)
  {
    var gs := FuseGroups(qs, ks, vs);
    forall g | 0 <= g < |gs|
      ensures |gs[g]| == a + 2 * h
      ensures gs[g][0..a] == qs[g] && gs[g][a..a + h] == ks[g] && gs[g][a + h..a + 2 * h] == vs[g]
    {
      assert gs[g] == qs[g] + ks[g] + vs[g];
    }
  }

  lemma {:induction false} ShardGroupsBlocks<T>(shards: seq<seq<T>>, groups: nat, hd: Heads)
    requires hd.Valid() && groups > 0 && ShardsOk(shards, groups, hd)
    ensures EqualBlocks(ShardGroups(shards, groups), hd.GroupRows())
    ensures Concat(ShardGroups(shards, groups)) == Concat(shards)
  {
    if shards != [] {
      var init, last := shards[..|shards| - 1], shards[|shards| - 1];
      ShardGroupsBlocks(init, groups, hd);
      ChunkDivides(last, groups, hd.GroupRows());
      ConcatSum(ShardGroups(init, groups), Chunk(last, groups));
      ConcatAppend(init, last);
      assert shards == init + [last];
    }
  }

  /** The piece sizes that the mergers compute from a shard's row count. */
  lemma SplitSizes(groups: nat, hd: Heads)
    requires hd.Valid() && groups > 0
    ensures groups * hd.GroupRows() % (hd.ratio + 2) == 0
    ensures PieceSizes(groups * hd.GroupRows(), hd.ratio, groups) == (hd.QRows(), hd.headDim)
  {
    var r, h := hd.ratio, hd.headDim;
    GroupRowsProduct(groups, r, h);
    DivExact(groups * h, r + 2);
    TripleProduct(groups, h, r);
    DivExact(r * h, groups);
    assert groups * h == h * groups;
    DivExact(h, groups);
  }

  lemma GroupRowsProduct(groups: nat, r: nat, h: nat)
    ensures groups * (r * h + 2 * h) == groups * h * (r + 2)
  {
    assert r * h + 2 * h == h * (r + 2);
  }

  /**
   The converter followed by a merger: however many tensor-parallel shards the
   fused weight is cut into, as long as their number divides the key heads,
   merging them gives back q, k and v.
   */
  lemma ShardedRoundTrip<T>(x: Qkv<T>, hd: Heads, shards: seq<seq<T>>)
    requires hd.Valid() && Shaped(x, hd)
    requires shards != [] && hd.kvHeads % |shards| == 0
    requires EqualBlocks(shards, |Fuse(x, hd)| / |shards|) && Concat(shards) == Fuse(x, hd)
    ensures Merged(shards, hd.kvHeads * hd.ratio, hd.kvHeads) == Ok(x)
  {
    var groups := hd.kvHeads / |shards|;
    ShardRows(x, hd, |shards|);
    MergedWholeGroups(hd, shards);
    ShardGroupsBlocks(shards, groups, hd);
    SplitFusedGroups(x, hd);
    SameGroups(ShardGroups(shards, groups), Groups(x, hd), hd.GroupRows());
  }

  lemma HeadRatio(hd: Heads)
    requires hd.Valid()
    ensures hd.kvHeads * hd.ratio % hd.kvHeads == 0 && hd.kvHeads * hd.ratio / hd.kvHeads == hd.ratio
  {
    assert hd.kvHeads * hd.ratio == hd.ratio * hd.kvHeads;
    DivExact(hd.ratio, hd.kvHeads);
  }

  lemma FusedLength<T>(x: Qkv<T>, hd: Heads)
    requires hd.Valid() && Shaped(x, hd)
    ensures |Fuse(x, hd)| == hd.kvHeads * hd.GroupRows()
  {
    SplitFusedGroups(x, hd);
    Views(x, hd);
    ConcatLength(Groups(x, hd), hd.GroupRows());
  }

  /** An equal cut of the rows into a number that divides the groups is a cut between groups. */
  lemma ShardRows<T>(x: Qkv<T>, hd: Heads, tp: nat)
    requires hd.Valid() && Shaped(x, hd) && tp > 0 && hd.kvHeads % tp == 0
    ensures hd.kvHeads / tp > 0
    ensures |Fuse(x, hd)| / tp == hd.kvHeads / tp * hd.GroupRows()
  {
    FusedLength(x, hd);
    DivideProduct(hd.kvHeads, hd.GroupRows(), tp);
  }

  /** The unsharded splitter agrees with the tensor-parallel merger on the concatenated blocks. */
  lemma UnshardedAgrees<T>(hd: Heads, shards: seq<seq<T>>)
    requires hd.Valid() && shards != [] && hd.kvHeads % |shards| == 0
    requires ShardsOk(shards, hd.kvHeads / |shards|, hd)
    ensures Merged(shards, hd.kvHeads * hd.ratio, hd.kvHeads).Ok?
    ensures Merged([Concat(shards)], hd.kvHeads * hd.ratio, hd.kvHeads)
         == Merged(shards, hd.kvHeads * hd.ratio, hd.kvHeads)
  {
    var groups, whole := hd.kvHeads / |shards|, Concat(shards);
    DivideProduct(hd.kvHeads, 1, |shards|);
    MergedWholeGroups(hd, shards);
    WholeRows(hd, shards);
    assert hd.kvHeads / 1 == hd.kvHeads;
    MergedWholeGroups(hd, [whole]);
    ShardGroupsBlocks(shards, groups, hd);
    ShardGroupsBlocks([whole], hd.kvHeads, hd);
    assert Concat([whole]) == whole;
    SameGroups(ShardGroups(shards, groups), ShardGroups([whole], hd.kvHeads), hd.GroupRows());
  }

  lemma WholeRows<T>(hd: Heads, shards: seq<seq<T>>)
    requires hd.Valid() && shards != [] && hd.kvHeads % |shards| == 0
    requires ShardsOk(shards, hd.kvHeads / |shards|, hd)
    ensures ShardsOk([Concat(shards)], hd.kvHeads, hd)
  {
    var groups := hd.kvHeads / |shards|;
    ConcatLength(shards, groups * hd.GroupRows());
    ExactQuotient(hd.kvHeads, |shards|);
    MulAssoc(|shards|, groups, hd.GroupRows());
  }

  /** On shards of whole groups no check of the merger fails. */
  lemma MergedWholeGroups<T>(hd: Heads, shards: seq<seq<T>>)
    requires hd.Valid() && shards != [] && hd.kvHeads / |shards| > 0
    requires ShardsOk(shards, hd.kvHeads / |shards|, hd)
    ensures
      var gs := ShardGroups(shards, hd.kvHeads / |shards|);
      && EqualBlocks(gs, hd.QRows() + 2 * hd.headDim)
      && Merged(shards, hd.kvHeads * hd.ratio, hd.kvHeads) == Ok(SplitGroups(gs, hd.QRows(), hd.headDim))
  {
    HeadRatio(hd);
    SplitSizes(hd.kvHeads / |shards|, hd);
    ShardGroupsBlocks(shards, hd.kvHeads / |shards|, hd);
  }

  /** Equal blocks of one size are determined by their concatenation. */
  lemma {:induction false} SameGroups<T>(a: seq<seq<T>>, b: seq<seq<T>>, size: nat)
    requires EqualBlocks(a, size) && EqualBlocks(b, size) && size > 0
    requires Concat(a) == Concat(b)
    ensures a == b
  {
    if a != [] && b != [] {
      assert a[0] == Concat(a)[..size] && b[0] == Concat(b)[..size];
      assert Concat(a[1..]) == Concat(a)[size..] && Concat(b[1..]) == Concat(b)[size..];
      SameGroups(a[1..], b[1..], size);
    }
  }

  // ---- the condition is exact

  ghost predicate DistinctRows<T>(rows: seq<T>) {
    forall i, j :: 0 <= i < j < |rows| ==> rows[i] != rows[j]
  }

  lemma {:induction false} DistinctByCount<T>(rows: seq<T>, x: T)
    requires DistinctRows(rows)
    ensures multiset(rows)[x] <= 1
  {
    if rows != [] {
      var n := |rows| - 1;
      DistinctByCount(rows[..n], x);
      assert rows == rows[..n] + [rows[n]];
      if x == rows[n] {
        assert x !in rows[..n];
      }
    }
  }

  lemma DistinctPermuted<T>(rows: seq<T>, other: seq<T>)
    requires DistinctRows(rows) && multiset(rows) == multiset(other)
    ensures DistinctRows(other)
  {
    forall i, j | 0 <= i < j < |other| ensures other[i] != other[j] {
      assert other == other[..j] + other[j..];
      assert other[i] in other[..j] && other[j] in other[j..];
      DistinctByCount(rows, other[j]);
    }
  }

  lemma {:induction false} FusedRows<T>(qs: seq<seq<T>>, ks: seq<seq<T>>, vs: seq<seq<T>>)
    requires |qs| == |ks| == |vs|
    ensures multiset(Concat(FuseGroups(qs, ks, vs)))
         == multiset(Concat(qs)) + multiset(Concat(ks)) + multiset(Concat(vs))
  {
    if qs != [] {
      FusedRows(qs[1..], ks[1..], vs[1..]);
      assert FuseGroups(qs, ks, vs)[1..] == FuseGroups(qs[1..], ks[1..], vs[1..]);
      assert Concat(FuseGroups(qs, ks, vs)) == qs[0] + ks[0] + vs[0] + Concat(FuseGroups(qs, ks, vs)[1..]);
    }
  }

  /** The fused weight has the rows of q, k and v, each as often. */
  lemma FuseIsPermutation<T>(x: Qkv<T>, hd: Heads)
    requires hd.Valid() && Shaped(x, hd)
    ensures multiset(Fuse(x, hd)) == multiset(x.q + x.k + x.v)
    ensures DistinctRows(x.q + x.k + x.v) ==> DistinctRows(Fuse(x, hd))
  {
    Views(x, hd);
    FusedRows(ChunkBySize(x.q, hd.QRows()), ChunkBySize(x.k, hd.headDim), ChunkBySize(x.v, hd.headDim));
    if DistinctRows(x.q + x.k + x.v) {
      DistinctPermuted(x.q + x.k + x.v, Fuse(x, hd));
    }
  }

  /**
   Whether an equal cut into shards can be undone depends on the head counts
   alone: for weights with distinct rows the merger restores q, k and v if and
   only if the number of shards divides the number of key heads.
   */
  lemma MergesIffShardsDivideHeads<T>(x: Qkv<T>, hd: Heads, shards: seq<seq<T>>, size: nat)
    requires hd.Valid() && Shaped(x, hd) && DistinctRows(x.q + x.k + x.v)
    requires shards != [] && EqualBlocks(shards, size) && Concat(shards) == Fuse(x, hd)
    ensures Merged(shards, hd.kvHeads * hd.ratio, hd.kvHeads) == Ok(x) <==> hd.kvHeads % |shards| == 0
  {
    FuseIsPermutation(x, hd);
    if hd.kvHeads % |shards| == 0 {
      EqualCut(shards, size);
      ShardedRoundTrip(x, hd, shards);
    } else {
      MergedUnfolds(hd, shards);
      UnevenShardsFail(x, hd, shards, size, hd.kvHeads / |shards|);
    }
  }

  /** Three key heads on two ranks: every check passes, and the rows are wrong. */
  lemma ThreeHeadsOnTwoRanks<T>(x: Qkv<T>, first: seq<T>, second: seq<T>)
    requires Shaped(x, Heads(3, 2, 2)) && DistinctRows(x.q + x.k + x.v)
    requires |first| == |second| && first + second == Fuse(x, Heads(3, 2, 2))
    ensures Merged([first, second], 6, 3).Ok? && Merged([first, second], 6, 3) != Ok(x)
  {
    FusedLength(x, Heads(3, 2, 2));
    assert |first| == |second| == 12;
    ConcatTwo(first, second);
    MergesIffShardsDivideHeads(x, Heads(3, 2, 2), [first, second], 12);
    OneGroupEach(first, second);
    assert PieceSizes(12, 2, 1) == (6, 3);
  }

  lemma ConcatTwo<T>(first: seq<T>, second: seq<T>)
    ensures Concat([first, second]) == first + second
  {
    ConcatAppend([first], second);
    assert [first] + [second] == [first, second] && Concat([first]) == first;
  }

  lemma OneGroupEach<T>(first: seq<T>, second: seq<T>)
    requires first != [] && second != []
    ensures ShardGroups([first, second], 1) == [first, second]
  {
    var none: seq<seq<T>> := [];
    assert Chunk(first, 1) == [first] && Chunk(second, 1) == [second];
    assert [first][..0] == none && [first, second][..1] == [first];
    assert ShardGroups([first], 1) == ShardGroups(none, 1) + [first] == [first];
    assert ShardGroups([first, second], 1) == [first] + [second];
  }

  /** A weight whose row `i` is the number `i` is one of them. */
  lemma NumberedRowsAreMixedUp()
    ensures
      var x := Qkv(seq(12, i => i), seq(6, i => 12 + i), seq(6, i => 18 + i));
      var rows := Fuse(x, Heads(3, 2, 2));
      |rows| == 24 && Merged([rows[..12], rows[12..]], 6, 3).Ok? && Merged([rows[..12], rows[12..]], 6, 3) != Ok(x)
  {
    var x := Qkv(seq(12, i => i), seq(6, i => 12 + i), seq(6, i => 18 + i));
    var rows := Fuse(x, Heads(3, 2, 2));
    FusedLength(x, Heads(3, 2, 2));
    assert x.q + x.k + x.v == seq(24, i => i);
    ThreeHeadsOnTwoRanks(x, rows[..12], rows[12..]);
  }

  lemma EqualCut<T>(shards: seq<seq<T>>, size: nat)
    requires shards != [] && EqualBlocks(shards, size)
    ensures |Concat(shards)| == |shards| * size && |Concat(shards)| / |shards| == size
  {
    ConcatLength(shards, size);
    var n := |shards|;
    assert n * size == size * n;
    DivExact(size, n);
  }

  lemma MergedUnfolds<T>(hd: Heads, shards: seq<seq<T>>)
    requires hd.Valid() && shards != []
    ensures 0 <= hd.kvHeads / |shards|
    ensures Merged(shards, hd.kvHeads * hd.ratio, hd.kvHeads) == MergedGroups(shards, hd.ratio, hd.kvHeads / |shards|)
  {
    HeadRatio(hd);
    DivNat(hd.kvHeads, |shards|);
  }

  lemma UnevenShardsFail<T>(x: Qkv<T>, hd: Heads, shards: seq<seq<T>>, size: nat, groups: nat)
    requires hd.Valid() && Shaped(x, hd) && DistinctRows(Fuse(x, hd))
    requires shards != [] && EqualBlocks(shards, size) && Concat(shards) == Fuse(x, hd)
    requires groups == hd.kvHeads / |shards| && hd.kvHeads % |shards| != 0
    ensures MergedGroups(shards, hd.ratio, groups) != Ok(x)
  {
    var m := MergedGroups(shards, hd.ratio, groups);
    assert |shards[0]| == size;
    if m.Ok? {
      var (a', h') := PieceSizes(size, hd.ratio, groups);
      MergedHead(shards, hd.ratio, groups, a', h');
      ShardsProduct(x, hd, shards, size);
      UnevenPieces(hd, |shards|, size, shards[0], groups, a', h');
      ConcatHead(shards);
      WrongRows(x, hd, m.value, shards[0], a', h');
    }
  }

  /** Pieces that are too long end in rows of another kind. */
  lemma WrongRows<T>(x: Qkv<T>, hd: Heads, m: Qkv<T>, first: seq<T>, a: nat, h: nat)
    requires hd.Valid() && Shaped(x, hd) && DistinctRows(Fuse(x, hd)) && hd.kvHeads > 1
    requires first <= Fuse(x, hd) && a + 2 * h <= |first| && a <= |m.q| && h <= |m.k|
    requires forall i :: 0 <= i < a ==> m.q[i] == first[i]
    requires forall i :: 0 <= i < h ==> m.k[i] == first[a + i]
    requires a >= hd.QRows() && h >= hd.headDim && (a > hd.QRows() || h > hd.headDim)
    ensures m != x
  {
    var q, d, rows := hd.QRows(), hd.headDim, Fuse(x, hd);
    NextGroupDiffers(x, hd, q, d);
    if a > q {
      assert m.q[q] == first[q] == rows[q];
    } else {
      assert m.k[d] == first[a + d] == rows[a + d];
    }
  }

  /** After the first group's queries comes a key, after its key a value: not the rows that should follow. */
  lemma NextGroupDiffers<T>(x: Qkv<T>, hd: Heads, a: nat, h: nat)
    requires hd.Valid() && Shaped(x, hd) && DistinctRows(Fuse(x, hd)) && hd.kvHeads > 1
    requires a == hd.QRows() && h == hd.headDim
    ensures a + 2 * h + a < |Fuse(x, hd)|
    ensures |x.q| > a ==> x.q[a] != Fuse(x, hd)[a]
    ensures |x.k| > h ==> x.k[h] != Fuse(x, hd)[a + h]
  {
    FusedGroup(x, hd, a, h, 1);
    assert a > 0 && 1 * a == a && 1 * h == h && 1 * (a + 2 * h) == a + 2 * h;
    SecondGroup(Fuse(x, hd), x, a, h);
  }

  lemma SecondGroup<T>(rows: seq<T>, x: Qkv<T>, a: nat, h: nat)
    requires a > 0 && h > 0 && DistinctRows(rows) && InRange(rows, a + 2 * h, a + 2 * h)
    requires InRange(x.q, a, a) && InRange(x.k, h, h) && InRange(x.v, h, h)
    requires Slice(rows, a + 2 * h, a + 2 * h) == Slice(x.q, a, a) + Slice(x.k, h, h) + Slice(x.v, h, h)
    ensures x.q[a] != rows[a] && x.k[h] != rows[a + h]
  {
    var group := Slice(rows, a + 2 * h, a + 2 * h);
    assert rows[a + 2 * h] == group[0] == x.q[a];
    assert rows[a + 2 * h + a] == group[a] == x.k[h];
  }

  /** The first rows of the merged queries and keys come from the first shard. */
  lemma MergedHead<T>(shards: seq<seq<T>>, ratio: nat, groups: nat, a: nat, h: nat)
    requires shards != [] && MergedGroups(shards, ratio, groups).Ok?
    requires (a, h) == PieceSizes(|shards[0]|, ratio, groups)
    ensures
      var m := MergedGroups(shards, ratio, groups).value;
      && a + 2 * h <= |shards[0]| && |Chunk(shards[0], groups)[0]| == a + 2 * h
      && a <= |m.q| && h <= |m.k|
      && (forall i :: 0 <= i < a ==> m.q[i] == shards[0][i])
      && (forall i :: 0 <= i < h ==> m.k[i] == shards[0][a + i])
  {
    var gs := ShardGroups(shards, groups);
    assert MergedGroups(shards, ratio, groups).value == SplitGroups(gs, a, h);
    FirstGroup(shards, groups);
    SplitHead(gs, a, h);
    assert gs[0] == shards[0][..|gs[0]|];
  }

  lemma SplitHead<T>(gs: seq<seq<T>>, a: nat, h: nat)
    requires gs != [] && EqualBlocks(gs, a + 2 * h)
    ensures
      var m := SplitGroups(gs, a, h);
      && |gs[0]| == a + 2 * h && a <= |m.q| && h <= |m.k|
      && (forall i :: 0 <= i < a ==> m.q[i] == gs[0][i])
      && (forall i :: 0 <= i < h ==> m.k[i] == gs[0][a + i])
  {
    PieceHead(gs, 0, a);
    PieceHead(gs, a, a + h);
  }

  lemma FirstGroup<T>(shards: seq<seq<T>>, groups: nat)
    requires shards != [] && groups > 0
    ensures Chunk(shards[0], groups) != [] && ShardGroups(shards, groups) != []
    ensures ShardGroups(shards, groups)[0] == Chunk(shards[0], groups)[0] <= shards[0]
  {
    FirstChunk(shards[0], groups);
    ShardGroupsStep(shards, 0, groups);
    assert ShardGroups(shards[..0], groups) == [];
    ShardGroupsSuffix(shards, 1, groups);
  }

  lemma PieceHead<T>(gs: seq<seq<T>>, lo: nat, hi: nat)
    requires gs != [] && lo <= hi && forall g :: 0 <= g < |gs| ==> hi <= |gs[g]|
    ensures hi - lo <= |Concat(Pieces(gs, lo, hi))|
    ensures forall i :: 0 <= i < hi - lo ==> Concat(Pieces(gs, lo, hi))[i] == gs[0][lo + i]
  {
    var ps := Pieces(gs, lo, hi);
    assert ps[0] == gs[0][lo..hi] && Concat(ps) == ps[0] + Concat(ps[1..]);
  }

  /** The first chunk is a prefix, and no chunk is longer. */
  lemma FirstChunk<T>(rows: seq<T>, n: nat)
    requires n > 0
    ensures Chunk(rows, n) != [] && Chunk(rows, n)[0] <= rows
    ensures |Chunk(rows, n)[0]| * n >= |rows|
  {
    if rows != [] {
      CeilDivPositive(|rows|, n);
      FirstPiece(rows, CeilDiv(|rows|, n));
      PieceCovers(|rows|, n, |Chunk(rows, n)[0]|);
    }
  }

  lemma PieceCovers(m: nat, n: nat, piece: nat)
    requires n > 0 && piece == if m <= CeilDiv(m, n) then m else CeilDiv(m, n)
    ensures piece * n >= m
  {
    if piece == m {
      MulMonotone(1, n, m);
      assert n * m == m * n;
    } else {
      CeilDivIsLeast(m, n, piece);
    }
  }

  lemma FirstPiece<T>(rows: seq<T>, size: nat)
    requires size > 0
    ensures ChunkBySize(rows, size) != [] && ChunkBySize(rows, size)[0] <= rows
    ensures |ChunkBySize(rows, size)[0]| == if |rows| <= size then |rows| else size
  {
  }

  /** Shards of more than `groups` groups: the merger takes too many rows for a query or key piece. */
  lemma ShardsProduct<T>(x: Qkv<T>, hd: Heads, shards: seq<seq<T>>, size: nat)
    requires hd.Valid() && Shaped(x, hd)
    requires shards != [] && EqualBlocks(shards, size) && Concat(shards) == Fuse(x, hd)
    ensures |shards| * size == hd.kvHeads * hd.GroupRows()
  {
    FusedLength(x, hd);
    EqualCut(shards, size);
  }

  lemma UnevenPieces<T>(hd: Heads, n: nat, size: nat, first: seq<T>, groups: nat, a: nat, h: nat)
    requires hd.Valid() && n > 0 && groups > 0 && n * size == hd.kvHeads * hd.GroupRows() && |first| == size
    requires groups == hd.kvHeads / n && hd.kvHeads % n != 0
    requires size % (hd.ratio + 2) == 0 && (a, h) == PieceSizes(size, hd.ratio, groups)
    requires |Chunk(first, groups)[0]| == a + 2 * h
    ensures a >= hd.QRows() && h >= hd.headDim && (a > hd.QRows() || h > hd.headDim)
    ensures hd.kvHeads > 1
  {
    FirstChunk(first, groups);
    UnevenSizes(hd, n, size, groups, a, h);
  }

  lemma UnevenSizes(hd: Heads, n: nat, size: nat, groups: nat, a: nat, h: nat)
    requires hd.Valid() && n > 0 && groups > 0 && n * size == hd.kvHeads * hd.GroupRows()
    requires groups == hd.kvHeads / n && hd.kvHeads % n != 0
    requires size % (hd.ratio + 2) == 0 && (a, h) == PieceSizes(size, hd.ratio, groups)
    requires (a + 2 * h) * groups >= size
    ensures a >= hd.QRows() && h >= hd.headDim && (a > hd.QRows() || h > hd.headDim)
    ensures hd.kvHeads > 1
  {
    var g := hd.GroupRows();
    MoreThan(n, size, hd.kvHeads, g, groups);
    PiecesAtLeast(size, hd, groups);
    assert g * groups == groups * g;
    CancelFactor(a + 2 * h, g, groups);
  }

  lemma PiecesAtLeast(size: nat, hd: Heads, groups: nat)
    requires hd.Valid() && groups > 0 && size > groups * hd.GroupRows() && size % (hd.ratio + 2) == 0
    ensures
      var (a, h) := PieceSizes(size, hd.ratio, groups);
      a >= hd.QRows() && h >= hd.headDim
  {
    var kvSize, r, h := size / (hd.ratio + 2), hd.ratio, hd.headDim;
    GroupRowsProduct(groups, r, h);
    ExactQuotient(size, r + 2);
    assert (r + 2) * kvSize == kvSize * (r + 2);
    CancelFactor(kvSize, groups * h, r + 2);
    DivideAtLeast(kvSize, h, groups);
    MulMonotone(groups * h, kvSize, r);
    TripleProduct(groups, h, r);
    assert r * h * groups == groups * (r * h);
    DivideAtLeast(kvSize * r, r * h, groups);
  }

  lemma MoreThan(n: nat, size: nat, heads: nat, g: nat, groups: nat)
    requires n > 0 && g > 0 && groups > 0
    requires n * size == heads * g && groups == heads / n && heads % n != 0
    ensures size > groups * g && heads > 1
  {
    assert heads >= groups * n + 1;
    MulMonotone(groups * n + 1, heads, g);
    assert (groups * n + 1) * g == groups * n * g + g;
    TripleProduct(groups, n, g);
    assert g * n * groups == n * (groups * g);
    if size <= groups * g {
      MulMonotone(size, groups * g, n);
    }
  }

  // ---- any shards

  /** Every chunk of the shard has the rows of one group. */
  predicate EvenShard<T>(shard: seq<T>, groups: nat, rows: nat) {
    groups > 0 && EqualBlocks(Chunk(shard, groups), rows)
  }

  predicate EvenShards<T>(shards: seq<seq<T>>, groups: nat, rows: nat) {
    forall t :: 0 <= t < |shards| ==> EvenShard(shards[t], groups, rows)
  }

  lemma {:induction false} EvenGroups<T>(shards: seq<seq<T>>, groups: nat, rows: nat)
    requires groups > 0
    ensures EqualBlocks(ShardGroups(shards, groups), rows) <==> EvenShards(shards, groups, rows)
  {
    if shards != [] {
      var init, last := shards[..|shards| - 1], shards[|shards| - 1];
      EvenGroups(init, groups, rows);
      EvenInit(shards, init, last, groups, rows);
      EqualSum(ShardGroups(init, groups), Chunk(last, groups), rows);
    }
  }

  lemma EvenInit<T>(shards: seq<seq<T>>, init: seq<seq<T>>, last: seq<T>, groups: nat, rows: nat)
    requires shards == init + [last]
    ensures EvenShards(shards, groups, rows) <==> EvenShards(init, groups, rows) && EvenShard(last, groups, rows)
  {
    assert shards[|init|] == last && forall t :: 0 <= t < |init| ==> shards[t] == init[t];
  }

  lemma EqualSum<T>(a: seq<seq<T>>, b: seq<seq<T>>, rows: nat)
    ensures EqualBlocks(a + b, rows) <==> EqualBlocks(a, rows) && EqualBlocks(b, rows)
  {
    if EqualBlocks(a + b, rows) {
      assert forall i :: 0 <= i < |a| ==> (a + b)[i] == a[i];
      assert forall i :: 0 <= i < |b| ==> (a + b)[|a| + i] == b[i];
    }
  }

  /** Which check of the merger fails first, for any head counts and any shards. */
  lemma MergeErrors<T>(shards: seq<seq<T>>, heads: nat, kvHeads: nat)
    ensures kvHeads == 0 ==> Merged(shards, heads, kvHeads) == Err(DivisionByZero)
    ensures kvHeads > 0 && heads % kvHeads != 0 ==> Merged(shards, heads, kvHeads) == Err(HeadCountMismatch)
    ensures kvHeads > 0 && heads % kvHeads == 0 && shards == [] ==> Merged(shards, heads, kvHeads) == Err(NoShards)
    ensures kvHeads > 0 && heads % kvHeads == 0 && shards != [] ==>
              var ratio, groups, rows := heads / kvHeads, kvHeads / |shards|, |shards[0]|;
              && 0 <= ratio && 0 <= groups
              && (rows % (ratio + 2) != 0 ==> Merged(shards, heads, kvHeads) == Err(NotDivisible))
              && (rows % (ratio + 2) == 0 && groups == 0 ==> Merged(shards, heads, kvHeads) == Err(NoChunks))
              && (rows % (ratio + 2) == 0 && groups > 0 ==>
                    var each := rows / (ratio + 2);
                    && 0 <= each && 0 <= each * ratio / groups && 0 <= each / groups
                    && (EvenShards(shards, groups, each * ratio / groups + 2 * (each / groups))
                        <==> Merged(shards, heads, kvHeads).Ok?)
                    && (Merged(shards, heads, kvHeads).Err? ==> Merged(shards, heads, kvHeads) == Err(SplitMismatch)))
  {
    if kvHeads > 0 && shards != [] {
      DivNat(heads, kvHeads);
      DivNat(kvHeads, |shards|);
      var ratio: nat, groups: nat, rows := heads / kvHeads, kvHeads / |shards|, |shards[0]|;
      if rows % (ratio + 2) == 0 && groups > 0 {
        var (a, h) := PieceSizes(rows, ratio, groups);
        DivNat(rows, ratio + 2);
        EvenGroups(shards, groups, a + 2 * h);
      }
    }
  }

  lemma {:induction false} ChunkBySizeConcat<T>(rows: seq<T>, size: nat)
    requires size > 0
    ensures Concat(ChunkBySize(rows, size)) == rows
    decreases |rows|
  {
    if |rows| > size {
      ChunkBySizeConcat(rows[size..], size);
      assert rows[..size] + rows[size..] == rows;
    } else {
      assert Concat([rows]) == rows;
    }
  }

  lemma {:induction false} ConcatOfNones<T>(nones: seq<seq<T>>)
    requires forall i :: 0 <= i < |nones| ==> nones[i] == []
    ensures Concat(nones) == []
  {
    if nones != [] {
      ConcatOfNones(nones[1..]);
    }
  }

  lemma {:induction false} ShardGroupsConcat<T>(shards: seq<seq<T>>, groups: nat)
    requires groups > 0
    ensures Concat(ShardGroups(shards, groups)) == Concat(shards)
  {
    if shards != [] {
      var init, last := shards[..|shards| - 1], shards[|shards| - 1];
      ShardGroupsConcat(init, groups);
      ConcatSum(ShardGroups(init, groups), Chunk(last, groups));
      ConcatAppend(init, last);
      assert shards == init + [last];
      if last == [] {
        ConcatOfNones(Chunk(last, groups));
      } else {
        CeilDivPositive(|last|, groups);
        ChunkBySizeConcat(last, CeilDiv(|last|, groups));
      }
    }
  }

  /**
   Whatever the shards, the merger takes them apart and loses nothing: they are
   pieces of `a` query, `h` key and `h` value rows in turn, and the result is
   all query pieces, all key pieces and all value pieces, each in order.
   */
  lemma MergedTakesApart<T>(shards: seq<seq<T>>, heads: nat, kvHeads: nat)
    returns (qs: seq<seq<T>>, ks: seq<seq<T>>, vs: seq<seq<T>>, a: nat, h: nat)
    requires Merged(shards, heads, kvHeads).Ok?
    ensures |qs| == |ks| == |vs| && EqualBlocks(qs, a) && EqualBlocks(ks, h) && EqualBlocks(vs, h)
    ensures Concat(FuseGroups(qs, ks, vs)) == Concat(shards)
    ensures Merged(shards, heads, kvHeads) == Ok(Qkv(Concat(qs), Concat(ks), Concat(vs)))
    ensures kvHeads > 0 && shards != [] && 0 < kvHeads / |shards|
    ensures a == |shards[0]| / (heads / kvHeads + 2) * (heads / kvHeads) / (kvHeads / |shards|)
    ensures h == |shards[0]| / (heads / kvHeads + 2) / (kvHeads / |shards|)
  {
    DivNat(heads, kvHeads);
    DivNat(kvHeads, |shards|);
    var ratio: nat, groups: nat := heads / kvHeads, kvHeads / |shards|;
    var sizes := PieceSizes(|shards[0]|, ratio, groups);
    a, h := sizes.0, sizes.1;
    qs, ks, vs := GroupsTakenApart(shards, ratio, groups, a, h);
  }

  lemma GroupsTakenApart<T>(shards: seq<seq<T>>, ratio: nat, groups: nat, a: nat, h: nat)
    returns (qs: seq<seq<T>>, ks: seq<seq<T>>, vs: seq<seq<T>>)
    requires shards != [] && groups > 0 && MergedGroups(shards, ratio, groups).Ok?
    requires (a, h) == PieceSizes(|shards[0]|, ratio, groups)
    ensures |qs| == |ks| == |vs| && EqualBlocks(qs, a) && EqualBlocks(ks, h) && EqualBlocks(vs, h)
    ensures Concat(FuseGroups(qs, ks, vs)) == Concat(shards)
    ensures MergedGroups(shards, ratio, groups) == Ok(Qkv(Concat(qs), Concat(ks), Concat(vs)))
  {
    qs, ks, vs := TakeApart(ShardGroups(shards, groups), a, h);
    ShardGroupsConcat(shards, groups);
  }

  /** Groups and the three kinds of pieces that they consist of. */
  lemma TakeApart<T>(gs: seq<seq<T>>, a: nat, h: nat) returns (qs: seq<seq<T>>, ks: seq<seq<T>>, vs: seq<seq<T>>)
    requires EqualBlocks(gs, a + 2 * h)
    ensures |qs| == |ks| == |vs| && EqualBlocks(qs, a) && EqualBlocks(ks, h) && EqualBlocks(vs, h)
    ensures FuseGroups(qs, ks, vs) == gs && SplitGroups(gs, a, h) == Qkv(Concat(qs), Concat(ks), Concat(vs))
  {
    qs, ks, vs := Pieces(gs, 0, a), Pieces(gs, a, a + h), Pieces(gs, a + h, a + 2 * h);
    PiecesFuse(gs, a, h);
    PieceLengths(gs, 0, a);
    PieceLengths(gs, a, a + h);
    PieceLengths(gs, a + h, a + 2 * h);
  }

  lemma PieceLengths<T>(gs: seq<seq<T>>, lo: nat, hi: nat)
    requires lo <= hi && forall g :: 0 <= g < |gs| ==> hi <= |gs[g]|
    ensures |Pieces(gs, lo, hi)| == |gs| && EqualBlocks(Pieces(gs, lo, hi), hi - lo)
  {
  }

  lemma PiecesFuse<T>(gs: seq<seq<T>>, a: nat, h: nat)
    requires EqualBlocks(gs, a + 2 * h)
    ensures FuseGroups(Pieces(gs, 0, a), Pieces(gs, a, a + h), Pieces(gs, a + h, a + 2 * h)) == gs
  {
    var fused := FuseGroups(Pieces(gs, 0, a), Pieces(gs, a, a + h), Pieces(gs, a + h, a + 2 * h));
    forall g | 0 <= g < |gs| ensures fused[g] == gs[g] {
      assert gs[g][0..a] + gs[g][a..a + h] + gs[g][a + h..a + 2 * h] == gs[g];
    }
  }

  // ---- gate and up projections

  /**
   Both halves of every shard, each concatenated; unpacking fails on a shard
   of one row (and `torch.cat` on no shards).
   */
  function MergedGateUp<T>(tpData: seq<seq<T>>): Option<(seq<T>, seq<T>)> {
    if tpData == [] then Some(([], []))
    else
      var init, last := MergedGateUp(tpData[..|tpData| - 1]), Chunk(tpData[|tpData| - 1], 2);
      if init.None? || |last| != 2 then None else Some((init.value.0 + last[0], init.value.1 + last[1]))
  }

  method MergeGateUp<T>(tpData: seq<seq<T>>) returns (r: Option<(seq<T>, seq<T>)>)
    ensures r == if tpData == [] then None else MergedGateUp(tpData)
  {
    if tpData == [] {
      return None;
    }
    var gates: seq<seq<T>>, ups: seq<seq<T>> := [], [];
    for t := 0 to |tpData|
      invariant MergedGateUp(tpData[..t]) == Some((Concat(gates), Concat(ups)))
    {
      var halves := Chunk(tpData[t], 2);
      GateUpStep(tpData, t);
      if |halves| != 2 {
        return None;
      }
      ConcatAppend(gates, halves[0]);
      ConcatAppend(ups, halves[1]);
      gates, ups := gates + [halves[0]], ups + [halves[1]];
    }
    assert tpData[..|tpData|] == tpData;
    return Some((Concat(gates), Concat(ups)));
  }

  lemma GateUpStep<T>(tpData: seq<seq<T>>, t: nat)
    requires t < |tpData| && MergedGateUp(tpData[..t]).Some?
    ensures
      var init, last := MergedGateUp(tpData[..t]).value, Chunk(tpData[t], 2);
      if |last| != 2 then MergedGateUp(tpData) == None
      else MergedGateUp(tpData[..t + 1]) == Some((init.0 + last[0], init.1 + last[1]))
  {
    var upTo := tpData[..t + 1];
    assert upTo[..|upTo| - 1] == tpData[..t] && upTo[|upTo| - 1] == tpData[t];
    if |Chunk(tpData[t], 2)| != 2 {
      GateUpFails(tpData, t + 1);
    }
  }

  lemma {:induction false} GateUpFails<T>(tpData: seq<seq<T>>, t: nat)
    requires t <= |tpData| && MergedGateUp(tpData[..t]) == None
    ensures MergedGateUp(tpData) == None
  {
    if t == |tpData| {
      assert tpData[..t] == tpData;
    } else {
      var init := tpData[..|tpData| - 1];
      assert init[..t] == tpData[..t];
      GateUpFails(init, t);
    }
  }

  /** What each rank stores: its rows of the gate projection on top of its rows of the up projection. */
  function Stacked<T>(gates: seq<seq<T>>, ups: seq<seq<T>>): seq<seq<T>>
    requires |gates| == |ups|
  {
    seq(|gates|, t requires 0 <= t < |gates| => gates[t] + ups[t])
  }

  /** Every rank stores as many gate rows as up rows, or one more; a single row cannot be cut in two. */
  predicate Halvable<T>(gates: seq<seq<T>>, ups: seq<seq<T>>) {
    |gates| == |ups| && forall t :: 0 <= t < |gates| ==>
      (|gates[t]| == |ups[t]| || |gates[t]| == |ups[t]| + 1) && |gates[t]| + |ups[t]| != 1
  }

  lemma {:induction false} GateUpRoundTrip<T>(gates: seq<seq<T>>, ups: seq<seq<T>>)
    requires Halvable(gates, ups)
    ensures MergedGateUp(Stacked(gates, ups)) == Some((Concat(gates), Concat(ups)))
  {
    if gates != [] {
      var n := |gates| - 1;
      GateUpRoundTrip(gates[..n], ups[..n]);
      assert Stacked(gates, ups)[..n] == Stacked(gates[..n], ups[..n]);
      HalvesOfStack(gates[n], ups[n]);
      assert gates == gates[..n] + [gates[n]] && ups == ups[..n] + [ups[n]];
      ConcatAppend(gates[..n], gates[n]);
      ConcatAppend(ups[..n], ups[n]);
    }
  }

  lemma HalvesOfStack<T>(gate: seq<T>, up: seq<T>)
    requires (|gate| == |up| || |gate| == |up| + 1) && |gate| + |up| != 1
    ensures Chunk(gate + up, 2) == [gate, up]
  {
    var n := |gate|;
    if n == 0 {
      assert gate + up == [];
      assert Chunk(gate + up, 2) == [[], []];
    } else {
      assert CeilDiv(|gate + up|, 2) == n && ChunkBySize(up, n) == [up];
      assert (gate + up)[..|gate|] == gate && (gate + up)[|gate|..] == up;
    }
  }

  /** Merging the projections fails exactly on a shard of a single row, which has no second half. */
  lemma {:induction false} GateUpFailsIff<T>(tpData: seq<seq<T>>)
    ensures MergedGateUp(tpData) == None <==> exists t :: 0 <= t < |tpData| && |tpData[t]| == 1
  {
    if tpData != [] {
      var n := |tpData| - 1;
      GateUpFailsIff(tpData[..n]);
      TwoHalvesIff(tpData[n]);
      if exists t :: 0 <= t < n && |tpData[..n][t]| == 1 {
        var t :| 0 <= t < n && |tpData[..n][t]| == 1;
        assert |tpData[t]| == 1;
      }
      forall t | 0 <= t < n ensures tpData[t] == tpData[..n][t] {
      }
    }
  }

  lemma TwoHalvesIff<T>(rows: seq<T>)
    ensures |Chunk(rows, 2)| == 2 <==> |rows| != 1
  {
    if |rows| > 0 {
      var n := CeilDiv(|rows|, 2);
      assert 0 < n && (|rows| > n <==> |rows| > 1) && |rows| - n <= n;
      if |rows| > n {
        assert ChunkBySize(rows[n..], n) == [rows[n..]];
      }
    }
  }
}
