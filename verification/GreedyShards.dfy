/**
 Greedy sharding by size: the buckets that a rank hands to the checkpoint
 service, and the files that a merged model is saved in. Unlike the engines'
 packing, a tensor larger than the limit gets a shard of its own.
 */
module GreedyShards {
  import opened Arithmetic
  import opened Common
  import opened OrderedDict
  import opened OutputKeys
  import opened Packing

  datatype Error = BadBucketBytes | DivisionByZero

  /** The shards that the loop emits when `cur` is filled and `ws` is still to come. */
  function Greedy(cur: seq<Weight>, ws: seq<Weight>, limit: int): seq<seq<Weight>>
    decreases |ws|
  {
    if ws == [] then (if cur == [] then [] else [cur])
    else if Bytes(cur) + |ws[0].value| > limit && cur != [] then [cur] + Greedy([ws[0]], ws[1..], limit)
    else Greedy(cur + [ws[0]], ws[1..], limit)
  }

  /** The tensors whose position is congruent to the rank. */
  function Mine(ws: seq<Weight>, worldSize: nat, rank: int): seq<Weight>
    requires worldSize > 0
  {
    if ws == [] then []
    else
      var n, init := |ws| - 1, Mine(ws[..|ws| - 1], worldSize, rank);
      if n % worldSize == rank then init + [ws[n]] else init
  }

  /** The dict that each group of assignments leaves. */
  function Dicts(groups: seq<seq<Weight>>): seq<Dict<string, seq<Byte>>> {
    seq(|groups|, i requires 0 <= i < |groups| => FromItems(groups[i]))
  }

  lemma DictsAppend(groups: seq<seq<Weight>>, group: seq<Weight>)
    ensures Dicts(groups + [group]) == Dicts(groups) + [FromItems(group)]
    ensures Dicts([]) == []
  {
  }

  // ---- the two loops

  /** The loops' state: the emitted shards and the current one, of what will be emitted in all. */
  ghost predicate Emitting(shards: seq<seq<Weight>>, cur: seq<Weight>, ws: seq<Weight>,
                           limit: int, all: seq<seq<Weight>>) {
    shards + Greedy(cur, ws, limit) == all
  }

  lemma EmitStep(shards: seq<seq<Weight>>, cur: seq<Weight>, ws: seq<Weight>, limit: int, all: seq<seq<Weight>>)
    requires Emitting(shards, cur, ws, limit, all) && ws != []
    ensures
      if Bytes(cur) + |ws[0].value| > limit && cur != [] then Emitting(shards + [cur], [ws[0]], ws[1..], limit, all)
      else Emitting(shards, cur + [ws[0]], ws[1..], limit, all)
  {
    if Bytes(cur) + |ws[0].value| > limit && cur != [] {
      assert shards + ([cur] + Greedy([ws[0]], ws[1..], limit)) == shards + [cur] + Greedy([ws[0]], ws[1..], limit);
    }
  }

  /** The model saver's loop over the sorted keys. */
  method MakeShards(ws: seq<Weight>, limit: nat) returns (shards: seq<seq<Weight>>)
    ensures shards == Greedy([], ws, limit)
  {
    shards := [];
    var cur: seq<Weight>, curSize := [], 0;
    assert [] + Greedy([], ws, limit) == Greedy([], ws, limit);
    for i := 0 to |ws|
      invariant curSize == Bytes(cur)
      invariant Emitting(shards, cur, ws[i..], limit, Greedy([], ws, limit))
    {
      var size := |ws[i].value|;
      EmitStep(shards, cur, ws[i..], limit, Greedy([], ws, limit));
      assert ws[i..][0] == ws[i] && ws[i..][1..] == ws[i + 1..];
      if curSize + size > limit && cur != [] {
        shards := shards + [cur];
        cur, curSize := [], 0;
      }
      BytesAppend(cur, ws[i]);
      assert [] + [ws[i]] == [ws[i]];
      cur, curSize := cur + [ws[i]], curSize + size;
    }
    if cur != [] {
      shards := shards + [cur];
    }
  }

  /** `ckpt_get_named_tensor_buckets`: the dicts that the generator yields on one rank. */
  method GetNamedTensorBuckets(ws: seq<Weight>, bucketBytes: int, worldSize: nat, rank: int)
    returns (r: Result<seq<Dict<string, seq<Byte>>>, Error>)
    ensures bucketBytes <= 0 ==> r == Err(BadBucketBytes)
    ensures bucketBytes > 0 && worldSize == 0 ==> r == if ws == [] then Ok([]) else Err(DivisionByZero)
    ensures bucketBytes > 0 && worldSize > 0 ==> r == Ok(Dicts(Greedy([], Mine(ws, worldSize, rank), bucketBytes)))
  {
    if bucketBytes <= 0 {
      return Err(BadBucketBytes);
    }
    if worldSize == 0 && ws != [] {
      return Err(DivisionByZero);
    }
    var buckets: seq<Dict<string, seq<Byte>>> := [];
    var cur: Dict<string, seq<Byte>>, curSize := [], 0;
    ghost var groups: seq<seq<Weight>>, group: seq<Weight> := [], [];
    NoneYielded(bucketBytes);
    for i := 0 to |ws|
      invariant Building(buckets, cur, curSize, groups, group)
      invariant i == 0 ==> groups == [] && group == []
      invariant worldSize > 0 ==> Yielded(groups, group, Mine(ws[..i], worldSize, rank), bucketBytes)
    {
      assert ws[..i + 1][..i] == ws[..i];
      if i % worldSize == rank {
        buckets, cur, curSize, groups, group :=
          AddTensor(buckets, cur, curSize, ws[i], bucketBytes, groups, group, Mine(ws[..i], worldSize, rank));
      }
    }
    assert ws[..|ws|] == ws;
    if worldSize > 0 {
      YieldAll(groups, group, Mine(ws, worldSize, rank), bucketBytes);
    }
    EmptyDict(group);
    DictsAppend(groups, group);
    if cur != [] {
      buckets := buckets + [cur];
    }
    return Ok(buckets);
  }

  /** The yielded buckets and the current one are the dicts of groups of assignments. */
  ghost predicate Building(buckets: seq<Dict<string, seq<Byte>>>, cur: Dict<string, seq<Byte>>, curSize: nat,
                           groups: seq<seq<Weight>>, group: seq<Weight>) {
    curSize == Bytes(group) && cur == FromItems(group) && buckets == Dicts(groups)
  }

  /** One tensor of this rank: yield the current bucket if the tensor does not fit, then store it. */
  method AddTensor(buckets: seq<Dict<string, seq<Byte>>>, cur: Dict<string, seq<Byte>>, curSize: nat,
                   w: Weight, limit: int,
                   ghost groups: seq<seq<Weight>>, ghost group: seq<Weight>, ghost done: seq<Weight>)
    returns (buckets': seq<Dict<string, seq<Byte>>>, cur': Dict<string, seq<Byte>>, curSize': nat,
             ghost groups': seq<seq<Weight>>, ghost group': seq<Weight>)
    requires Building(buckets, cur, curSize, groups, group) && Yielded(groups, group, done, limit)
    ensures Building(buckets', cur', curSize', groups', group') && Yielded(groups', group', done + [w], limit)
  {
    buckets', cur', curSize', groups', group' := buckets, cur, curSize, groups, group;
    var size := |w.value|;
    YieldStep(groups, group, done, w, limit);
    EmptyDict(group);
    if curSize + size > limit {
      if cur != [] {
        DictsAppend(groups, group);
        buckets', cur', curSize' := buckets + [cur], [], 0;
        groups', group' := groups + [group], [];
      }
    }
    BytesAppend(group', w);
    assert (group' + [w])[..|group'|] == group';
    cur', curSize' := Put(cur', w.key, w.value), curSize' + size;
    group' := group' + [w];
  }

  /** The groups and the current one after the assignments `done`, whatever follows. */
  ghost predicate Yielded(groups: seq<seq<Weight>>, group: seq<Weight>, done: seq<Weight>, limit: int) {
    forall ws: seq<Weight> :: Follows(groups, group, done, limit, ws)
  }

  ghost predicate Follows(groups: seq<seq<Weight>>, group: seq<Weight>, done: seq<Weight>,
                          limit: int, ws: seq<Weight>) {
    Greedy([], done + ws, limit) == groups + Greedy(group, ws, limit)
  }

  lemma NoneYielded(limit: int)
    ensures Yielded([], [], [], limit)
  {
    forall ws: seq<Weight> ensures Follows([], [], [], limit, ws) {
      assert [] + ws == ws && [] + Greedy([], ws, limit) == Greedy([], ws, limit);
    }
  }

  /** Whether the tensor `w` opens a new bucket. */
  predicate Flushes(group: seq<Weight>, w: Weight, limit: int) {
    Bytes(group) + |w.value| > limit && group != []
  }

  lemma YieldStep(groups: seq<seq<Weight>>, group: seq<Weight>, done: seq<Weight>, w: Weight, limit: int)
    requires Yielded(groups, group, done, limit)
    ensures Flushes(group, w, limit) ==> Yielded(groups + [group], [] + [w], done + [w], limit)
    ensures !Flushes(group, w, limit) ==> Yielded(groups, group + [w], done + [w], limit)
  {
    forall ws: seq<Weight>
      ensures Flushes(group, w, limit) ==> Follows(groups + [group], [] + [w], done + [w], limit, ws)
      ensures !Flushes(group, w, limit) ==> Follows(groups, group + [w], done + [w], limit, ws)
    {
      assert Follows(groups, group, done, limit, [w] + ws);
      assert done + ([w] + ws) == done + [w] + ws;
      assert ([w] + ws)[1..] == ws && [] + [w] == [w];
      if Flushes(group, w, limit) {
        assert groups + ([group] + Greedy([w], ws, limit)) == groups + [group] + Greedy([w], ws, limit);
      }
    }
  }

  lemma YieldAll(groups: seq<seq<Weight>>, group: seq<Weight>, done: seq<Weight>, limit: int)
    requires Yielded(groups, group, done, limit)
    ensures Greedy([], done, limit) == if group == [] then groups else groups + [group]
  {
    assert Follows(groups, group, done, limit, []);
    assert done + [] == done && groups + [] == groups;
  }

  lemma EmptyDict(group: seq<Weight>)
    ensures FromItems(group) == [] <==> group == []
  {
    if group != [] {
      var last := group[|group| - 1];
      PutKeys(FromItems(group[..|group| - 1]), last.key, last.value, last.key);
    }
  }

  // ---- what greedy shards are

  /** A shard in itself: not empty, and within the limit unless it holds a single tensor. */
  predicate ShardOk(s: seq<Weight>, limit: int) {
    s != [] && (|s| == 1 || Bytes(s) <= limit)
  }

  predicate ShardsOk(shards: seq<seq<Weight>>, limit: int) {
    forall i :: 0 <= i < |shards| ==> ShardOk(shards[i], limit)
  }

  /** No shard could have taken the first tensor of the next one. */
  predicate Tight(shards: seq<seq<Weight>>, limit: int)
    requires ShardsOk(shards, limit)
  {
    forall i :: 0 < i < |shards| ==> Bytes(shards[i - 1]) + |shards[i][0].value| > limit
  }

  lemma {:induction false} GreedyIsTight(cur: seq<Weight>, ws: seq<Weight>, limit: int)
    requires cur == [] || ShardOk(cur, limit)
    ensures
      var r := Greedy(cur, ws, limit);
      && Concat(r) == cur + ws && ShardsOk(r, limit) && Tight(r, limit)
      && (cur + ws != [] ==> r != [] && cur <= r[0])
    decreases |ws|
  {
    if ws == [] {
      assert Concat([cur]) == cur + [];
    } else if Bytes(cur) + |ws[0].value| > limit && cur != [] {
      GreedyIsTight([ws[0]], ws[1..], limit);
      var rest := Greedy([ws[0]], ws[1..], limit);
      assert ([cur] + rest)[1..] == rest && [ws[0]] + ws[1..] == ws;
      assert rest[0][0] == ws[0];
    } else {
      BytesAppend(cur, ws[0]);
      GreedyIsTight(cur + [ws[0]], ws[1..], limit);
      assert cur + [ws[0]] + ws[1..] == cur + ws;
    }
  }

  /**
   The shards hold the tensors in order, none is empty, none exceeds the limit
   unless it is a single tensor, and two adjacent ones exceed it together.
   */
  lemma ShardsAreSound(ws: seq<Weight>, limit: int)
    ensures Concat(Greedy([], ws, limit)) == ws && ShardsOk(Greedy([], ws, limit), limit)
    ensures forall i :: 0 < i < |Greedy([], ws, limit)| ==>
              Bytes(Greedy([], ws, limit)[i - 1]) + Bytes(Greedy([], ws, limit)[i]) > limit
  {
    GreedyIsTight([], ws, limit);
    assert [] + ws == ws;
    var r := Greedy([], ws, limit);
    forall i | 0 < i < |r| ensures Bytes(r[i - 1]) + Bytes(r[i]) > limit {
      BytesOfPart([], [r[i][0]], r[i][1..]);
      assert [] + [r[i][0]] + r[i][1..] == r[i];
      BytesAppend([], r[i][0]);
      assert [] + [r[i][0]] == [r[i][0]];
    }
  }

  lemma {:induction false} BytesConcat(a: seq<Weight>, b: seq<Weight>)
    ensures Bytes(a + b) == Bytes(a) + Bytes(b)
  {
    if b == [] {
      assert a + b == a;
    } else {
      BytesConcat(a, b[..|b| - 1]);
      assert (a + b)[..|a + b| - 1] == a + b[..|b| - 1];
    }
  }

  lemma BytesOfPart(a: seq<Weight>, b: seq<Weight>, c: seq<Weight>)
    ensures Bytes(b) <= Bytes(a + b + c)
  {
    BytesConcat(a, b);
    BytesConcat(a + b, c);
  }

  /** How many shards there can be, and that the bytes are those of all tensors. */
  lemma {:induction false} PairsExceed(shards: seq<seq<Weight>>, limit: nat)
    requires forall i :: 0 < i < |shards| ==> Bytes(shards[i - 1]) + Bytes(shards[i]) > limit
    ensures shards != [] ==> (|shards| - 1) * (limit + 1) + Bytes(shards[0]) <= 2 * Bytes(Concat(shards))
    ensures shards == [] ==> Concat(shards) == []
  {
    if |shards| == 1 {
      assert Concat(shards) == shards[0];
    } else if |shards| > 1 {
      var rest := shards[1..];
      forall i | 0 < i < |rest| ensures Bytes(rest[i - 1]) + Bytes(rest[i]) > limit {
        assert rest[i - 1] == shards[i] && rest[i] == shards[i + 1];
        assert Bytes(shards[i + 1 - 1]) + Bytes(shards[i + 1]) > limit;
      }
      PairsExceed(rest, limit);
      BytesConcat(shards[0], Concat(rest));
      assert Bytes(shards[1 - 1]) + Bytes(shards[1]) > limit;
      MulPlusOne(|shards| - 2, limit + 1);
    }
  }

  /** At most `2 * total / limit + 1` shards. */
  lemma FewShards(ws: seq<Weight>, limit: nat)
    requires limit > 0
    ensures |Greedy([], ws, limit)| <= 2 * Bytes(ws) / limit + 1
  {
    var r := Greedy([], ws, limit);
    ShardsAreSound(ws, limit);
    PairsExceed(r, limit);
    if r != [] {
      assert (|r| - 1) * (limit + 1) == limit * (|r| - 1) + (|r| - 1);
      DivideAtLeast(2 * Bytes(ws), |r| - 1, limit);
    } else {
      DivNat(2 * Bytes(ws), limit);
    }
  }

  /**
   Greedy sharding is optimal: no division of the same tensors into acceptable
   shards that keeps their order has fewer of them.
   */
  lemma GreedyIsOptimal(ws: seq<Weight>, limit: int, other: seq<seq<Weight>>)
    requires ShardsOk(other, limit) && Concat(other) == ws
    ensures |Greedy([], ws, limit)| <= |other|
  {
    assert [] + ws == ws;
    NoFewerShards([], [], ws, limit, other);
  }

  lemma {:induction false} NoFewerShards(pre: seq<Weight>, cur: seq<Weight>, ws: seq<Weight>,
                                         limit: int, other: seq<seq<Weight>>)
    requires ShardsOk(other, limit) && Concat(other) == pre + (cur + ws)
    requires cur == [] || ShardOk(cur, limit)
    ensures |Greedy(cur, ws, limit)| <= |other|
    decreases |other|, |ws|
  {
    if other == [] {
      assert cur == [] && ws == [];
    } else if |pre| >= |other[0]| {
      DropHead(other[0], Concat(other[1..]), pre, cur + ws);
      NoFewerShards(pre[|other[0]|..], cur, ws, limit, other[1..]);
    } else if ws != [] {
      MoveFirst(cur, ws);
      BytesAppend(cur, ws[0]);
      if Bytes(cur) + |ws[0].value| > limit && cur != [] {
        NextShardStarts(pre, cur, ws, limit, other);
        NoFewerShards((pre + cur)[|other[0]|..], [ws[0]], ws[1..], limit, other[1..]);
      } else {
        NoFewerShards(pre, cur + [ws[0]], ws[1..], limit, other);
      }
    }
  }

  /** When a tensor opens a new shard, the first shard of another division ends before it. */
  lemma NextShardStarts(pre: seq<Weight>, cur: seq<Weight>, ws: seq<Weight>, limit: int, other: seq<seq<Weight>>)
    requires ShardsOk(other, limit) && other != [] && Concat(other) == pre + (cur + ws)
    requires cur != [] && ws != [] && Bytes(cur) + |ws[0].value| > limit
    ensures |other[0]| <= |pre + cur|
    ensures Concat(other[1..]) == (pre + cur)[|other[0]|..] + ([ws[0]] + ws[1..])
  {
    SumAssoc(pre, cur, ws);
    ConcatHead(other);
    FirstShardEnds(pre, cur, ws, limit, other[0]);
    RestOfSum(other[0], Concat(other[1..]), pre + cur, ws);
  }

  /** What does not fit into one shard does not lie in the first one of another division. */
  lemma FirstShardEnds(pre: seq<Weight>, cur: seq<Weight>, ws: seq<Weight>, limit: int, first: seq<Weight>)
    requires ShardOk(first, limit) && first <= pre + cur + ws
    requires cur != [] && ws != [] && Bytes(cur) + |ws[0].value| > limit
    ensures |first| <= |pre| + |cur|
  {
    BytesAppend(cur, ws[0]);
    if |first| > |pre| + |cur| {
      SumAssoc(pre, cur, [ws[0]]);
      MoveFirst(pre + cur, ws);
      PartOfPrefix(pre, cur + [ws[0]], ws[1..], first);
      var tail :| first == pre + (cur + [ws[0]]) + tail;
      BytesOfPart(pre, cur + [ws[0]], tail);
    }
  }

  // ---- the ranks

  /** Tensor `i` is number `i / worldSize` of rank `i % worldSize`. */
  lemma {:induction false} EveryTensorHasARank(ws: seq<Weight>, worldSize: nat, i: nat)
    requires worldSize > 0 && i < |ws|
    ensures
      var mine := Mine(ws, worldSize, i % worldSize);
      0 <= i / worldSize < |mine| && mine[i / worldSize] == ws[i]
  {
    var n := |ws| - 1;
    MineLength(ws[..n], worldSize, i % worldSize);
    if i < n {
      EveryTensorHasARank(ws[..n], worldSize, i);
    }
  }

  /** The number of positions below `n` that are congruent to `rank`. */
  function Share(n: nat, worldSize: nat, rank: nat): nat
    requires worldSize > 0
  {
    n / worldSize + (if rank < n % worldSize then 1 else 0)
  }

  lemma {:induction false} MineLength(ws: seq<Weight>, worldSize: nat, rank: nat)
    requires rank < worldSize
    ensures |Mine(ws, worldSize, rank)| == Share(|ws|, worldSize, rank)
  {
    if ws == [] {
      ShareOfNone(worldSize, rank);
    } else {
      MineLength(ws[..|ws| - 1], worldSize, rank);
      ShareStep(|ws| - 1, worldSize, rank);
    }
  }

  lemma ShareOfNone(worldSize: nat, rank: nat)
    requires rank < worldSize
    ensures Share(0, worldSize, rank) == 0
  {
  }

  lemma ShareStep(n: nat, worldSize: nat, rank: nat)
    requires rank < worldSize
    ensures Share(n + 1, worldSize, rank) == Share(n, worldSize, rank) + (if n % worldSize == rank then 1 else 0)
  {
    var q, s := n / worldSize, n % worldSize;
    DivNat(n, worldSize);
    assert n == q * worldSize + s;
    if s + 1 < worldSize {
      DivModUnique(q, worldSize, s + 1);
    } else {
      assert n + 1 == (q + 1) * worldSize + 0;
      DivModUnique(q + 1, worldSize, 0);
    }
  }

  /** Number `q` of a rank is tensor `q * worldSize + rank`. */
  lemma {:induction false} MineAt(ws: seq<Weight>, worldSize: nat, rank: nat, q: nat)
    requires rank < worldSize && q < |Mine(ws, worldSize, rank)|
    ensures 0 <= q * worldSize + rank < |ws| && Mine(ws, worldSize, rank)[q] == ws[q * worldSize + rank]
  {
    var n := |ws| - 1;
    var init := Mine(ws[..n], worldSize, rank);
    if q < |init| {
      MineAt(ws[..n], worldSize, rank, q);
    } else {
      MineLength(ws[..n], worldSize, rank);
      assert n == n / worldSize * worldSize + n % worldSize;
    }
  }

  /** A rank outside of the group has no tensors. */
  lemma {:induction false} NothingForOthers(ws: seq<Weight>, worldSize: nat, rank: int)
    requires worldSize > 0 && !(0 <= rank < worldSize)
    ensures Mine(ws, worldSize, rank) == []
  {
    if ws != [] {
      NothingForOthers(ws[..|ws| - 1], worldSize, rank);
    }
  }

  lemma DistinctMine(ws: seq<Weight>, worldSize: nat, rank: nat)
    requires rank < worldSize && DistinctKeys(ws)
    ensures DistinctKeys(Mine(ws, worldSize, rank))
  {
    var mine := Mine(ws, worldSize, rank);
    forall p, q | 0 <= p < q < |mine| ensures mine[p].key != mine[q].key {
      MineAt(ws, worldSize, rank, p);
      MineAt(ws, worldSize, rank, q);
      MulStep(q, p, worldSize);
    }
  }

  /** The buckets of a rank. */
  function RankBuckets(ws: seq<Weight>, worldSize: nat, rank: nat, limit: int): seq<seq<Weight>>
    requires worldSize > 0
  {
    Dicts(Greedy([], Mine(ws, worldSize, rank), limit))
  }

  /** With distinct names the dicts hold exactly the grouped tensors. */
  lemma DistinctNamesKeepContents(ws: seq<Weight>, worldSize: nat, rank: nat, limit: int)
    requires rank < worldSize && DistinctKeys(ws)
    ensures RankBuckets(ws, worldSize, rank, limit) == Greedy([], Mine(ws, worldSize, rank), limit)
    ensures Concat(RankBuckets(ws, worldSize, rank, limit)) == Mine(ws, worldSize, rank)
  {
    var mine := Mine(ws, worldSize, rank);
    var groups := Greedy([], mine, limit);
    DistinctMine(ws, worldSize, rank);
    ShardsAreSound(mine, limit);
    forall k | 0 <= k < |groups| ensures FromItems(groups[k]) == groups[k] {
      DistinctParts(groups, k);
      FromItemsIsIdentity(groups[k]);
    }
    assert Dicts(groups) == groups;
  }

  /** Bucket `k` of rank `rank` holds a tensor called `name`. */
  ghost predicate Holds(ws: seq<Weight>, worldSize: nat, limit: int, rank: int, k: int, name: string)
    requires worldSize > 0
  {
    && 0 <= rank < worldSize && 0 <= k < |RankBuckets(ws, worldSize, rank, limit)|
    && HasKey(RankBuckets(ws, worldSize, rank, limit)[k], name)
  }

  /** Over all ranks, every tensor is in exactly one bucket. */
  lemma EveryTensorInOneBucket(ws: seq<Weight>, worldSize: nat, limit: int, i: nat)
    requires worldSize > 0 && DistinctKeys(ws) && i < |ws|
    ensures exists r, k :: Holds(ws, worldSize, limit, r, k, ws[i].key)
    ensures forall r, k, t, l ::
              Holds(ws, worldSize, limit, r, k, ws[i].key) && Holds(ws, worldSize, limit, t, l, ws[i].key) ==>
                r == t && k == l
  {
    InSomeBucket(ws, worldSize, limit, i);
    forall r, k, t, l | Holds(ws, worldSize, limit, r, k, ws[i].key) && Holds(ws, worldSize, limit, t, l, ws[i].key)
      ensures r == t && k == l
    {
      OnlyOneBucket(ws, worldSize, limit, i, r, k);
      OnlyOneBucket(ws, worldSize, limit, i, t, l);
      var bs := RankBuckets(ws, worldSize, r, limit);
      DistinctNamesKeepContents(ws, worldSize, r, limit);
      DistinctMine(ws, worldSize, r);
      NoSharedKey(bs, k, l, ws[i].key);
      NoSharedKey(bs, l, k, ws[i].key);
    }
  }

  lemma KeyInSomePart(bs: seq<seq<Weight>>, n: nat)
    requires n < |Concat(bs)|
    ensures exists k :: 0 <= k < |bs| && HasKey(bs[k], Concat(bs)[n].key)
  {
    var w := Concat(bs)[n];
    MemberOfConcat(bs, w);
    var k :| 0 <= k < |bs| && w in bs[k];
    var j :| 0 <= j < |bs[k]| && bs[k][j] == w;
    assert bs[k][j].key == w.key;
  }

  lemma InSomeBucket(ws: seq<Weight>, worldSize: nat, limit: int, i: nat)
    requires worldSize > 0 && DistinctKeys(ws) && i < |ws|
    ensures exists r, k :: Holds(ws, worldSize, limit, r, k, ws[i].key)
  {
    var r, q := i % worldSize, i / worldSize;
    var bs := RankBuckets(ws, worldSize, r, limit);
    EveryTensorHasARank(ws, worldSize, i);
    DistinctNamesKeepContents(ws, worldSize, r, limit);
    KeyInSomePart(bs, q);
    var k :| 0 <= k < |bs| && HasKey(bs[k], ws[i].key);
    assert Holds(ws, worldSize, limit, r, k, ws[i].key);
  }

  lemma OnlyOneBucket(ws: seq<Weight>, worldSize: nat, limit: int, i: nat, r: int, k: int)
    requires worldSize > 0 && DistinctKeys(ws) && i < |ws|
    requires Holds(ws, worldSize, limit, r, k, ws[i].key)
    ensures r == i % worldSize
  {
    var bs := RankBuckets(ws, worldSize, r, limit);
    var mine := Mine(ws, worldSize, r);
    DistinctNamesKeepContents(ws, worldSize, r, limit);
    var bucket: seq<Weight> := bs[k];
    var j :| 0 <= j < |bucket| && bucket[j].key == ws[i].key;
    ConcatMember(bs, k, j);
    var q :| 0 <= q < |mine| && mine[q] == bucket[j];
    MineAt(ws, worldSize, r, q);
    assert q * worldSize + r == i;
    DivModUnique(q, worldSize, r);
  }

  /** Two groups of a list with distinct keys have no key in common. */
  lemma {:induction false} NoSharedKey(bs: seq<seq<Weight>>, k: nat, l: nat, name: string)
    requires DistinctKeys(Concat(bs)) && k < |bs| && l < |bs| && HasKey(bs[k], name) && HasKey(bs[l], name)
    ensures k >= l
  {
    var head, rest := bs[0], Concat(bs[1..]);
    assert Concat(bs) == head + rest;
    DistinctHalves(head, rest);
    if k > 0 && l > 0 {
      NoSharedKey(bs[1..], k - 1, l - 1, name);
    } else if l > 0 {
      var j :| 0 <= j < |bs[l]| && bs[l][j].key == name;
      assert bs[l] == bs[1..][l - 1];
      ConcatMember(bs[1..], l - 1, j);
    }
  }

  lemma DistinctHalves(a: seq<Weight>, b: seq<Weight>)
    requires DistinctKeys(a + b)
    ensures DistinctKeys(b) && forall x, y :: x in a && y in b ==> x.key != y.key
  {
    forall i, j | 0 <= i < j < |b| ensures b[i].key != b[j].key {
      assert (a + b)[|a| + i] == b[i] && (a + b)[|a| + j] == b[j];
    }
    forall x, y | x in a && y in b ensures x.key != y.key {
      var i, j :| 0 <= i < |a| && 0 <= j < |b| && a[i] == x && b[j] == y;
      assert (a + b)[i] == x && (a + b)[|a| + j] == y;
    }
  }

  // ---- the index of the saved files

  /** `{n:05d}` */
  function Padded(n: nat): string {
    var s := Decimal(n);
    if |s| >= 5 then s else seq(5 - |s|, _ => '0') + s
  }

  function NumberedName(prefix: string, i: nat, tail: string): string {
    prefix + Field(Padded(i + 1), '-', tail)
  }

  function FileName(i: nat, files: nat): string {
    if files == 1 then "model.safetensors" else NumberedName("model-", i, NameTail(files))
  }

  function NameTail(files: nat): string { "of-" + Padded(files) + ".safetensors" }

  lemma {:induction false} LeadingZeros(n: nat, s: string)
    requires forall i :: 0 <= i < |s| ==> '0' <= s[i] <= '9'
    ensures
      var z := seq(n, _ => '0') + s;
      && (forall i :: 0 <= i < |z| ==> '0' <= z[i] <= '9')
      && DigitsValue(z) == DigitsValue(s)
    decreases n + |s|
  {
    var z := seq(n, _ => '0') + s;
    if s != [] {
      LeadingZeros(n, s[..|s| - 1]);
      assert z[..|z| - 1] == seq(n, _ => '0') + s[..|s| - 1];
    } else if n > 0 {
      LeadingZeros(n - 1, s);
      assert z[..|z| - 1] == seq(n - 1, _ => '0') + s;
    }
  }

  lemma PaddedValue(n: nat)
    ensures '-' !in Padded(n) && (forall i :: 0 <= i < |Padded(n)| ==> '0' <= Padded(n)[i] <= '9')
    ensures DigitsValue(Padded(n)) == n
  {
    DecimalValue(n);
    var s := Decimal(n);
    if |s| < 5 {
      LeadingZeros(5 - |s|, s);
    }
  }

  /** `s` is the decimal number `n` with at least five digits. */
  predicate IsFiveDigits(s: string, n: nat) {
    && |s| >= 5 && (forall i :: 0 <= i < |s| ==> '0' <= s[i] <= '9') && DigitsValue(s) == n
    && (|s| > 5 ==> s[0] != '0')
  }

  lemma {:induction false} NoLeadingZero(n: nat)
    ensures |Decimal(n)| > 1 ==> Decimal(n)[0] != '0'
  {
    if n >= 10 {
      NoLeadingZero(n / 10);
    }
  }

  lemma PaddedIsFiveDigits(n: nat)
    ensures IsFiveDigits(Padded(n), n)
  {
    PaddedValue(n);
    NoLeadingZero(n);
  }

  /**
   A single file is called `model.safetensors`. Several are numbered from one on,
   with the number of files, both in at least five digits.
   */
  lemma FileNameIsSpelled(i: nat, files: nat)
    requires i < files
    ensures files == 1 ==> FileName(i, files) == "model.safetensors"
    ensures files > 1 ==> exists no, count ::
              && FileName(i, files) == "model-" + no + "-of-" + count + ".safetensors"
              && IsFiveDigits(no, i + 1) && IsFiveDigits(count, files)
  {
    if files > 1 {
      var no, count := Padded(i + 1), Padded(files);
      PaddedIsFiveDigits(i + 1);
      PaddedIsFiveDigits(files);
      NameParts(no, count);
      assert FileName(i, files) == "model-" + no + "-of-" + count + ".safetensors";
    }
  }

  lemma NameParts(no: string, count: string)
    ensures "model-" + Field(no, '-', "of-" + count + ".safetensors") == "model-" + no + "-of-" + count + ".safetensors"
  {
    assert "-of-" == "-" + "of-";
  }

  /** Different shards are saved in different files. */
  lemma FileNamesDiffer(i: nat, j: nat, files: nat)
    requires i < j < files
    ensures FileName(i, files) != FileName(j, files)
  {
    NumberedNamesDiffer("model-", i, j, NameTail(files));
  }

  lemma NumberedNamesDiffer(prefix: string, i: nat, j: nat, tail: string)
    requires i != j
    ensures NumberedName(prefix, i, tail) != NumberedName(prefix, j, tail)
  {
    PaddedValue(i + 1);
    PaddedValue(j + 1);
    NamesDiffer(prefix, Padded(i + 1), Padded(j + 1), tail);
  }

  lemma NamesDiffer(prefix: string, a: string, b: string, tail: string)
    requires a != b && '-' !in a && '-' !in b
    ensures prefix + Field(a, '-', tail) != prefix + Field(b, '-', tail)
  {
    if prefix + Field(a, '-', tail) == prefix + Field(b, '-', tail) {
      DropPrefix(prefix, Field(a, '-', tail), Field(b, '-', tail));
      FieldInjective(a, tail, b, tail, '-');
    }
  }

  function FileNames(files: nat): seq<string> {
    seq(files, i requires 0 <= i => FileName(i, files))
  }

  /** The keys of the first shards, each with the file that holds it. */
  ghost predicate Indexed(shards: seq<seq<Weight>>, files: seq<string>, n: nat, index: map<string, string>) {
    n <= |shards| == |files| && FilesKnown(shards, files, n, index) && forall name <- index :: Located(shards, n, name)
  }

  ghost predicate FilesKnown(shards: seq<seq<Weight>>, files: seq<string>, n: nat, index: map<string, string>)
    requires n <= |shards| == |files|
  {
    forall i, k :: 0 <= i < n && 0 <= k < |shards[i]| ==> FileKnown(files[i], shards[i][k].key, index)
  }

  predicate FileKnown(file: string, name: string, index: map<string, string>) {
    name in index && index[name] == file
  }

  ghost predicate Located(shards: seq<seq<Weight>>, n: nat, name: string)
    requires n <= |shards|
  {
    exists i :: 0 <= i < n && HasKey(shards[i], name)
  }

  /** The saver's loop over the shards: every tensor's file, and the size of all of them. */
  method BuildIndex(shards: seq<seq<Weight>>) returns (index: map<string, string>, totalSize: nat)
    requires DistinctKeys(Concat(shards))
    ensures Indexed(shards, FileNames(|shards|), |shards|, index) && totalSize == Bytes(Concat(shards))
  {
    index, totalSize := map[], 0;
    assert Concat(shards[..0]) == [];
    for i := 0 to |shards|
      invariant Indexed(shards, FileNames(|shards|), i, index) && totalSize == Bytes(Concat(shards[..i]))
    {
      var bytes;
      assert shards[..i + 1] == shards[..i] + [shards[i]];
      ConcatAppend(shards[..i], shards[i]);
      BytesConcat(Concat(shards[..i]), shards[i]);
      ghost var before := index;
      index, bytes := IndexShard(index, shards[i], FileName(i, |shards|));
      IndexStep(shards, FileNames(|shards|), i, before, index);
      totalSize := totalSize + bytes;
    }
    assert shards[..|shards|] == shards;
  }

  /** `index` also maps the keys of `shard` to `file`. */
  ghost predicate Extended(before: map<string, string>, shard: seq<Weight>, file: string, index: map<string, string>) {
    && (forall k :: 0 <= k < |shard| ==> shard[k].key in index && index[shard[k].key] == file)
    && (forall name <- before :: name in index && (HasKey(shard, name) || index[name] == before[name]))
    && (forall name <- index :: name in before || HasKey(shard, name))
  }

  method IndexShard(before: map<string, string>, shard: seq<Weight>, file: string)
    returns (index: map<string, string>, bytes: nat)
    ensures Extended(before, shard, file, index) && bytes == Bytes(shard)
  {
    index, bytes := before, 0;
    for k := 0 to |shard|
      invariant Extended(before, shard[..k], file, index) && bytes == Bytes(shard[..k])
    {
      var part := shard[..k];
      BytesAppend(part, shard[k]);
      TakeStep(shard, k);
      ExtendedStep(before, part, shard[k], file, index);
      index := index[shard[k].key := file];
      bytes := bytes + |shard[k].value|;
    }
    assert shard[..|shard|] == shard;
  }

  lemma ExtendedStep(before: map<string, string>, part: seq<Weight>, w: Weight, file: string,
                     index: map<string, string>)
    requires Extended(before, part, file, index)
    ensures Extended(before, part + [w], file, index[w.key := file])
  {
    var all := part + [w];
    assert all[|part|] == w;
    forall name | HasKey(part, name) ensures HasKey(all, name) {
      var i :| 0 <= i < |part| && part[i].key == name;
      assert all[i].key == name;
    }
  }

  lemma IndexStep(shards: seq<seq<Weight>>, files: seq<string>, n: nat,
                  before: map<string, string>, index: map<string, string>)
    requires n < |shards| == |files| && DistinctKeys(Concat(shards)) && Indexed(shards, files, n, before)
    requires Extended(before, shards[n], files[n], index)
    ensures Indexed(shards, files, n + 1, index)
  {
    forall i, k | 0 <= i < n + 1 && 0 <= k < |shards[i]| ensures FileKnown(files[i], shards[i][k].key, index) {
      if i < n {
        assert FileKnown(files[i], shards[i][k].key, before);
        KeyOfEarlier(shards, i, n, k);
      }
    }
    forall name | name in index ensures Located(shards, n + 1, name) {
      if name in before {
        assert Located(shards, n, name);
      } else {
        assert HasKey(shards[n], name);
      }
    }
  }

  lemma KeyOfEarlier(shards: seq<seq<Weight>>, i: nat, n: nat, k: nat)
    requires i < n < |shards| && DistinctKeys(Concat(shards)) && k < |shards[i]|
    ensures !HasKey(shards[n], shards[i][k].key)
  {
    if HasKey(shards[n], shards[i][k].key) {
      assert HasKey(shards[i], shards[i][k].key);
      NoSharedKey(shards, i, n, shards[i][k].key);
    }
  }
}
