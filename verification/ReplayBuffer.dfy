/**
 The trainer's replay buffer: for each partition a dict from keys to tags, merged
 from snapshots of the transfer queue and sampled by training step.
 */
module ReplayBuffer {
  import opened Common
  import opened OrderedDict

  datatype Status = Running | Success | DoneStatus | Failure

  /** The tag dict of a key; `lengths` stands for its remaining entries. */
  datatype Tags = Tags(globalSteps: Option<int>, status: Option<Status>, lengths: map<string, int>)

  const NO_TAGS := Tags(None, None, map[])

  /** `old.update(new)` on tag dicts */
  function Update(old': Tags, new': Tags): Tags {
    Tags(if new'.globalSteps.Some? then new'.globalSteps else old'.globalSteps,
         if new'.status.Some? then new'.status else old'.status,
         old'.lengths + new'.lengths)
  }

  // ---- what the operations mean

  function TagsIn(m: map<string, Tags>, k: string): Tags {
    if k in m then m[k] else NO_TAGS
  }

  /** Every key of `items` is merged into the tags it already has. */
  function Merge(m: map<string, Tags>, items: map<string, Tags>): map<string, Tags> {
    map k | k in m.Keys + items.Keys :: if k in items then Update(TagsIn(m, k), items[k]) else m[k]
  }

  predicate OfStep(t: Tags, step: int) {
    t.globalSteps == Some(step)
  }

  /** No key of the step is still running. */
  ghost predicate Ready(m: map<string, Tags>, step: int) {
    forall k :: k in m && OfStep(m[k], step) ==> m[k].status != Some(Running)
  }

  /** The keys a sample of the step returns. */
  function SampleKeys(m: map<string, Tags>, step: int): set<string> {
    set k | k in m && OfStep(m[k], step) && m[k].status == Some(Success)
  }

  /** Every tag dict has the entries that `sample` looks up. */
  ghost predicate Sampleable(m: map<string, Tags>) {
    forall k :: k in m ==> m[k].globalSteps.Some? && m[k].status.Some?
  }

  // ---- partitions as dicts

  /** A partition: tags by key, in the order in which the keys were first added. */
  type Partition = Dict<string, Tags>

  function TagsOf(p: Partition, key: string): Tags {
    if HasKey(p, key) then Get(p, key) else NO_TAGS
  }

  function Keys(p: Partition): set<string> {
    set i | 0 <= i < |p| :: p[i].key
  }

  /** The same without the order. */
  function AsMap(p: Partition): map<string, Tags> {
    map k | k in Keys(p) :: TagsOf(p, k)
  }

  /** The partition after the items were merged in their order; new keys come last. */
  function Merged(p: Partition, items: Partition): Partition {
    if items == [] then p
    else
      var m, last := Merged(p, items[..|items| - 1]), items[|items| - 1];
      Put(m, last.key, Update(TagsOf(m, last.key), last.value))
  }

  /** The entries whose key is not removed, in their order. */
  function Without(p: Partition, keys: seq<string>): Partition {
    if p == [] then []
    else
      var init, last := Without(p[..|p| - 1], keys), p[|p| - 1];
      if last.key in keys then init else init + [last]
  }

  lemma AsMapKeys(p: Partition, k: string)
    ensures k in AsMap(p) <==> HasKey(p, k)
    ensures TagsOf(p, k) == TagsIn(AsMap(p), k)
  {
    if HasKey(p, k) {
      assert p[Find(p, k)].key == k;
    }
  }

  lemma AsMapPut(p: Partition, k: string, t: Tags)
    requires DistinctKeys(p)
    ensures DistinctKeys(Put(p, k, t)) && AsMap(Put(p, k, t)) == AsMap(p)[k := t]
  {
    var r := Put(p, k, t);
    PutKeys(p, k, t, k);
    forall x
      ensures x in AsMap(r) <==> x in AsMap(p) || x == k
      ensures x in AsMap(r) ==> AsMap(r)[x] == if x == k then t else AsMap(p)[x]
    {
      AsMapPutAt(p, k, t, x);
    }
  }

  lemma AsMapPutAt(p: Partition, k: string, t: Tags, x: string)
    requires DistinctKeys(p)
    ensures
      var m, m' := AsMap(p), AsMap(Put(p, k, t));
      && (x in m' <==> x in m || x == k)
      && (x in m' ==> m'[x] == if x == k then t else m[x])
  {
    PutKeys(p, k, t, x);
    AsMapKeys(p, x);
    AsMapKeys(Put(p, k, t), x);
    PutGet(p, k, t, x);
  }

  /** One entry more. */
  lemma AsMapAppend(p: Partition, e: Entry<string, Tags>)
    requires DistinctKeys(p + [e])
    ensures DistinctKeys(p) && !HasKey(p, e.key) && AsMap(p + [e]) == AsMap(p)[e.key := e.value]
  {
    var q := p + [e];
    assert q[|p|] == e && forall i :: 0 <= i < |p| ==> q[i] == p[i];
    assert Put(p, e.key, e.value) == q;
    AsMapPut(p, e.key, e.value);
  }

  /** Merging dicts merges the maps: the order of the items does not matter for the tags. */
  lemma {:induction false} MergedIsMerge(p: Partition, items: Partition)
    requires DistinctKeys(p) && DistinctKeys(items)
    ensures DistinctKeys(Merged(p, items)) && AsMap(Merged(p, items)) == Merge(AsMap(p), AsMap(items))
  {
    if items == [] {
      assert Merge(AsMap(p), map[]) == AsMap(p);
    } else {
      var init, last := items[..|items| - 1], items[|items| - 1];
      assert items == init + [last];
      AsMapAppend(init, last);
      MergedIsMerge(p, init);
      var m := Merged(p, init);
      AsMapKeys(init, last.key);
      AsMapKeys(m, last.key);
      AsMapPut(m, last.key, Update(TagsOf(m, last.key), last.value));
      MergeOneMore(AsMap(p), AsMap(init), last.key, last.value);
    }
  }

  lemma MergeOneMore(m: map<string, Tags>, items: map<string, Tags>, k: string, t: Tags)
    requires k !in items
    ensures Merge(m, items[k := t]) == Merge(m, items)[k := Update(TagsIn(Merge(m, items), k), t)]
  {
  }

  /** One tag after the other: a new tag wins over an old one, which is otherwise kept. */
  lemma UpdatePerTag(a: Tags, b: Tags, name: string)
    ensures Update(a, b).globalSteps == a.globalSteps || Update(a, b).globalSteps == b.globalSteps
    ensures b.globalSteps.Some? ==> Update(a, b).globalSteps == b.globalSteps
    ensures b.globalSteps.None? ==> Update(a, b).globalSteps == a.globalSteps
    ensures b.status.Some? ==> Update(a, b).status == b.status
    ensures b.status.None? ==> Update(a, b).status == a.status
    ensures name in Update(a, b).lengths <==> name in a.lengths || name in b.lengths
    ensures name in b.lengths ==> Update(a, b).lengths[name] == b.lengths[name]
    ensures name in a.lengths && name !in b.lengths ==> Update(a, b).lengths[name] == a.lengths[name]
  {
  }

  /** `x` has a place before a place of `y`. */
  ghost predicate Earlier(p: Partition, x: string, y: string) {
    exists i, j :: 0 <= i < j < |p| && p[i].key == x && p[j].key == y
  }

  lemma EarlierMore(p: Partition, e: Entry<string, Tags>, x: string, y: string)
    requires Earlier(p, x, y)
    ensures Earlier(p + [e], x, y)
  {
    var i, j :| 0 <= i < j < |p| && p[i].key == x && p[j].key == y;
    assert (p + [e])[i].key == x && (p + [e])[j].key == y;
  }

  lemma EarlierThanLast(p: Partition, e: Entry<string, Tags>, x: string)
    requires HasKey(p, x)
    ensures Earlier(p + [e], x, e.key)
  {
    var i :| 0 <= i < |p| && p[i].key == x;
    assert (p + [e])[i].key == x && (p + [e])[|p|].key == e.key;
  }

  /** The keys that were there keep their places; new ones follow in the order of the items. */
  lemma {:induction false} MergedKeepsOrder(p: Partition, items: Partition)
    ensures |p| <= |Merged(p, items)| && forall i :: 0 <= i < |p| ==> Merged(p, items)[i].key == p[i].key
    ensures forall i :: |p| <= i < |Merged(p, items)| ==> HasKey(items, Merged(p, items)[i].key)
    ensures forall i, j :: |p| <= i < j < |Merged(p, items)| ==>
              Earlier(items, Merged(p, items)[i].key, Merged(p, items)[j].key)
  {
    if items != [] {
      var init, last := items[..|items| - 1], items[|items| - 1];
      var m, r := Merged(p, init), Merged(p, items);
      assert items == init + [last];
      MergedKeepsOrder(p, init);
      assert forall i :: 0 <= i < |m| ==> r[i].key == m[i].key;
      forall i | |p| <= i < |r| ensures HasKey(items, r[i].key) {
        if i < |m| {
          HasKeyAppend(init, last, m[i].key);
        } else {
          HasKeyAppend(init, last, last.key);
        }
      }
      forall i, j | |p| <= i < j < |r| ensures Earlier(items, r[i].key, r[j].key) {
        if j < |m| {
          EarlierMore(init, last, m[i].key, m[j].key);
        } else {
          EarlierThanLast(init, last, m[i].key);
        }
      }
    }
  }

  /** The remaining keys keep their order. */
  lemma {:induction false} WithoutKeepsOrder(p: Partition, keys: seq<string>)
    ensures forall i, j :: 0 <= i < j < |Without(p, keys)| ==>
              Earlier(p, Without(p, keys)[i].key, Without(p, keys)[j].key)
    ensures forall i :: 0 <= i < |Without(p, keys)| ==> Without(p, keys)[i] in p
  {
    if p != [] {
      var init, last := p[..|p| - 1], p[|p| - 1];
      assert p == init + [last];
      WithoutKeepsOrder(init, keys);
      ExtendsInOrder(Without(init, keys), Without(p, keys), init, last);
    }
  }

  /** Parts in order stay so when the next entry is added to the whole, and perhaps to the part. */
  lemma ExtendsInOrder(r: Partition, r': Partition, init: Partition, last: Entry<string, Tags>)
    requires r' == r || r' == r + [last]
    requires forall i, j :: 0 <= i < j < |r| ==> Earlier(init, r[i].key, r[j].key)
    requires forall i :: 0 <= i < |r| ==> r[i] in init
    ensures forall i, j :: 0 <= i < j < |r'| ==> Earlier(init + [last], r'[i].key, r'[j].key)
    ensures forall i :: 0 <= i < |r'| ==> r'[i] in init + [last]
  {
    forall i, j | 0 <= i < j < |r'| ensures Earlier(init + [last], r'[i].key, r'[j].key) {
      if j < |r| {
        EarlierMore(init, last, r[i].key, r[j].key);
      } else {
        assert r[i] in init;
        EarlierThanLast(init, last, r[i].key);
      }
    }
  }

  lemma {:induction false} WithoutKeys(p: Partition, keys: seq<string>, k: string)
    ensures HasKey(Without(p, keys), k) <==> HasKey(p, k) && k !in keys
  {
    if p != [] {
      var init, last := p[..|p| - 1], p[|p| - 1];
      WithoutKeys(init, keys, k);
      assert p == init + [last];
      HasKeyAppend(init, last, k);
      HasKeyAppend(Without(init, keys), last, k);
    }
  }

  lemma HasKeyAppend(p: Partition, e: Entry<string, Tags>, k: string)
    ensures HasKey(p + [e], k) <==> HasKey(p, k) || e.key == k
  {
    var q := p + [e];
    assert q[|p|] == e && forall i :: 0 <= i < |p| ==> q[i] == p[i];
  }

  /** Removing keys from the dict removes them from the map. */
  lemma {:induction false} WithoutIsRemoval(p: Partition, keys: seq<string>)
    requires DistinctKeys(p)
    ensures DistinctKeys(Without(p, keys)) && AsMap(Without(p, keys)) == AsMap(p) - KeySet(keys)
  {
    if p != [] {
      var init, last := p[..|p| - 1], p[|p| - 1];
      assert p == init + [last];
      AsMapAppend(init, last);
      WithoutIsRemoval(init, keys);
      AsMapKeys(init, last.key);
      RemoveAfterPut(AsMap(init), KeySet(keys), last.key, last.value);
      if last.key !in keys {
        WithoutKeys(init, keys, last.key);
        DistinctAppend(Without(init, keys), last);
        AsMapAppend(Without(init, keys), last);
      }
    }
  }

  lemma RemoveAfterPut(m: map<string, Tags>, keys: set<string>, k: string, t: Tags)
    requires k !in m
    ensures m[k := t] - keys == if k in keys then m - keys else (m - keys)[k := t]
  {
  }

  lemma DistinctAppend(p: Partition, e: Entry<string, Tags>)
    requires DistinctKeys(p) && !HasKey(p, e.key)
    ensures DistinctKeys(p + [e])
  {
  }

  function KeySet(keys: seq<string>): set<string> {
    set k | k in keys
  }

  // ---- sampling

  datatype SampleError = MissingTag

  /** The scan ends at this entry: a lookup fails, or a key of the step is running. */
  predicate Stops(t: Tags, step: int) {
    t.globalSteps.None? || (OfStep(t, step) && (t.status.None? || t.status == Some(Running)))
  }

  predicate StopsAt(p: Partition, step: int, i: nat) {
    i < |p| && Stops(p[i].value, step) && forall j :: 0 <= j < i ==> !Stops(p[j].value, step)
  }

  predicate RunsToEnd(p: Partition, step: int) {
    forall i :: 0 <= i < |p| ==> !Stops(p[i].value, step)
  }

  /** The scan stops at the first entry without a step, or of the step and without a status or running. */
  lemma StopsAtFirst(p: Partition, step: int, i: nat)
    ensures StopsAt(p, step, i) <==>
              && i < |p| && (p[i].value.globalSteps == Some(step) || p[i].value.globalSteps == None)
              && (p[i].value.globalSteps == None || p[i].value.status in {None, Some(Running)})
              && forall j :: 0 <= j < i ==>
                   && p[j].value.globalSteps.Some?
                   && (p[j].value.globalSteps.value == step ==> p[j].value.status !in {None, Some(Running)})
  {
  }

  /** The successes of the step with their tags, in the order of the partition. */
  function Successes(p: Partition, step: int): Partition {
    if p == [] then []
    else
      var init, last := Successes(p[..|p| - 1], step), p[|p| - 1];
      if OfStep(last.value, step) && last.value.status == Some(Success) then init + [last] else init
  }

  /** The sampled entries are those of the map's sample, each once, with the map's tags. */
  lemma {:induction false} SuccessesAreSampleKeys(p: Partition, step: int)
    requires DistinctKeys(p)
    ensures DistinctKeys(Successes(p, step)) && Keys(Successes(p, step)) == SampleKeys(AsMap(p), step)
    ensures forall e :: e in Successes(p, step) ==> e in p
  {
    if p != [] {
      var init, last := p[..|p| - 1], p[|p| - 1];
      var before := Successes(init, step);
      assert p == init + [last];
      AsMapAppend(init, last);
      SuccessesAreSampleKeys(init, step);
      AsMapKeys(init, last.key);
      SampleKeysStep(AsMap(init), last.key, last.value, step);
      if OfStep(last.value, step) && last.value.status == Some(Success) {
        DistinctAppend(before, last);
        KeysAppend(before, last);
      }
    }
  }

  /** The sampled entries are in the order of the partition. */
  lemma {:induction false} SuccessesKeepOrder(p: Partition, step: int)
    ensures forall i, j :: 0 <= i < j < |Successes(p, step)| ==>
              Earlier(p, Successes(p, step)[i].key, Successes(p, step)[j].key)
    ensures forall i :: 0 <= i < |Successes(p, step)| ==> Successes(p, step)[i] in p
  {
    if p != [] {
      var init, last := p[..|p| - 1], p[|p| - 1];
      assert p == init + [last];
      SuccessesKeepOrder(init, step);
      ExtendsInOrder(Successes(init, step), Successes(p, step), init, last);
    }
  }

  lemma SampleKeysStep(m: map<string, Tags>, k: string, t: Tags, step: int)
    requires k !in m
    ensures k !in SampleKeys(m, step)
    ensures SampleKeys(m[k := t], step)
         == SampleKeys(m, step) + if OfStep(t, step) && t.status == Some(Success) then {k} else {}
  {
  }

  lemma KeysAppend(p: Partition, e: Entry<string, Tags>)
    ensures Keys(p + [e]) == Keys(p) + {e.key}
  {
    var q := p + [e];
    assert q[|p|] == e && forall i :: 0 <= i < |p| ==> q[i] == p[i];
  }

  /** With all tags present, the scan runs to the end iff the step is ready. */
  lemma RunsToEndIffReady(p: Partition, step: int)
    requires DistinctKeys(p) && Sampleable(AsMap(p))
    ensures RunsToEnd(p, step) <==> Ready(AsMap(p), step)
  {
    forall i | 0 <= i < |p| ensures p[i].key in AsMap(p) && AsMap(p)[p[i].key] == p[i].value {
      FindAt(p, i);
    }
    forall k | k in AsMap(p) ensures exists i :: 0 <= i < |p| && p[i].key == k {
      AsMapKeys(p, k);
    }
  }

  /** One pass over the partition: the successes of the step, or `None` at the first running key of the step. */
  method Scan(partition: Partition, step: int) returns (r: Result<Option<Partition>, SampleError>)
    ensures RunsToEnd(partition, step) ==> r == Ok(Some(Successes(partition, step)))
    ensures forall i: nat :: StopsAt(partition, step, i) ==>
              r == if OfStep(partition[i].value, step) && partition[i].value.status.Some? then Ok(None)
                    else Err(MissingTag)
  {
    var picked: Partition := [];
    for i := 0 to |partition|
      invariant RunsToEnd(partition[..i], step) && picked == Successes(partition[..i], step)
    {
      var key, tag := partition[i].key, partition[i].value;
      TakeStep(partition, i);
      assert Stops(tag, step) ==> StopsAt(partition, step, i);
      if tag.globalSteps.None? {
        return Err(MissingTag);
      }
      if tag.globalSteps == Some(step) {
        if tag.status.None? {
          return Err(MissingTag);
        } else if tag.status == Some(Running) {
          return Ok(None);
        } else if tag.status == Some(Success) {
          picked := picked + [Entry(key, tag)];
        }
      }
    }
    assert partition[..|partition|] == partition;
    return Ok(Some(picked));
  }

  // ---- the class

  class ReplayBuffer {
    var partitions: map<string, Partition>

    constructor ()
      ensures partitions == map[]
    {
      partitions := map[];
    }

    /** A `defaultdict`: a partition that was never looked up is empty. */
    function Contents(id: string): Partition
      reads this
    {
      if id in partitions then partitions[id] else []
    }

    /** Merge a snapshot of one partition. */
    method Add(id: string, items: Partition)
      modifies this
      ensures partitions == old(partitions)[id := Merged(old(Contents(id)), items)]
    {
      var partition := Contents(id);
      for i := 0 to |items|
        invariant partitions == old(partitions) && partition == Merged(old(Contents(id)), items[..i])
      {
        var key, tags := items[i].key, items[i].value;
        TakeStep(items, i);
        ghost var before := partition;
        if !HasKey(partition, key) {
          partition := Put(partition, key, NO_TAGS);
        }
        PutTwice(before, key, NO_TAGS, Update(TagsOf(before, key), tags));
        partition := Put(partition, key, Update(Get(partition, key), tags));
      }
      assert items[..|items|] == items;
      partitions := partitions[id := partition];
    }

    /** Drop the keys that are present. */
    method Remove(id: string, keys: seq<string>)
      modifies this
      ensures partitions == old(partitions)[id := Without(old(Contents(id)), keys)]
    {
      var partition := Contents(id);
      WithoutNothing(partition);
      for i := 0 to |keys|
        invariant partitions == old(partitions) && partition == Without(old(Contents(id)), keys[..i])
      {
        TakeStep(keys, i);
        WithoutOneMore(old(Contents(id)), keys[..i], keys[i]);
        if HasKey(partition, keys[i]) {
          partition := Without(partition, [keys[i]]);
        } else {
          WithoutAbsent(partition, keys[i]);
        }
      }
      assert keys[..|keys|] == keys;
      partitions := partitions[id := partition];
    }

    /**
     One pass of the sampling loop, under the lock. `None` means wait and try
     again; an error is the KeyError for a tag dict without the needed entries.
     */
    method TrySample(id: string, step: int) returns (r: Result<Option<Partition>, SampleError>)
      modifies this
      ensures partitions == old(partitions)[id := old(Contents(id))]
      ensures RunsToEnd(Contents(id), step) ==> r == Ok(Some(Successes(Contents(id), step)))
      ensures forall i: nat :: StopsAt(Contents(id), step, i) ==>
                r == if OfStep(Contents(id)[i].value, step) && Contents(id)[i].value.status.Some? then Ok(None)
                     else Err(MissingTag)
    {
      var partition := Contents(id);
      partitions := partitions[id := partition];
      r := Scan(partition, step);
    }
  }

  // ---- steps of the loops

  /** Creating an empty tag dict first makes no difference. */
  lemma PutTwice(p: Partition, k: string, s: Tags, t: Tags)
    ensures HasKey(Put(p, k, s), k)
    ensures !HasKey(p, k) ==> Get(Put(p, k, s), k) == s && Put(Put(p, k, s), k, t) == Put(p, k, t)
  {
    PutKeys(p, k, s, k);
    if !HasKey(p, k) {
      var q := Put(p, k, s);
      assert forall i :: 0 <= i < |p| ==> p[i].key != k;
      assert Find(q, k) == |p|;
      assert Put(q, k, t) == p + [Entry(k, t)];
    }
  }

  lemma {:induction false} WithoutNothing(p: Partition)
    ensures Without(p, []) == p
  {
    if p != [] {
      WithoutNothing(p[..|p| - 1]);
    }
  }

  lemma {:induction false} WithoutAbsent(p: Partition, k: string)
    requires !HasKey(p, k)
    ensures Without(p, [k]) == p
  {
    if p != [] {
      assert forall i :: 0 <= i < |p| ==> p[i].key != k;
      WithoutAbsent(p[..|p| - 1], k);
    }
  }

  lemma {:induction false} WithoutOneMore(p: Partition, keys: seq<string>, k: string)
    ensures Without(Without(p, keys), [k]) == Without(p, keys + [k])
  {
    if p != [] {
      var init, last := p[..|p| - 1], p[|p| - 1];
      WithoutOneMore(init, keys, k);
      if last.key !in keys {
        assert Without(p, keys)[..|Without(p, keys)| - 1] == Without(init, keys);
      }
    }
  }
}
