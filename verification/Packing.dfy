/**
 How the checkpoint engines pack a stream of named tensors into fixed-size
 buckets, and what a receiver reads back out of a bucket's bytes.
 */
module Packing {
  import opened Common
  import opened OrderedDict

  type Byte = bv8

  /** A tensor is its name and its raw bytes. */
  type Weight = Entry<string, seq<Byte>>

  /** What the receiver needs of a `TensorMeta`: shape and dtype only give the byte count. */
  datatype Slot = Slot(offset: nat, size: nat)

  /** `bucket_meta`, keyed by tensor name. */
  type Meta = Dict<string, Slot>

  /** Bytes used by the tensors of a bucket: the running `offset`. */
  function Bytes(b: seq<Weight>): nat {
    if b == [] then 0 else Bytes(b[..|b| - 1]) + |b[|b| - 1].value|
  }

  /** The bytes of a bucket's tensors, laid out one after the other. */
  function Flat(b: seq<Weight>): (r: seq<Byte>)
    ensures |r| == Bytes(b)
  {
    if b == [] then [] else Flat(b[..|b| - 1]) + b[|b| - 1].value
  }

  /** The `bucket_meta` dict after the tensors of `b` were added in order. */
  function MetaOf(b: seq<Weight>): Meta {
    if b == [] then []
    else
      var init, last := b[..|b| - 1], b[|b| - 1];
      Put(MetaOf(init), last.key, Slot(Bytes(init), |last.value|))
  }

  predicate SlotsFit(meta: Meta, size: nat) {
    forall i :: 0 <= i < |meta| ==> meta[i].value.offset + meta[i].value.size <= size
  }

  /** The tensors a receiver slices out of a buffer. */
  function ReadOut(meta: Meta, buf: seq<Byte>): seq<Weight>
    requires SlotsFit(meta, |buf|)
  {
    seq(|meta|, i requires 0 <= i < |meta| =>
      Entry(meta[i].key, buf[meta[i].value.offset..meta[i].value.offset + meta[i].value.size]))
  }

  /** The buckets the send loop ships when `cur` is filled and `ws` is still to come. */
  function PackFrom(cur: seq<Weight>, ws: seq<Weight>, size: nat): (r: seq<seq<Weight>>)
    ensures |r| > 0 && cur <= r[0]
    decreases |ws|
  {
    if ws == [] then [cur]
    else if Bytes(cur) + |ws[0].value| > size then [cur] + PackFrom([ws[0]], ws[1..], size)
    else PackFrom(cur + [ws[0]], ws[1..], size)
  }

  function Pack(ws: seq<Weight>, size: nat): seq<seq<Weight>> {
    PackFrom([], ws, size)
  }

  predicate AllFit(ws: seq<Weight>, size: nat) {
    forall i :: 0 <= i < |ws| ==> |ws[i].value| <= size
  }

  /**
   Greedy packing without an algorithm: the buckets hold the tensors in order,
   none overflows, and no bucket could have taken the first tensor of the next.
   */
  ghost predicate IsGreedyPacking(bs: seq<seq<Weight>>, ws: seq<Weight>, size: nat) {
    && |bs| > 0
    && Concat(bs) == ws
    && (forall k :: 0 <= k < |bs| ==> Bytes(bs[k]) <= size)
    && (forall k :: 0 < k < |bs| ==> bs[k] != [] && Bytes(bs[k - 1]) + |bs[k][0].value| > size)
  }

  /** All tensors the receivers are given, in order. */
  function Stream(ws: seq<Weight>, size: nat): seq<Weight> {
    StreamOf(Pack(ws, size))
  }

  function StreamOf(bs: seq<seq<Weight>>): seq<Weight> {
    if bs == [] then [] else StreamOf(bs[..|bs| - 1]) + FromItems(bs[|bs| - 1])
  }

  // ---- bytes of one bucket

  lemma BytesAppend(b: seq<Weight>, w: Weight)
    ensures Bytes(b + [w]) == Bytes(b) + |w.value|
    ensures Flat(b + [w]) == Flat(b) + w.value
  {
    assert (b + [w])[..|b|] == b;
  }

  lemma FlatPrefix(b: seq<Weight>, w: Weight, buf: seq<Byte>)
    requires Flat(b + [w]) <= buf
    ensures Flat(b) <= buf
  {
    BytesAppend(b, w);
    PrefixOfSum(Flat(b), w.value, buf);
  }

  /** The slot of the tensor that was added last cuts out its bytes. */
  lemma LastSlot(b: seq<Weight>, w: Weight, buf: seq<Byte>)
    requires Flat(b + [w]) <= buf
    ensures Bytes(b) + |w.value| <= |buf| && buf[Bytes(b)..Bytes(b) + |w.value|] == w.value
  {
    BytesAppend(b, w);
    PartOfSum(Flat(b), Bytes(b), w.value, buf);
  }

  /** Writing a tensor at the running offset extends what the buffer holds. */
  lemma FlatWrite(b: seq<Weight>, w: Weight, buf: seq<Byte>, buf': seq<Byte>)
    requires Flat(b) <= buf && |buf'| == |buf|
    requires Bytes(b) + |w.value| <= |buf|
    requires buf' == buf[..Bytes(b)] + w.value + buf[Bytes(b) + |w.value|..]
    ensures Flat(b + [w]) <= buf'
  {
    BytesAppend(b, w);
    OverwriteExtends(Flat(b), w.value, buf, buf');
  }

  lemma {:induction false} SlotsFitInBucket(b: seq<Weight>)
    ensures SlotsFit(MetaOf(b), Bytes(b))
  {
    if b != [] {
      SlotsFitInBucket(b[..|b| - 1]);
    }
  }

  /** Two slots have no byte in common. */
  predicate Apart(s: Slot, t: Slot) {
    s.offset + s.size <= t.offset || t.offset + t.size <= s.offset
  }

  predicate AllApart(meta: Meta) {
    forall i, j :: 0 <= i < j < |meta| ==> Apart(meta[i].value, meta[j].value)
  }

  /** The regions of a bucket are disjoint, whether or not a name was stored twice. */
  lemma {:induction false} SlotsAreDisjoint(b: seq<Weight>)
    ensures DistinctKeys(MetaOf(b)) && AllApart(MetaOf(b))
  {
    if b != [] {
      var init, last := b[..|b| - 1], b[|b| - 1];
      SlotsAreDisjoint(init);
      SlotsFitInBucket(init);
      PutKeys(MetaOf(init), last.key, Slot(Bytes(init), |last.value|), last.key);
      PutApart(MetaOf(init), last.key, Slot(Bytes(init), |last.value|));
    }
  }

  /** A slot behind all others may take the place of any of them. */
  lemma PutApart(meta: Meta, name: string, slot: Slot)
    requires DistinctKeys(meta) && AllApart(meta) && SlotsFit(meta, slot.offset)
    ensures AllApart(Put(meta, name, slot))
  {
  }

  /** With distinct names entry `i` of the metadata is tensor `i`, at the bytes of the tensors before it. */
  lemma {:induction false} SlotAt(b: seq<Weight>, i: nat)
    requires DistinctKeys(b) && i < |b|
    ensures |MetaOf(b)| == |b| && MetaOf(b)[i] == Entry(b[i].key, Slot(Bytes(b[..i]), |b[i].value|))
  {
    var init, last := b[..|b| - 1], b[|b| - 1];
    forall j | 0 <= j < |init| ensures |MetaOf(init)| == |init| && MetaOf(init)[j].key == b[j].key {
      SlotAt(init, j);
    }
    assert |MetaOf(init)| == |init| && !HasKey(MetaOf(init), last.key);
    if i < |init| {
      SlotAt(init, i);
      assert init[..i] == b[..i];
    }
  }

  /** Then the regions are contiguous: they begin at 0, each where the one before it ends, and end at the last byte. */
  lemma SlotsAreContiguous(b: seq<Weight>, i: nat)
    requires DistinctKeys(b) && i < |b|
    ensures |MetaOf(b)| == |b| && (i == 0 ==> MetaOf(b)[0].value.offset == 0)
    ensures MetaOf(b)[i].value.offset + MetaOf(b)[i].value.size
         == if i + 1 < |b| then MetaOf(b)[i + 1].value.offset else Bytes(b)
  {
    SlotAt(b, i);
    TakeStep(b, i);
    BytesAppend(b[..i], b[i]);
    if i + 1 < |b| {
      SlotAt(b, i + 1);
    } else {
      assert b[..i + 1] == b;
    }
  }

  /**
   The bucket's metadata and bytes give back exactly the dict of its tensors:
   every slot cuts out the tensor last stored under that name.
   */
  lemma {:induction false} ReadOutIsItems(b: seq<Weight>, buf: seq<Byte>)
    requires Flat(b) <= buf
    ensures SlotsFit(MetaOf(b), Bytes(b)) && SlotsFit(MetaOf(b), |buf|)
    ensures ReadOut(MetaOf(b), buf) == FromItems(b)
  {
    SlotsFitInBucket(b);
    if b != [] {
      var init, last := b[..|b| - 1], b[|b| - 1];
      assert b == init + [last];
      FlatPrefix(init, last, buf);
      LastSlot(init, last, buf);
      ReadOutIsItems(init, buf);
      ReadOutPut(MetaOf(init), last.key, Slot(Bytes(init), |last.value|), buf);
    }
  }

  lemma ReadOutPut(meta: Meta, name: string, slot: Slot, buf: seq<Byte>)
    requires SlotsFit(meta, |buf|) && slot.offset + slot.size <= |buf|
    ensures SlotsFit(Put(meta, name, slot), |buf|)
    ensures ReadOut(Put(meta, name, slot), buf)
         == Put(ReadOut(meta, buf), name, buf[slot.offset..slot.offset + slot.size])
  {
    var out := ReadOut(meta, buf);
    assert forall i :: 0 <= i < |meta| ==> out[i].key == meta[i].key;
    assert HasKey(out, name) <==> HasKey(meta, name);
  }

  // ---- the packing as a whole

  /** No tensor is lost, repeated or reordered by packing, whatever the bucket size. */
  lemma {:induction false} PackFromKeepsOrder(cur: seq<Weight>, ws: seq<Weight>, size: nat)
    ensures Concat(PackFrom(cur, ws, size)) == cur + ws
    decreases |ws|
  {
    if ws == [] {
      assert Concat([cur]) == cur;
    } else {
      assert ws == [ws[0]] + ws[1..];
      if Bytes(cur) + |ws[0].value| > size {
        PackFromKeepsOrder([ws[0]], ws[1..], size);
      } else {
        PackFromKeepsOrder(cur + [ws[0]], ws[1..], size);
        assert cur + [ws[0]] + ws[1..] == cur + ws;
      }
    }
  }

  lemma {:induction false} PackFromIsGreedy(cur: seq<Weight>, ws: seq<Weight>, size: nat)
    requires Bytes(cur) <= size && AllFit(ws, size)
    ensures IsGreedyPacking(PackFrom(cur, ws, size), cur + ws, size)
    decreases |ws|
  {
    if ws == [] {
      assert Concat([cur]) == cur;
    } else {
      var w, rest := ws[0], ws[1..];
      assert ws == [w] + rest;
      if Bytes(cur) + |w.value| > size {
        assert Bytes([w]) == |w.value| by { assert [w][..0] == []; }
        PackFromIsGreedy([w], rest, size);
      } else {
        BytesAppend(cur, w);
        PackFromIsGreedy(cur + [w], rest, size);
        assert cur + [w] + rest == cur + ws;
      }
    }
  }

  /**
   The send loop in the middle of its work: `cur` is being filled to become
   bucket `k` of `bs`, and the tensors `ws` are still to come.
   */
  predicate Filling(bs: seq<seq<Weight>>, size: nat, k: nat, cur: seq<Weight>, ws: seq<Weight>) {
    k < |bs| && bs[k..] == PackFrom(cur, ws, size)
  }

  lemma FillingStore(bs: seq<seq<Weight>>, size: nat, k: nat, cur: seq<Weight>, ws: seq<Weight>)
    requires Filling(bs, size, k, cur, ws) && ws != [] && Bytes(cur) + |ws[0].value| <= size
    ensures Filling(bs, size, k, cur + [ws[0]], ws[1..])
  {
  }

  /** Shipping `cur`: it is bucket `k`, and it is the last one exactly at the end of the weights. */
  lemma FillingFlush(bs: seq<seq<Weight>>, size: nat, k: nat, cur: seq<Weight>, ws: seq<Weight>)
    requires Filling(bs, size, k, cur, ws)
    requires ws != [] ==> Bytes(cur) + |ws[0].value| > size
    ensures bs[k] == cur
    ensures ws == [] ==> k + 1 == |bs|
    ensures ws != [] ==> k + 1 < |bs|
    ensures ws != [] && |ws[0].value| <= size ==> Filling(bs, size, k + 1, [], ws)
  {
    assert bs[k] == bs[k..][0];
    assert bs[k + 1..] == bs[k..][1..];
    if ws != [] {
      assert bs[k + 1..] == PackFrom([ws[0]], ws[1..], size);
      assert [] + [ws[0]] == [ws[0]];
    }
  }

  /** What has been shipped and what is in the bucket are the tensors so far. */
  lemma FillingProgress(all: seq<Weight>, size: nat, k: nat, cur: seq<Weight>, i: nat)
    requires i <= |all| && Filling(Pack(all, size), size, k, cur, all[i..])
    ensures Concat(Pack(all, size)[..k]) + cur == all[..i]
  {
    var bs := Pack(all, size);
    PackFromKeepsOrder([], all, size);
    PackFromKeepsOrder(cur, all[i..], size);
    ConcatSum(bs[..k], bs[k..]);
    assert bs == bs[..k] + bs[k..] && [] + all == all;
    CancelSuffix(Concat(bs[..k]), cur, all[i..], all, i);
  }

  predicate FitUpTo(ws: seq<Weight>, size: nat, i: nat)
    requires i <= |ws|
  {
    forall j :: 0 <= j < i ==> |ws[j].value| <= size
  }

  /** The first tensor that is larger than a bucket. */
  predicate FirstTooLarge(ws: seq<Weight>, size: nat, i: nat) {
    i < |ws| && |ws[i].value| > size && FitUpTo(ws, size, i)
  }

  /** `k` buckets are exactly the tensors before the first one that is too large. */
  ghost predicate StoppedAfter(ws: seq<Weight>, size: nat, k: nat) {
    k <= |Pack(ws, size)| && exists i: nat :: FirstTooLarge(ws, size, i) && Concat(Pack(ws, size)[..k]) == ws[..i]
  }

  /** Shipping the bucket in front of a tensor that is too large ships all tensors before it. */
  lemma StopsAtTooLarge(ws: seq<Weight>, size: nat, k: nat, cur: seq<Weight>, i: nat)
    requires i <= |ws| && Filling(Pack(ws, size), size, k, cur, ws[i..])
    ensures FirstTooLarge(ws, size, i) ==> StoppedAfter(ws, size, k + 1)
  {
    if FirstTooLarge(ws, size, i) {
      var bs := Pack(ws, size);
      assert ws[i..][0] == ws[i];
      FillingFlush(bs, size, k, cur, ws[i..]);
      FillingProgress(ws, size, k, cur, i);
      assert bs[..k + 1] == bs[..k] + [bs[k]];
      ConcatAppend(bs[..k], bs[k]);
    }
  }

  /** A greedy packing is unique. */
  lemma {:induction false} GreedyIsPackFrom(bs: seq<seq<Weight>>, cur: seq<Weight>, ws: seq<Weight>, size: nat)
    requires IsGreedyPacking(bs, cur + ws, size)
    requires cur <= bs[0]
    ensures bs == PackFrom(cur, ws, size)
    decreases |ws|
  {
    var more, rest := bs[0][|cur|..], Concat(bs[1..]);
    assert bs[0] == cur + more && (more == [] ==> bs[0] == cur);
    CancelPrefix(cur, more, rest, ws);
    if more != [] {
      BytesMonotone(cur + [more[0]], bs[0]);
      BytesAppend(cur, ws[0]);
      MoveFirst(cur, ws);
      GreedyIsPackFrom(bs, cur + [ws[0]], ws[1..], size);
    } else if |bs| > 1 {
      GreedyTail(bs, cur + ws, size);
      assert ws == rest && [ws[0]] + ws[1..] == ws;
      GreedyIsPackFrom(bs[1..], [ws[0]], ws[1..], size);
      assert bs == [cur] + bs[1..];
    }
  }

  lemma GreedyTail(bs: seq<seq<Weight>>, ws: seq<Weight>, size: nat)
    requires IsGreedyPacking(bs, ws, size) && |bs| > 1
    ensures IsGreedyPacking(bs[1..], Concat(bs[1..]), size)
    ensures bs[1] != [] && Concat(bs[1..])[0] == bs[1][0]
  {
    assert Concat(bs[1..]) == bs[1] + Concat(bs[1..][1..]);
    var tail := bs[1..];
    assert forall k :: 0 < k < |tail| ==> tail[k] == bs[k + 1] && tail[k - 1] == bs[k];
  }

  lemma {:induction false} BytesMonotone(a: seq<Weight>, b: seq<Weight>)
    requires a <= b
    ensures Bytes(a) <= Bytes(b)
    decreases |b|
  {
    if |a| < |b| {
      BytesMonotone(a, b[..|b| - 1]);
    } else {
      assert a == b;
    }
  }

  /** The send loop's buckets are the one greedy packing: complete, in order, and maximal. */
  lemma PackIsTheGreedyPacking(ws: seq<Weight>, size: nat, bs: seq<seq<Weight>>)
    requires AllFit(ws, size)
    ensures IsGreedyPacking(bs, ws, size) <==> bs == Pack(ws, size)
  {
    PackFromIsGreedy([], ws, size);
    assert [] + ws == ws;
    if IsGreedyPacking(bs, ws, size) {
      GreedyIsPackFrom(bs, [], ws, size);
    }
  }

  /** No bucket but a lone one is empty. */
  lemma OnlyALoneBucketIsEmpty(ws: seq<Weight>, size: nat, k: nat)
    requires AllFit(ws, size) && k < |Pack(ws, size)|
    ensures Pack(ws, size)[k] == [] ==> k == 0 && |Pack(ws, size)| == 1 && ws == []
  {
    var bs := Pack(ws, size);
    PackIsTheGreedyPacking(ws, size, bs);
    if bs[k] == [] {
      assert k == 0;
      if |bs| > 1 {
        assert Bytes(bs[0]) + |bs[1][0].value| > size;
        ConcatMember(bs, 1, 0);
      } else {
        assert bs == [[]];
        assert ws == Concat(bs) == [] + Concat(bs[1..]);
      }
    }
  }

  // ---- what the receivers get

  lemma StreamOfAppend(bs: seq<seq<Weight>>, k: nat)
    requires k < |bs|
    ensures StreamOf(bs[..k + 1]) == StreamOf(bs[..k]) + FromItems(bs[k])
  {
    assert bs[..k + 1][..k] == bs[..k];
  }

  lemma {:induction false} StreamOfIsConcat(bs: seq<seq<Weight>>)
    ensures |StreamOf(bs)| <= |Concat(bs)|
    ensures StreamOf(bs) == Concat(bs) <==> forall k :: 0 <= k < |bs| ==> DistinctKeys(bs[k])
    ensures StreamOf(bs) != Concat(bs) ==> |StreamOf(bs)| < |Concat(bs)|
  {
    if bs != [] {
      var init, last := bs[..|bs| - 1], bs[|bs| - 1];
      assert bs == init + [last];
      StreamOfIsConcat(init);
      ConcatAppend(init, last);
      FromItemsIsIdentity(last);
      assert StreamOf(bs) == StreamOf(init) + FromItems(last);
    }
  }

  /**
   Packing, shipping and slicing is the identity on the weights exactly when no
   two tensors of one bucket share a name; otherwise tensors are lost.
   */
  lemma StreamIsIdentity(ws: seq<Weight>, size: nat)
    ensures Stream(ws, size) == ws <==>
            forall k :: 0 <= k < |Pack(ws, size)| ==> DistinctKeys(Pack(ws, size)[k])
    ensures Stream(ws, size) != ws ==> |Stream(ws, size)| < |ws|
  {
    PackFromKeepsOrder([], ws, size);
    StreamOfIsConcat(Pack(ws, size));
  }

  lemma {:induction false} DistinctParts(bs: seq<seq<Weight>>, k: nat)
    requires DistinctKeys(Concat(bs)) && k < |bs|
    ensures DistinctKeys(bs[k])
  {
    var whole, rest := Concat(bs), Concat(bs[1..]);
    assert whole == bs[0] + rest;
    if k == 0 {
      assert forall i :: 0 <= i < |bs[0]| ==> whole[i] == bs[0][i];
    } else {
      assert forall i :: 0 <= i < |rest| ==> whole[|bs[0]| + i] == rest[i];
      DistinctParts(bs[1..], k - 1);
    }
  }

  /** Distinct tensor names are enough. */
  lemma DistinctNamesArriveUnchanged(ws: seq<Weight>, size: nat)
    requires DistinctKeys(ws)
    ensures Stream(ws, size) == ws
  {
    var bs := Pack(ws, size);
    PackFromKeepsOrder([], ws, size);
    forall k | 0 <= k < |bs| ensures DistinctKeys(bs[k]) {
      DistinctParts(bs, k);
    }
    StreamIsIdentity(ws, size);
  }

  /** Two tensors of one name in one bucket: the receivers are given the second one only. */
  lemma RepeatedNameIsLost(name: string, first: seq<Byte>, second: seq<Byte>, size: nat)
    requires |first| + |second| <= size
    ensures Stream([Entry(name, first), Entry(name, second)], size) == [Entry(name, second)]
  {
    var none: seq<Weight>, a, b := [], Entry(name, first), Entry(name, second);
    var ws: seq<Weight>, buckets := [a, b], [[a, b]];
    BytesAppend(none, a);
    assert none + [a] == [a] && [a] + [b] == ws && ws[1..] == [b];
    assert Pack(ws, size) == PackFrom([a], [b], size) == PackFrom(ws, [], size) == buckets;
    assert ws[..1] == [a] && [a][..0] == none;
    assert FromItems([a]) == [a];
    assert FromItems(ws) == Put([a], name, second) == [b];
    assert buckets[..0] == [] && StreamOf(buckets) == none + FromItems(ws);
  }
}
