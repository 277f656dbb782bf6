/**
 The NCCL checkpoint engine: the trainer fills one of two buffers while the
 other is being broadcast; a rollout rank unpacks one while the other is being
 filled by the next broadcast.
 */
module NcclEngine {
  import opened Common
  import opened OrderedDict
  import opened Packing

  /** The metadata published next to every broadcast. */
  datatype Message = Message(bucketMeta: Meta, isLast: bool)

  /** What one collective broadcast hands to every rollout rank. */
  datatype Broadcast = Broadcast(message: Message, bytes: seq<Byte>)

  /** A broadcast that carries bucket `b` in a buffer of `size` bytes. */
  predicate Ships(c: Broadcast, b: seq<Weight>, isLast: bool, size: nat) {
    c.message == Message(MetaOf(b), isLast) && Flat(b) <= c.bytes && |c.bytes| == size
  }

  /** The broadcasts carry the buckets one for one, and only the final one says so. */
  predicate Shipped(log: seq<Broadcast>, bs: seq<seq<Weight>>, size: nat) {
    |log| == |bs| && forall k :: 0 <= k < |bs| ==> Ships(log[k], bs[k], k == |bs| - 1, size)
  }

  /** What is delivered while the send loop runs: non-final buckets, in order. */
  predicate ShippedSoFar(log: seq<Broadcast>, bs: seq<seq<Weight>>, size: nat) {
    |log| < |bs| && forall k :: 0 <= k < |log| ==> Ships(log[k], bs[k], false, size)
  }

  /**
   The sending side of a broadcast, which runs on another thread: any byte of
   the bucket may be read as early as the launch and as late as the wait.
   */
  class BroadcastOperation {
    const bucket: array<Byte>
    const metadata: Message
    ghost const launched: seq<Byte>
    const early: map<nat, Byte>

    constructor (bucket: array<Byte>, metadata: Message)
      ensures this.bucket == bucket && this.metadata == metadata
      ensures launched == bucket[..]
      ensures forall i :: i in early ==> i < bucket.Length && early[i] == bucket[i]
    {
      var read: set<nat> := *;
      this.bucket := bucket;
      this.metadata := metadata;
      this.launched := bucket[..];
      this.early := map i: nat | 0 <= i < bucket.Length && i in read :: bucket[i];
    }

    ghost predicate Untouched()
      reads this, bucket
    {
      bucket[..] == launched && forall i :: i in early ==> i < bucket.Length && early[i] == launched[i]
    }

    method WaitForComplete() returns (c: Broadcast)
      requires Untouched()
      ensures c == Broadcast(metadata, launched)
    {
      var bytes := seq(bucket.Length, i requires 0 <= i < bucket.Length reads this, bucket =>
        if i in early then early[i] else bucket[i]);
      assert bytes == bucket[..];
      c := Broadcast(metadata, bytes);
    }
  }

  /** `dst[offset : offset + len(data)] = data` */
  method CopyInto(dst: array<Byte>, offset: nat, data: seq<Byte>)
    requires offset + |data| <= dst.Length
    modifies dst
    ensures dst[..] == old(dst[..offset]) + data + old(dst[offset + |data|..])
  {
    forall i | 0 <= i < |data| {
      dst[offset + i] := data[i];
    }
  }

  /**
   Part of an inbound broadcast landing in `dst`: each byte either arrives now
   or keeps its old value for the time being.
   */
  method ReceiveSome(dst: array<Byte>, bytes: seq<Byte>)
    requires |bytes| == dst.Length
    modifies dst
    ensures forall i :: 0 <= i < dst.Length ==> dst[i] == old(dst[i]) || dst[i] == bytes[i]
  {
    var arriving: set<nat> := *;
    forall i | 0 <= i < dst.Length && i in arriving {
      dst[i] := bytes[i];
    }
  }

  /** The inbound broadcast is complete. */
  method ReceiveAll(dst: array<Byte>, bytes: seq<Byte>)
    requires |bytes| == dst.Length
    modifies dst
    ensures dst[..] == bytes
  {
    CopyInto(dst, 0, bytes);
  }

  class NCCLCheckpointEngine {
    const bucketSize: nat
    const sendBuf: array<Byte>
    const recvBuf: array<Byte>

    constructor (bucketSize: nat)
      ensures Valid() && this.bucketSize == bucketSize
      ensures fresh(sendBuf) && fresh(recvBuf)
    {
      this.bucketSize := bucketSize;
      this.sendBuf := new Byte[bucketSize](_ => 0);
      this.recvBuf := new Byte[bucketSize](_ => 0);
    }

    predicate Valid() {
      sendBuf != recvBuf && sendBuf.Length == recvBuf.Length == bucketSize
    }

    /** The first `k` buckets are launched; all are delivered except that the last may be in flight from `recv`. */
    ghost predicate InFlight(op: BroadcastOperation?, recv: array<Byte>, log: seq<Broadcast>,
                             bs: seq<seq<Weight>>, k: nat)
      reads recv, op
    {
      && ShippedSoFar(log, bs, bucketSize)
      && k < |bs|
      && (op == null <==> k == 0)
      && |log| == (if op == null then 0 else k - 1)
      && (op != null ==>
            && op.bucket == recv && op.Untouched()
            && Ships(Broadcast(op.metadata, op.launched), bs[k - 1], false, bucketSize))
    }

    /** The send loop between two tensors: `cur` is being filled to become bucket `k`, `ws` is still to come. */
    ghost predicate Sending(send: array<Byte>, recv: array<Byte>, op: BroadcastOperation?, bucketMeta: Meta,
                            offset: nat, log: seq<Broadcast>, bs: seq<seq<Weight>>, k: nat,
                            cur: seq<Weight>, ws: seq<Weight>)
      reads send, recv, op
    {
      && send.Length == recv.Length == bucketSize && send != recv
      && bucketMeta == MetaOf(cur) && offset == Bytes(cur) <= bucketSize && Flat(cur) <= send[..]
      && Filling(bs, bucketSize, k, cur, ws) && InFlight(op, recv, log, bs, k)
    }

    /** Add the next tensor to the bucket being filled. */
    method Store(send: array<Byte>, ghost recv: array<Byte>, ghost op: BroadcastOperation?, bucketMeta: Meta,
                 offset: nat, weight: Weight, ghost log: seq<Broadcast>, ghost bs: seq<seq<Weight>>, ghost k: nat,
                 ghost cur: seq<Weight>, ghost ws: seq<Weight>)
      returns (bucketMeta': Meta, offset': nat)
      requires Sending(send, recv, op, bucketMeta, offset, log, bs, k, cur, ws)
      requires ws != [] && ws[0] == weight && offset + |weight.value| <= bucketSize
      modifies send
      ensures Sending(send, recv, op, bucketMeta', offset', log, bs, k, cur + [weight], ws[1..])
    {
      FillingStore(bs, bucketSize, k, cur, ws);
      assert (cur + [weight])[..|cur|] == cur;
      BytesAppend(cur, weight);
      bucketMeta' := Put(bucketMeta, weight.key, Slot(offset, |weight.value|));
      CopyInto(send, offset, weight.value);
      FlatWrite(cur, weight, old(send[..]), send[..]);
      offset' := offset + |weight.value|;
    }

    /** Wait for the previous broadcast, if there is one, and launch the bucket that has been filled. */
    method Launch(send: array<Byte>, ghost recv: array<Byte>, previous: BroadcastOperation?, bucketMeta: Meta,
                  offset: nat, isLast: bool, log: seq<Broadcast>, ghost bs: seq<seq<Weight>>, ghost k: nat,
                  ghost cur: seq<Weight>, ghost ws: seq<Weight>)
      returns (op: BroadcastOperation, log': seq<Broadcast>)
      requires Sending(send, recv, previous, bucketMeta, offset, log, bs, k, cur, ws)
      requires if isLast then ws == [] else ws != [] && offset + |ws[0].value| > bucketSize
      ensures op.bucket == send && op.Untouched() && |log'| == k
      ensures ShippedSoFar(log', bs, bucketSize)
      ensures isLast ==> Shipped(log' + [Broadcast(op.metadata, op.launched)], bs, bucketSize)
      ensures !isLast && |ws[0].value| <= bucketSize ==>
              Sending(recv, send, op, [], 0, log', bs, k + 1, [], ws)
    {
      FillingFlush(bs, bucketSize, k, cur, ws);
      log' := log;
      if previous != null {
        var c := previous.WaitForComplete();
        log' := log + [c];
      }
      op := new BroadcastOperation(send, Message(bucketMeta, isLast));
    }

    /**
     Before a tensor is stored: if it does not fit into what is left of the bucket,
     ship the bucket and swap the buffers. Fails on a tensor larger than a bucket.
     */
    method MakeRoom(send: array<Byte>, recv: array<Byte>, op: BroadcastOperation?, bucketMeta: Meta, offset: nat,
                    weight: Weight, log: seq<Broadcast>, ghost bs: seq<seq<Weight>>, ghost k: nat,
                    ghost cur: seq<Weight>, ghost ws: seq<Weight>)
      returns (ok: bool, send': array<Byte>, recv': array<Byte>, op': BroadcastOperation?, bucketMeta': Meta,
               offset': nat, log': seq<Broadcast>, ghost k': nat, ghost cur': seq<Weight>)
      requires Sending(send, recv, op, bucketMeta, offset, log, bs, k, cur, ws) && ws != [] && ws[0] == weight
      ensures ok <==> |weight.value| <= bucketSize
      ensures (send' == send && recv' == recv) || (send' == recv && recv' == send)
      ensures ok ==> Sending(send', recv', op', bucketMeta', offset', log', bs, k', cur', ws)
      ensures ok ==> offset' + |weight.value| <= bucketSize
      ensures ShippedSoFar(log', bs, bucketSize) && (!ok ==> |log'| == k)
    {
      ok, send', recv', op', bucketMeta', offset', log' := true, send, recv, op, bucketMeta, offset, log;
      k', cur' := k, cur;
      if offset + |weight.value| > bucketSize {
        op', log' := Launch(send, recv, op, bucketMeta, offset, false, log, bs, k, cur, ws);
        send', recv', bucketMeta', offset' := recv, send, [], 0;
        k', cur' := k + 1, [];
        ok := |weight.value| <= bucketSize;
      }
    }

    /** One turn of the send loop: make room for the tensor and store it. */
    method Add(send: array<Byte>, recv: array<Byte>, op: BroadcastOperation?, bucketMeta: Meta, offset: nat,
               weight: Weight, log: seq<Broadcast>, ghost bs: seq<seq<Weight>>, ghost k: nat,
               ghost cur: seq<Weight>, ghost ws: seq<Weight>)
      returns (ok: bool, send': array<Byte>, recv': array<Byte>, op': BroadcastOperation?, bucketMeta': Meta,
               offset': nat, log': seq<Broadcast>, ghost k': nat, ghost cur': seq<Weight>)
      requires Sending(send, recv, op, bucketMeta, offset, log, bs, k, cur, ws) && ws != [] && ws[0] == weight
      modifies send, recv
      ensures ok <==> |weight.value| <= bucketSize
      ensures (send' == send && recv' == recv) || (send' == recv && recv' == send)
      ensures ok ==> Sending(send', recv', op', bucketMeta', offset', log', bs, k', cur', ws[1..])
      ensures ShippedSoFar(log', bs, bucketSize) && (!ok ==> |log'| == k)
    {
      ok, send', recv', op', bucketMeta', offset', log', k', cur' :=
        MakeRoom(send, recv, op, bucketMeta, offset, weight, log, bs, k, cur, ws);
      if ok {
        bucketMeta', offset' := Store(send', recv', op', bucketMeta', offset', weight, log', bs, k', cur', ws);
        cur' := cur' + [weight];
      }
    }

    /** After the last tensor: ship what the bucket holds, flagged as last, and wait for it. */
    method Finish(send: array<Byte>, ghost recv: array<Byte>, op: BroadcastOperation?, bucketMeta: Meta, offset: nat,
                  log: seq<Broadcast>, ghost bs: seq<seq<Weight>>, ghost k: nat, ghost cur: seq<Weight>)
      returns (log': seq<Broadcast>)
      requires Sending(send, recv, op, bucketMeta, offset, log, bs, k, cur, [])
      ensures Shipped(log', bs, bucketSize)
    {
      var last;
      last, log' := Launch(send, recv, op, bucketMeta, offset, true, log, bs, k, cur, []);
      var c := last.WaitForComplete();
      log' := log' + [c];
    }

    /**
     Ship the weights in buckets. Stops with the source's assertion error
     (`ok` is false) at the first tensor that is larger than a bucket: then the
     buckets before it are launched, and all but the last of them delivered.
     */
    method SendWeights(weights: seq<Weight>) returns (ok: bool, log: seq<Broadcast>)
      requires Valid()
      modifies sendBuf, recvBuf
      ensures ok <==> AllFit(weights, bucketSize)
      ensures ok ==> Shipped(log, Pack(weights, bucketSize), bucketSize)
      ensures !ok ==> ShippedSoFar(log, Pack(weights, bucketSize), bucketSize)
      ensures !ok ==> StoppedAfter(weights, bucketSize, |log| + 1)
    {
      var send, recv := sendBuf, recvBuf;
      var op: BroadcastOperation? := null;
      var bucketMeta: Meta, offset: nat := [], 0;
      log := [];
      ghost var cur: seq<Weight>, k: nat := [], 0;
      ghost var bs := Pack(weights, bucketSize);
      assert weights[0..] == weights && bs[0..] == bs;
      var i := 0;
      while i < |weights|
        invariant 0 <= i <= |weights| && FitUpTo(weights, bucketSize, i)
        invariant (send == sendBuf && recv == recvBuf) || (send == recvBuf && recv == sendBuf)
        invariant Sending(send, recv, op, bucketMeta, offset, log, bs, k, cur, weights[i..])
      {
        DropStep(weights, i);
        StopsAtTooLarge(weights, bucketSize, k, cur, i);
        ok, send, recv, op, bucketMeta, offset, log, k, cur :=
          Add(send, recv, op, bucketMeta, offset, weights[i], log, bs, k, cur, weights[i..]);
        if !ok {
          return false, log;
        }
        i := i + 1;
      }
      assert weights[i..] == [];
      log := Finish(send, recv, op, bucketMeta, offset, log, bs, k, cur);
      ok := true;
    }

    /** Yield the tensors of the bucket in `buf`, in the order of its metadata. */
    method YieldTensors(buf: array<Byte>, bucketMeta: Meta, ghost b: seq<Weight>) returns (out: seq<Weight>)
      requires bucketMeta == MetaOf(b) && Flat(b) <= buf[..]
      ensures out == FromItems(b)
    {
      ReadOutIsItems(b, buf[..]);
      ghost var all := ReadOut(bucketMeta, buf[..]);
      out := [];
      for i := 0 to |bucketMeta|
        invariant out == all[..i]
      {
        var slot := bucketMeta[i].value;
        out := out + [Entry(bucketMeta[i].key, buf[slot.offset..slot.offset + slot.size])];
      }
    }

    /** Unpack the broadcasts of one weight update. */
    method ReceiveWeights(log: seq<Broadcast>, ghost bs: seq<seq<Weight>>) returns (out: seq<Weight>)
      requires Valid() && bs != [] && Shipped(log, bs, bucketSize)
      modifies sendBuf, recvBuf
      ensures out == StreamOf(bs)
    {
      var send, recv := sendBuf, recvBuf;
      ReceiveSome(recv, log[0].bytes);
      ReceiveAll(recv, log[0].bytes);
      var metadata, k := log[0].message, 0;
      send, recv := recv, send;
      out := [];
      while !metadata.isLast
        invariant 0 <= k < |bs| && metadata == log[k].message
        invariant (send == sendBuf && recv == recvBuf) || (send == recvBuf && recv == sendBuf)
        invariant send[..] == log[k].bytes && recv.Length == bucketSize
        invariant out == StreamOf(bs[..k])
        decreases |bs| - k
      {
        ReceiveSome(recv, log[k + 1].bytes);
        var tensors := YieldTensors(send, metadata.bucketMeta, bs[k]);
        StreamOfAppend(bs, k);
        out := out + tensors;
        ReceiveAll(recv, log[k + 1].bytes);
        metadata := log[k + 1].message;
        send, recv := recv, send;
        k := k + 1;
      }
      var tensors := YieldTensors(send, metadata.bucketMeta, bs[k]);
      StreamOfAppend(bs, k);
      assert bs[..k + 1] == bs;
      out := out + tensors;
    }
  }

  /** One weight update between the trainer and any one rollout rank. */
  method UpdateWeights(trainer: NCCLCheckpointEngine, rollout: NCCLCheckpointEngine, weights: seq<Weight>)
    returns (ok: bool, received: seq<Weight>)
    requires trainer.Valid() && rollout.Valid() && trainer.bucketSize == rollout.bucketSize
    modifies trainer.sendBuf, trainer.recvBuf, rollout.sendBuf, rollout.recvBuf
    ensures ok <==> AllFit(weights, trainer.bucketSize)
    ensures ok ==> received == Stream(weights, trainer.bucketSize)
    ensures ok && DistinctKeys(weights) ==> received == weights
  {
    var log;
    ok, log := trainer.SendWeights(weights);
    received := [];
    if ok {
      PackIsTheGreedyPacking(weights, trainer.bucketSize, Pack(weights, trainer.bucketSize));
      received := rollout.ReceiveWeights(log, Pack(weights, trainer.bucketSize));
      if DistinctKeys(weights) {
        DistinctNamesArriveUnchanged(weights, trainer.bucketSize);
      }
    }
  }
}
