/** Safety of the NIXL chain: what every step of every rank keeps. */
module NixlSafety {
  import opened Common
  import opened OrderedDict
  import opened Packing
  import opened NixlChain

  lemma {:induction false} AllBytesAre(size: nat)
    ensures |AllBytes(size)| == size
    ensures forall i: nat :: i in AllBytes(size) <==> i < size
  {
    if size > 0 {
      AllBytesAre(size - 1);
    }
  }

  lemma InitInv(c: Config)
    requires c.rollouts > 0
    ensures Inv(c, Init(c))
  {
    var bs := c.Buckets();
    assert c.weights[0..] == c.weights && bs[0..] == bs;
  }

  // ---- the trainer

  lemma StoreKeepsNode(c: Config, u: Node)
    requires TrainerInv(c, u) && u.pc == Filling && u.idx < |c.weights| && !Overflows(c, u)
    ensures TrainerInv(c, StoreMove(c, u).node)
  {
    StoreKeepsFilling(c, u, c.Buckets());
    OtherBufferKept(u, u.send, StoreMove(c, u).node);
  }

  lemma StoreKeepsFilling(c: Config, u: Node, bs: seq<seq<Weight>>)
    requires BuffersOk(c, u) && u.idx < |c.weights| && !Overflows(c, u) && FillingInv(c, u, bs)
    ensures BuffersOk(c, StoreMove(c, u).node) && FillingInv(c, StoreMove(c, u).node, bs)
  {
    var w, u' := c.weights[u.idx], StoreMove(c, u).node;
    FillingStore(bs, c.size, u.ops, u.cur, c.weights[u.idx..]);
    assert c.weights[u.idx..][1..] == c.weights[u.idx + 1..];
    assert (u.cur + [w])[..|u.cur|] == u.cur;
    FlatWrite(u.cur, w, u.Buf(u.send), u'.Buf(u.send));
    BytesAppend(u.cur, w);
  }

  /** Writing one buffer leaves what the other one holds. */
  lemma OtherBufferKept(u: Node, side: Side, u': Node)
    requires u'.Buf(side.Other()) == u.Buf(side.Other())
    ensures forall bs, k :: Holds(u, side.Other(), bs, k) ==> Holds(u', side.Other(), bs, k)
  {
  }

  lemma FlushKeepsNode(c: Config, u: Node)
    requires TrainerInv(c, u) && MustShip(c, u) && u.op.NoOp?
    ensures TrainerInv(c, FlushMove(c, u).node)
    ensures MetadataFor(FlushMove(c, u).toNext.value.metadata, c.Buckets(), u.ops)
  {
    FillingFlush(c.Buckets(), c.size, u.ops, u.cur, c.weights[u.idx..]);
    StopsAtTooLarge(c.weights, c.size, u.ops, u.cur, u.idx);
  }

  // ---- a rollout rank's own state

  lemma ReadMetadataKeepsNode(c: Config, u: Node, hasNext: bool)
    requires RolloutInv(c, u, hasNext) && (u.pc == AwaitFirst || u.pc == AwaitMeta) && u.inbox != []
    requires MetadataFor(u.inbox[0].metadata, c.Buckets(), u.got)
    ensures RolloutInv(c, ReadMetadataMove(c, u).node, hasNext)
  {
    var u' := ReadMetadataMove(c, u).node;
    if u.pc == AwaitMeta {
      ReadMetadataStartsYielding(c, u, hasNext, c.Buckets());
    } else {
      assert Receiving(u', c.Buckets(), 0);
    }
  }

  lemma ReadMetadataStartsYielding(c: Config, u: Node, hasNext: bool, bs: seq<seq<Weight>>)
    requires u.got > 0 && AwaitMetaInv(u, hasNext, bs, u.got - 1) && u.pc == AwaitMeta && u.inbox != []
    requires MetadataFor(u.inbox[0].metadata, bs, u.got)
    ensures YieldingInv(ReadMetadataMove(c, u).node, hasNext, bs, u.got - 1)
  {
    assert FromItems(bs[u.got - 1])[..0] == [];
  }

  lemma AwaitReadKeepsNode(c: Config, u: Node, hasNext: bool)
    requires RolloutInv(c, u, hasNext) && (u.pc == FirstRead || u.pc == WaitRead) && u.read == Complete
    ensures RolloutInv(c, AwaitReadMove(u).node, hasNext)
  {
  }

  lemma ForwardKeepsNode(c: Config, u: Node, hasNext: bool)
    requires RolloutInv(c, u, hasNext) && u.pc == Head
    ensures RolloutInv(c, ForwardMove(u, hasNext).node, hasNext)
  {
    if u.metadata.isLast {
      ForwardLast(u, hasNext, c.Buckets(), Current(u));
    } else {
      ForwardMore(u, hasNext, c.Buckets(), Current(u));
    }
  }

  lemma ForwardLast(u: Node, hasNext: bool, bs: seq<seq<Weight>>, k: int)
    requires HeadInv(u, hasNext, bs, k) && u.metadata.isLast
    ensures YieldingInv(ForwardMove(u, hasNext).node, hasNext, bs, k)
  {
    assert FromItems(bs[k])[..0] == [];
  }

  lemma ForwardMore(u: Node, hasNext: bool, bs: seq<seq<Weight>>, k: int)
    requires HeadInv(u, hasNext, bs, k) && !u.metadata.isLast
    ensures AwaitMetaInv(ForwardMove(u, hasNext).node, hasNext, bs, k)
  {
  }

  /** One more tensor of bucket `k`, cut out of a buffer that holds it. */
  lemma YieldedItem(bs: seq<seq<Weight>>, k: nat, pos: nat, buf: seq<Byte>, yielded: seq<Weight>)
    requires k < |bs| && Flat(bs[k]) <= buf && pos < |MetaOf(bs[k])|
    requires pos <= |FromItems(bs[k])| && yielded == StreamOf(bs[..k]) + FromItems(bs[k])[..pos]
    ensures |FromItems(bs[k])| == |MetaOf(bs[k])|
    ensures var e := MetaOf(bs[k])[pos];
            && e.value.offset + e.value.size <= |buf|
            && yielded + [Entry(e.key, buf[e.value.offset..e.value.offset + e.value.size])]
               == StreamOf(bs[..k]) + FromItems(bs[k])[..pos + 1]
  {
    ReadOutIsItems(bs[k], buf);
    var items := FromItems(bs[k]);
    assert items[pos] == ReadOut(MetaOf(bs[k]), buf)[pos];
    assert items[..pos + 1] == items[..pos] + [items[pos]];
  }

  lemma BucketYielded(bs: seq<seq<Weight>>, k: nat, buf: seq<Byte>)
    requires k < |bs| && Flat(bs[k]) <= buf
    ensures |FromItems(bs[k])| == |MetaOf(bs[k])|
    ensures StreamOf(bs[..k]) + FromItems(bs[k])[..|MetaOf(bs[k])|] == StreamOf(bs[..k + 1])
    ensures k == |bs| - 1 ==> StreamOf(bs[..k + 1]) == StreamOf(bs)
  {
    ReadOutIsItems(bs[k], buf);
    StreamOfAppend(bs, k);
    if k == |bs| - 1 {
      assert bs[..k + 1] == bs;
    }
  }

  lemma YieldKeepsNode(c: Config, u: Node, hasNext: bool)
    requires RolloutInv(c, u, hasNext) && u.pc == Yielding && Yieldable(u)
    ensures RolloutInv(c, YieldMove(u).node, hasNext)
  {
    YieldKeepsYielding(u, hasNext, c.Buckets(), Current(u));
  }

  lemma YieldKeepsYielding(u: Node, hasNext: bool, bs: seq<seq<Weight>>, k: nat)
    requires YieldingInv(u, hasNext, bs, k) && Yieldable(u)
    ensures YieldingInv(YieldMove(u).node, hasNext, bs, k)
  {
    YieldedItem(bs, k, u.pos, u.Buf(u.send), u.yielded);
  }

  lemma AwaitAckKeepsRollout(c: Config, u: Node, hasNext: bool)
    requires RolloutInv(c, u, hasNext) && u.pc == Yielding && u.pos == |u.metadata.bucketMeta|
    requires u.op.Readable? ==> u.acks != [] && u.acks[0] == u.op.notifyKey
    ensures RolloutInv(c, AwaitAckMove(u).node, hasNext)
  {
    if u.metadata.isLast {
      AckOfLast(u, hasNext, c.Buckets(), Current(u));
    } else {
      AckOfBucket(u, hasNext, c.Buckets(), Current(u));
    }
  }

  /** The acknowledgement that ends the yielding of bucket `k`, which is not the last one. */
  lemma AckOfBucket(u: Node, hasNext: bool, bs: seq<seq<Weight>>, k: nat)
    requires YieldingInv(u, hasNext, bs, k) && u.pc == Yielding && u.pos == |u.metadata.bucketMeta|
    requires u.op.Readable? ==> u.acks != [] && u.acks[0] == u.op.notifyKey
    requires !u.metadata.isLast
    ensures WaitReadInv(AwaitAckMove(u).node, hasNext, bs, k)
  {
    BucketYielded(bs, k, u.Buf(u.send));
  }

  lemma AckOfLast(u: Node, hasNext: bool, bs: seq<seq<Weight>>, k: nat)
    requires YieldingInv(u, hasNext, bs, k) && u.pc == Yielding && u.pos == |u.metadata.bucketMeta|
    requires u.op.Readable? ==> u.acks != [] && u.acks[0] == u.op.notifyKey
    requires u.metadata.isLast && u.got == k + 1
    ensures FinishedInv(AwaitAckMove(u).node, hasNext, bs)
  {
    BucketYielded(bs, k, u.Buf(u.send));
  }

  lemma CopyByteKeepsNode(c: Config, u: Node, hasNext: bool, i: nat, byte: Byte)
    requires RolloutInv(c, u, hasNext) && u.read.Active? && i < c.size
    ensures RolloutInv(c, CopyByteMove(u, i, byte).node, hasNext)
  {
    var u' := CopyByteMove(u, i, byte).node;
    assert u.read.to == u.send.Other() && (u.op.Readable? ==> u.op.descs == u.send);
    SendBufferKept(c, u, u', hasNext);
  }

  /** A rollout rank between the start and the end of a read only depends on its send buffer. */
  lemma SendBufferKept(c: Config, u: Node, u': Node, hasNext: bool)
    requires RolloutInv(c, u, hasNext) && u.read.Active? && u'.read.Active? && u'.read.to == u.read.to
    requires u' == u.(a := u'.a, b := u'.b, read := u'.read) && BuffersOk(c, u')
    requires u'.Buf(u.send) == u.Buf(u.send) && (u.op.Readable? ==> u.op.descs == u.send)
    ensures RolloutInv(c, u', hasNext)
  {
  }

  /** The last byte has arrived: the receive buffer now holds the announced bucket. */
  lemma CompleteReadKeepsNode(c: Config, t: Node, u: Node, hasNext: bool)
    requires RolloutInv(c, u, hasNext) && u.read.Active? && u.read.pending == {}
    requires OpOk(t, c.Buckets()) && TransferOk(c, t, u)
    ensures RolloutInv(c, CompleteReadMove(u).node, hasNext)
  {
    assert u.Buf(u.read.to) == t.Buf(u.read.from);
    ReadFinished(c, u, hasNext);
  }

  lemma ReadFinished(c: Config, u: Node, hasNext: bool)
    requires RolloutInv(c, u, hasNext) && u.read.Active? && Holds(u, u.read.to, c.Buckets(), u.got - 1)
    ensures RolloutInv(c, u.(read := Complete), hasNext)
  {
  }

  /** Mail that arrives does not change what a rank has done. */
  lemma TrainerMail(c: Config, u: Node, inbox: seq<Message>, acks: seq<nat>)
    requires TrainerInv(c, u)
    ensures TrainerInv(c, u.(inbox := inbox, acks := acks))
  {
  }

  lemma RolloutMail(c: Config, u: Node, hasNext: bool, inbox: seq<Message>, acks: seq<nat>)
    requires RolloutInv(c, u, hasNext)
    ensures RolloutInv(c, u.(inbox := inbox, acks := acks), hasNext)
  {
    var bs, k := c.Buckets(), Current(u);
    match u.pc
    case Head => assert HeadInv(u.(inbox := inbox, acks := acks), hasNext, bs, k);
    case AwaitMeta => assert AwaitMetaInv(u.(inbox := inbox, acks := acks), hasNext, bs, k);
    case Yielding => YieldingMail(u, hasNext, bs, k, inbox, acks);
    case WaitRead => WaitReadMail(u, hasNext, bs, k, inbox, acks);
    case _ =>
  }

  lemma YieldingMail(u: Node, hasNext: bool, bs: seq<seq<Weight>>, k: int, inbox: seq<Message>, acks: seq<nat>)
    requires YieldingInv(u, hasNext, bs, k)
    ensures YieldingInv(u.(inbox := inbox, acks := acks), hasNext, bs, k)
  {
  }

  lemma WaitReadMail(u: Node, hasNext: bool, bs: seq<seq<Weight>>, k: int, inbox: seq<Message>, acks: seq<nat>)
    requires WaitReadInv(u, hasNext, bs, k)
    ensures WaitReadInv(u.(inbox := inbox, acks := acks), hasNext, bs, k)
  {
  }

  // ---- the links

  /** A step of `u` that leaves its operation and the announced buffer alone. */
  lemma SenderFrame(c: Config, u: Node, u': Node, v: Node)
    requires LinkInv(c, u, v)
    requires u'.ops == u.ops && u'.op == u.op && u'.acks == u.acks
    requires u.op.Readable? ==> u'.Buf(u.op.descs) == u.Buf(u.op.descs)
    ensures LinkInv(c, u', v)
  {
  }

  /** A step of `v` that leaves its reading alone. */
  lemma ReceiverFrame(c: Config, u: Node, v: Node, v': Node)
    requires LinkInv(c, u, v)
    requires v'.inbox == v.inbox && v'.got == v.got
    requires v'.read == v.read || (!v.read.Active? && !v'.read.Active?)
    requires v.read.Active? ==> v'.Buf(v.read.to) == v.Buf(v.read.to)
    ensures LinkInv(c, u, v')
  {
  }

  lemma AnnounceKeepsLink(c: Config, u: Node, u': Node, v: Node, m: Message)
    requires LinkInv(c, u, v) && u.op.NoOp?
    requires u'.ops == u.ops + 1 && u'.op == Readable(m.notifyKey, m.descs) && u'.acks == u.acks
    requires MetadataFor(m.metadata, c.Buckets(), u.ops)
    ensures LinkInv(c, u', Deliver(v, Some(m)))
  {
  }

  /** The notification that arrives is the one for the operation waited for. */
  lemma AwaitAckKeepsLink(c: Config, u: Node, v: Node)
    requires LinkInv(c, u, v) && u.op.Readable? && u.acks != []
    ensures u.acks[0] == u.op.notifyKey
    ensures LinkInv(c, AwaitAckMove(u).node, v)
  {
  }

  lemma ReadMetadataKeepsLink(c: Config, u: Node, v: Node)
    requires LinkInv(c, u, v) && BuffersOk(c, u) && BuffersOk(c, v) && v.inbox != [] && !v.read.Active?
    ensures MetadataFor(v.inbox[0].metadata, c.Buckets(), v.got)
    ensures LinkInv(c, u, ReadMetadataMove(c, v).node)
  {
    AllBytesAre(c.size);
  }

  lemma CopyByteKeepsLink(c: Config, u: Node, v: Node, i: nat)
    requires LinkInv(c, u, v) && v.read.Active? && i in v.read.pending && i < c.size
    ensures LinkInv(c, u, CopyByteMove(v, i, u.Buf(v.read.from)[i]).node)
  {
  }

  lemma CompleteReadKeepsLink(c: Config, u: Node, v: Node)
    requires LinkInv(c, u, v) && v.read.Active? && v.read.pending == {}
    ensures LinkInv(c, Notify(u, CompleteReadMove(v).toPrev), CompleteReadMove(v).node)
  {
  }

  // ---- a step of the chain

  /** The acting rank and its two links are in order after the move. */
  ghost predicate MoveOk(c: Config, s: State, r: nat, m: Move)
    requires r < |s|
  {
    && NodeInv(c, m.node, r)
    && (r + 1 < |s| ==> LinkInv(c, m.node, Deliver(s[r + 1], m.toNext)))
    && (r > 0 ==> LinkInv(c, Notify(s[r - 1], m.toPrev), m.node))
  }

  lemma StoreOk(c: Config, s: State)
    requires Inv(c, s) && |s| > 1 && Enabled(c, s, 0, Store)
    ensures MoveOk(c, s, 0, StoreMove(c, s[0]))
  {
    assert NodeAt(c, s, 0) && LinkAt(c, s, 0);
    StoreKeepsNode(c, s[0]);
    SenderFrame(c, s[0], StoreMove(c, s[0]).node, s[1]);
  }

  lemma FlushOk(c: Config, s: State)
    requires Inv(c, s) && |s| > 1 && Enabled(c, s, 0, Flush)
    ensures MoveOk(c, s, 0, FlushMove(c, s[0]))
  {
    var m := FlushMove(c, s[0]);
    assert NodeAt(c, s, 0) && LinkAt(c, s, 0);
    FlushKeepsNode(c, s[0]);
    AnnounceKeepsLink(c, s[0], m.node, s[1], m.toNext.value);
  }

  lemma AwaitAckOk(c: Config, s: State, r: nat)
    requires Inv(c, s) && r < |s| && |s| > 1 && Enabled(c, s, r, AwaitAck)
    ensures MoveOk(c, s, r, AwaitAckMove(s[r]))
  {
    var u, u' := s[r], AwaitAckMove(s[r]).node;
    assert NodeAt(c, s, r) && LinkAt(c, s, r);
    if r + 1 < |s| && u.op.Readable? {
      AwaitAckKeepsLink(c, u, s[r + 1]);
    }
    if r > 0 {
      assert LinkAt(c, s, r - 1);
      AwaitAckKeepsRollout(c, u, r < c.rollouts);
      ReceiverFrame(c, s[r - 1], u, u');
    }
  }

  lemma ReadMetadataOk(c: Config, s: State, r: nat)
    requires Inv(c, s) && r < |s| && Enabled(c, s, r, ReadMetadata)
    ensures MoveOk(c, s, r, ReadMetadataMove(c, s[r]))
  {
    var u, u' := s[r], ReadMetadataMove(c, s[r]).node;
    assert NodeAt(c, s, r) && LinkAt(c, s, r);
    assert LinkAt(c, s, r - 1);
    assert NodeAt(c, s, r - 1);
    ReadMetadataKeepsLink(c, s[r - 1], u);
    ReadMetadataKeepsNode(c, u, r < c.rollouts);
    if r + 1 < |s| {
      SenderFrame(c, u, u', s[r + 1]);
    }
  }

  /** A step that touches neither the buffers, the operation, the mail nor the progress of a read. */
  lemma LocalOk(c: Config, s: State, r: nat, u': Node)
    requires Inv(c, s) && 0 < r < |s| && NodeInv(c, u', r)
    requires u'.a == s[r].a && u'.b == s[r].b && u'.op == s[r].op && u'.ops == s[r].ops
    requires u'.inbox == s[r].inbox && u'.acks == s[r].acks && u'.got == s[r].got
    requires u'.read == s[r].read || (!s[r].read.Active? && !u'.read.Active?)
    ensures MoveOk(c, s, r, Local(u'))
  {
    assert LinkAt(c, s, r) && LinkAt(c, s, r - 1);
    ReceiverFrame(c, s[r - 1], s[r], u');
    if r + 1 < |s| {
      SenderFrame(c, s[r], u', s[r + 1]);
    }
  }

  lemma AwaitReadOk(c: Config, s: State, r: nat)
    requires Inv(c, s) && r < |s| && Enabled(c, s, r, AwaitRead)
    ensures MoveOk(c, s, r, AwaitReadMove(s[r]))
  {
    assert NodeAt(c, s, r);
    AwaitReadKeepsNode(c, s[r], r < c.rollouts);
    LocalOk(c, s, r, AwaitReadMove(s[r]).node);
  }

  lemma ForwardOk(c: Config, s: State, r: nat)
    requires Inv(c, s) && r < |s| && Enabled(c, s, r, Forward)
    ensures MoveOk(c, s, r, ForwardMove(s[r], r + 1 < |s|))
  {
    var u, m := s[r], ForwardMove(s[r], r + 1 < |s|);
    assert NodeAt(c, s, r) && LinkAt(c, s, r);
    assert LinkAt(c, s, r - 1);
    ForwardKeepsNode(c, u, r < c.rollouts);
    ReceiverFrame(c, s[r - 1], u, m.node);
    if r + 1 < |s| {
      AnnounceKeepsLink(c, u, m.node, s[r + 1], m.toNext.value);
    }
  }

  lemma YieldOk(c: Config, s: State, r: nat)
    requires Inv(c, s) && r < |s| && Enabled(c, s, r, Yield)
    ensures MoveOk(c, s, r, YieldMove(s[r]))
  {
    assert NodeAt(c, s, r);
    YieldKeepsNode(c, s[r], r < c.rollouts);
    LocalOk(c, s, r, YieldMove(s[r]).node);
  }

  lemma CopyByteOk(c: Config, s: State, r: nat, i: nat)
    requires Inv(c, s) && r < |s| && Enabled(c, s, r, CopyByte(i))
    ensures MoveOk(c, s, r, CopyByteMove(s[r], i, s[r - 1].Buf(s[r].read.from)[i]))
  {
    var u, byte := s[r], s[r - 1].Buf(s[r].read.from)[i];
    var u' := CopyByteMove(u, i, byte).node;
    assert NodeAt(c, s, r) && LinkAt(c, s, r);
    assert LinkAt(c, s, r - 1);
    CopyByteKeepsNode(c, u, r < c.rollouts, i, byte);
    CopyByteKeepsLink(c, s[r - 1], u, i);
    if r + 1 < |s| {
      assert u.op.Readable? ==> u.op.descs != u.read.to;
      SenderFrame(c, u, u', s[r + 1]);
    }
  }

  lemma CompleteReadOk(c: Config, s: State, r: nat)
    requires Inv(c, s) && r < |s| && Enabled(c, s, r, CompleteRead)
    ensures MoveOk(c, s, r, CompleteReadMove(s[r]))
  {
    var u, u' := s[r], CompleteReadMove(s[r]).node;
    assert NodeAt(c, s, r) && LinkAt(c, s, r);
    assert LinkAt(c, s, r - 1);
    assert NodeAt(c, s, r - 1);
    CompleteReadKeepsNode(c, s[r - 1], u, r < c.rollouts);
    CompleteReadKeepsLink(c, s[r - 1], u);
    if r + 1 < |s| {
      SenderFrame(c, u, u', s[r + 1]);
    }
  }

  lemma EveryMoveOk(c: Config, s: State, r: nat, act: Action)
    requires Inv(c, s) && c.rollouts > 0 && r < |s| && Enabled(c, s, r, act)
    ensures MoveOk(c, s, r, MoveOf(c, s, r, act))
  {
    match act
    case Store => StoreOk(c, s);
    case Flush => FlushOk(c, s);
    case AwaitAck => AwaitAckOk(c, s, r);
    case ReadMetadata => ReadMetadataOk(c, s, r);
    case AwaitRead => AwaitReadOk(c, s, r);
    case Forward => ForwardOk(c, s, r);
    case Yield => YieldOk(c, s, r);
    case CopyByte(i) => CopyByteOk(c, s, r, i);
    case CompleteRead => CompleteReadOk(c, s, r);
  }

  lemma ApplyKeepsNode(c: Config, s: State, r: nat, act: Action, i: nat)
    requires Inv(c, s) && r < |s| && Enabled(c, s, r, act) && MoveOk(c, s, r, MoveOf(c, s, r, act)) && i < |s|
    ensures NodeInv(c, Apply(c, s, r, act)[i], i)
  {
    var u' := Apply(c, s, r, act)[i];
    assert NodeAt(c, s, i);
    if i != r {
      assert u' == s[i].(inbox := u'.inbox, acks := u'.acks);
      if i == 0 {
        TrainerMail(c, s[i], u'.inbox, u'.acks);
      } else {
        RolloutMail(c, s[i], i < c.rollouts, u'.inbox, u'.acks);
      }
    }
  }

  lemma ApplyKeepsLink(c: Config, s: State, r: nat, act: Action, i: nat)
    requires Inv(c, s) && r < |s| && Enabled(c, s, r, act) && MoveOk(c, s, r, MoveOf(c, s, r, act)) && i + 1 < |s|
    ensures LinkInv(c, Apply(c, s, r, act)[i], Apply(c, s, r, act)[i + 1])
  {
    var m := MoveOf(c, s, r, act);
    assert LinkAt(c, s, i);
    MoveKeepsLink(c, s, r, m, i);
    assert Apply(c, s, r, act) == After(s, r, m);
  }

  lemma MoveKeepsLink(c: Config, s: State, r: nat, m: Move, i: nat)
    requires r < |s| && i + 1 < |s| && LinkInv(c, s[i], s[i + 1])
    requires i == r ==> LinkInv(c, m.node, Deliver(s[r + 1], m.toNext))
    requires i + 1 == r ==> LinkInv(c, Notify(s[r - 1], m.toPrev), m.node)
    ensures LinkInv(c, After(s, r, m)[i], After(s, r, m)[i + 1])
  {
    var u, v, u', v' := s[i], s[i + 1], After(s, r, m)[i], After(s, r, m)[i + 1];
    if i == r + 1 {
      assert v' == v && u' == Deliver(u, m.toNext);
      SenderFrame(c, u, u', v);
    } else if i + 2 == r {
      assert u' == u && v' == Notify(v, m.toPrev);
      ReceiverFrame(c, u, v, v');
    } else if i == r {
      assert u' == m.node && v' == Deliver(v, m.toNext);
    } else if i + 1 == r {
      assert u' == Notify(u, m.toPrev) && v' == m.node;
    } else {
      assert u' == u && v' == v;
    }
  }

  lemma ApplyKeepsInv(c: Config, s: State, r: nat, act: Action)
    requires Inv(c, s) && c.rollouts > 0 && r < |s| && Enabled(c, s, r, act)
    ensures Inv(c, Apply(c, s, r, act))
  {
    var s' := Apply(c, s, r, act);
    EveryMoveOk(c, s, r, act);
    forall i: nat ensures NodeAt(c, s', i) {
      if i < |s| {
        ApplyKeepsNode(c, s, r, act, i);
      }
    }
    forall i: nat ensures LinkAt(c, s', i) {
      if i + 1 < |s| {
        ApplyKeepsLink(c, s, r, act, i);
      }
    }
  }

  /** Every step of every rank keeps the invariant. */
  lemma StepKeepsInv(c: Config, s: State, s': State)
    requires Inv(c, s) && c.rollouts > 0 && Next(c, s, s')
    ensures Inv(c, s')
  {
    var r: nat, act :| r < |s| && Enabled(c, s, r, act) && s' == Apply(c, s, r, act);
    ApplyKeepsInv(c, s, r, act);
  }
}
