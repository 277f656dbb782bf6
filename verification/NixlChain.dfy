/**
 The NIXL checkpoint engine as a step relation over a chain of ranks. Rank 0 is
 the trainer; every rollout rank reads each bucket out of the previous rank's
 memory and offers it to the next.

 A remote read copies its bytes one at a time in any order, so a buffer that
 changed while it was being read would show in what a rank yields.
 */
module NixlChain {
  import opened Common
  import opened OrderedDict
  import opened Packing

  /** One weight update: the tensors, the bucket size and the number of rollout ranks. */
  datatype Config = Config(weights: seq<Weight>, size: nat, rollouts: nat) {
    function Buckets(): seq<seq<Weight>> { Pack(weights, size) }
  }

  /** A rank's two registered buffers; `send_buf` and `recv_buf` swap between them. */
  datatype Side = A | B {
    function Other(): Side { if this == A then B else A }
  }

  datatype Metadata = Metadata(bucketMeta: Meta, isLast: bool)

  /** What a readable operation sends to the next rank. */
  datatype Message = Message(notifyKey: nat, descs: Side, metadata: Metadata)

  /** The `readable_op` a rank has not waited for yet. */
  datatype ReadableOp = NoOp | Readable(notifyKey: nat, descs: Side)

  /** The `read_op` of a rank; `pending` are the bytes still to be transferred. */
  datatype ReadOp = Idle | Active(notifyKey: nat, from: Side, to: Side, pending: set<nat>) | Complete

  datatype Pc =
    | Filling | AwaitLastAck                                       // trainer
    | AwaitFirst | FirstRead | Head | AwaitMeta | Yielding | WaitRead  // rollout
    | Finished | Failed

  datatype Node = Node(
    pc: Pc, a: seq<Byte>, b: seq<Byte>, send: Side,
    op: ReadableOp, ops: nat,              // ops: operations created so far, the source of fresh notify keys
    inbox: seq<Message>, acks: seq<nat>,   // messages from the previous, notifications from the next rank
    idx: nat, bucketMeta: Meta, offset: nat, cur: seq<Weight>,    // trainer; cur is history
    metadata: Metadata, next: Metadata, read: ReadOp, pos: nat,   // rollout
    got: nat, yielded: seq<Weight>)                               // got is history: messages read

  {
    function Buf(side: Side): seq<Byte> { if side == A then a else b }

    function Write(side: Side, buf: seq<Byte>): Node {
      if side == A then this.(a := buf) else this.(b := buf)
    }

    /** Operations whose completion this rank has waited for. */
    function Acked(): int { if op.NoOp? then ops else ops - 1 }

    /** Reads from the previous rank that have completed. */
    function Completed(): int { if read.Active? then got - 1 else got }
  }

  type State = seq<Node>

  datatype Action =
    | Store | Flush                                      // trainer: one turn of the fill loop
    | AwaitAck                                           // readable_op.wait_for_complete()
    | ReadMetadata | AwaitRead | Forward | Yield         // rollout
    | CopyByte(i: nat) | CompleteRead                    // the transfer itself

  /** A node's step: its new state, a message for the next rank, a notification for the previous one. */
  datatype Move = Move(node: Node, toNext: Option<Message>, toPrev: Option<nat>)

  function AllBytes(size: nat): set<nat> {
    if size == 0 then {} else AllBytes(size - 1) + {size - 1}
  }

  const NO_METADATA := Metadata([], false)

  function InitNode(c: Config, pc: Pc): Node {
    var zero: seq<Byte> := seq(c.size, _ => 0);
    Node(pc, zero, zero, A, NoOp, 0, [], [], 0, [], 0, [], NO_METADATA, NO_METADATA, Idle, 0, 0, [])
  }

  function Init(c: Config): State {
    [InitNode(c, Filling)] + seq(c.rollouts, _ => InitNode(c, AwaitFirst))
  }

  // ---- the steps

  /** The fill loop has reached a tensor that does not fit behind the ones in the bucket. */
  predicate Overflows(c: Config, u: Node) {
    u.idx < |c.weights| && u.offset + |c.weights[u.idx].value| > c.size
  }

  /** The trainer must ship its bucket next: it overflows, or the weights are used up. */
  predicate MustShip(c: Config, u: Node) {
    u.pc == Filling && (u.idx >= |c.weights| || Overflows(c, u))
  }

  predicate Yieldable(u: Node) {
    && u.pos < |u.metadata.bucketMeta|
    && var slot := u.metadata.bucketMeta[u.pos].value; slot.offset + slot.size <= |u.Buf(u.send)|
  }

  predicate AtWait(c: Config, u: Node) {
    || u.pc == AwaitLastAck
    || (MustShip(c, u) && u.op.Readable?)
    || (u.pc == Yielding && u.pos == |u.metadata.bucketMeta|)
  }

  predicate Enabled(c: Config, s: State, r: nat, act: Action)
    requires r < |s|
  {
    var u := s[r];
    match act
    case Store => r == 0 && u.pc == Filling && u.idx < |c.weights| && !Overflows(c, u)
                  && u.offset + |c.weights[u.idx].value| <= |u.Buf(u.send)|
    case Flush => r == 0 && MustShip(c, u) && u.op.NoOp?
    case AwaitAck => AtWait(c, u) && (u.op.Readable? ==> u.acks != [])
    case ReadMetadata => r > 0 && (u.pc == AwaitFirst || u.pc == AwaitMeta) && u.inbox != []
    case AwaitRead => r > 0 && (u.pc == FirstRead || u.pc == WaitRead) && u.read == Complete
    case Forward => r > 0 && u.pc == Head
    case Yield => r > 0 && u.pc == Yielding && Yieldable(u)
    case CopyByte(i) => r > 0 && u.read.Active? && i in u.read.pending
                        && i < |u.Buf(u.read.to)| && i < |s[r - 1].Buf(u.read.from)|
    case CompleteRead => r > 0 && u.read.Active? && u.read.pending == {}
  }

  /** Create a `ReadableOperation` on the send buffer. */
  function Announce(u: Node, metadata: Metadata): Move {
    Move(u.(op := Readable(u.ops, u.send), ops := u.ops + 1), Some(Message(u.ops, u.send, metadata)), None)
  }

  function Local(u: Node): Move {
    Move(u, None, None)
  }

  function StoreMove(c: Config, u: Node): Move
    requires u.idx < |c.weights| && u.offset + |c.weights[u.idx].value| <= |u.Buf(u.send)|
  {
    var w, buf := c.weights[u.idx], u.Buf(u.send);
    var end := u.offset + |w.value|;
    Local(u.Write(u.send, buf[..u.offset] + w.value + buf[end..])
           .(idx := u.idx + 1, offset := end, cur := u.cur + [w],
             bucketMeta := Put(u.bucketMeta, w.key, Slot(u.offset, |w.value|))))
  }

  /** Ship the bucket; after a non-final one, swap the buffers and fail if the next tensor can never fit. */
  function FlushMove(c: Config, u: Node): Move {
    var last := u.idx >= |c.weights|;
    var m := Announce(u, Metadata(u.bucketMeta, last));
    if last then m.(node := m.node.(pc := AwaitLastAck))
    else
      var pc := if |c.weights[u.idx].value| <= c.size then Filling else Failed;
      m.(node := m.node.(send := u.send.Other(), bucketMeta := [], offset := 0, cur := [], pc := pc))
  }

  /** Wait for the next rank's notification, if one is due, and check its key. */
  function AwaitAckMove(u: Node): Move {
    var pc := if u.pc == Filling then Filling
              else if u.pc == Yielding && !u.metadata.isLast then WaitRead
              else Finished;
    if u.op.NoOp? || u.acks == [] then Local(u.(pc := pc))
    else if u.acks[0] != u.op.notifyKey then Local(u.(pc := Failed))
    else Local(u.(pc := pc, op := NoOp, acks := u.acks[1..]))
  }

  /** Take the next message and start the read into the receive buffer. */
  function ReadMetadataMove(c: Config, u: Node): Move
    requires u.inbox != []
  {
    var m := u.inbox[0];
    var u' := u.(inbox := u.inbox[1..], got := u.got + 1,
                 read := Active(m.notifyKey, m.descs, u.send.Other(), AllBytes(c.size)));
    if u.pc == AwaitFirst then Local(u'.(pc := FirstRead, metadata := m.metadata))
    else Local(u'.(pc := Yielding, next := m.metadata, pos := 0))
  }

  /** The awaited read is complete: swap the buffers and return to the loop head. */
  function AwaitReadMove(u: Node): Move {
    Local(u.(pc := Head, read := Idle, send := u.send.Other(),
             metadata := if u.pc == WaitRead then u.next else u.metadata))
  }

  function ForwardMove(u: Node, hasNext: bool): Move {
    var m := if hasNext then Announce(u, u.metadata) else Local(u);
    m.(node := m.node.(pc := if u.metadata.isLast then Yielding else AwaitMeta, pos := 0))
  }

  function YieldMove(u: Node): Move
    requires Yieldable(u)
  {
    var e := u.metadata.bucketMeta[u.pos];
    var tensor := u.Buf(u.send)[e.value.offset..e.value.offset + e.value.size];
    Local(u.(pos := u.pos + 1, yielded := u.yielded + [Entry(e.key, tensor)]))
  }

  function CopyByteMove(u: Node, i: nat, byte: Byte): Move
    requires u.read.Active? && i < |u.Buf(u.read.to)|
  {
    Local(u.Write(u.read.to, u.Buf(u.read.to)[i := byte]).(read := u.read.(pending := u.read.pending - {i})))
  }

  function CompleteReadMove(u: Node): Move
    requires u.read.Active?
  {
    Move(u.(read := Complete), None, Some(u.read.notifyKey))
  }

  function MoveOf(c: Config, s: State, r: nat, act: Action): Move
    requires r < |s| && Enabled(c, s, r, act)
  {
    match act
    case Store => StoreMove(c, s[r])
    case Flush => FlushMove(c, s[r])
    case AwaitAck => AwaitAckMove(s[r])
    case ReadMetadata => ReadMetadataMove(c, s[r])
    case AwaitRead => AwaitReadMove(s[r])
    case Forward => ForwardMove(s[r], r + 1 < |s|)
    case Yield => YieldMove(s[r])
    case CopyByte(i) => CopyByteMove(s[r], i, s[r - 1].Buf(s[r].read.from)[i])
    case CompleteRead => CompleteReadMove(s[r])
  }

  function Deliver(v: Node, m: Option<Message>): Node {
    if m.Some? then v.(inbox := v.inbox + [m.value]) else v
  }

  function Notify(t: Node, key: Option<nat>): Node {
    if key.Some? then t.(acks := t.acks + [key.value]) else t
  }

  /** Rank `r` moves; its message and notification reach its neighbours' queues. */
  function After(s: State, r: nat, m: Move): State {
    seq(|s|, i requires 0 <= i < |s| =>
      if i == r then m.node
      else if i == r + 1 then Deliver(s[i], m.toNext)
      else if i + 1 == r then Notify(s[i], m.toPrev)
      else s[i])
  }

  function Apply(c: Config, s: State, r: nat, act: Action): State
    requires r < |s| && Enabled(c, s, r, act)
  {
    After(s, r, MoveOf(c, s, r, act))
  }

  ghost predicate Next(c: Config, s: State, s': State) {
    exists r: nat, act :: r < |s| && Enabled(c, s, r, act) && s' == Apply(c, s, r, act)
  }

  /** A run: any interleaving of the ranks' steps from the initial state. */
  ghost predicate IsRun(c: Config, run: seq<State>) {
    && |run| > 0 && run[0] == Init(c)
    && forall k :: 0 <= k < |run| - 1 ==> Next(c, run[k], run[k + 1])
  }

  // ---- what holds in every reachable state

  predicate MetadataFor(m: Metadata, bs: seq<seq<Weight>>, k: int) {
    0 <= k < |bs| && m == Metadata(MetaOf(bs[k]), k == |bs| - 1)
  }

  predicate Holds(u: Node, side: Side, bs: seq<seq<Weight>>, k: int) {
    0 <= k < |bs| && Flat(bs[k]) <= u.Buf(side)
  }

  predicate BuffersOk(c: Config, u: Node) {
    |u.a| == |u.b| == c.size
  }

  /** An announced buffer keeps its bucket until the operation has been waited for. */
  predicate OpOk(u: Node, bs: seq<seq<Weight>>) {
    u.op.Readable? ==>
      u.ops > 0 && u.op.notifyKey == u.ops - 1 && Holds(u, u.op.descs, bs, u.ops - 1)
  }

  predicate FillingInv(c: Config, u: Node, bs: seq<seq<Weight>>)
    requires u.idx <= |c.weights|
  {
    && FitUpTo(c.weights, c.size, u.idx)
    && Packing.Filling(bs, c.size, u.ops, u.cur, c.weights[u.idx..])
    && u.offset == Bytes(u.cur) <= c.size && u.bucketMeta == MetaOf(u.cur)
    && Flat(u.cur) <= u.Buf(u.send)
    && (u.op.Readable? ==> u.op.descs == u.send.Other())
  }

  ghost predicate TrainerInv(c: Config, u: Node) {
    var bs := c.Buckets();
    && BuffersOk(c, u) && OpOk(u, bs) && u.read == Idle && u.idx <= |c.weights|
    && match u.pc
       case Filling => FillingInv(c, u, bs)
       case AwaitLastAck => u.idx == |c.weights| && u.ops == |bs| && u.op.Readable?
       case Finished => u.idx == |c.weights| && u.ops == |bs| && u.op.NoOp?
       case Failed => u.ops < |bs| && FirstTooLarge(c.weights, c.size, u.idx) && StoppedAfter(c.weights, c.size, u.ops)
       case _ => false
  }

  /** The index of the bucket a rollout rank holds in its send buffer. */
  function Current(u: Node): int {
    match u.pc
    case Yielding => if u.metadata.isLast then u.got - 1 else u.got - 2
    case WaitRead => u.got - 2
    case _ => u.got - 1
  }

  /** The receive buffer is being filled, or has been filled, with bucket `k`. */
  predicate Receiving(u: Node, bs: seq<seq<Weight>>, k: int) {
    && 0 <= k < |bs|
    && match u.read
       case Active(_, _, to, _) => to == u.send.Other()
       case Complete => Holds(u, u.send.Other(), bs, k)
       case Idle => false
  }

  /** The rank has offered bucket `k` to the rank after it, if there is one, and not heard back. */
  predicate Offered(u: Node, hasNext: bool, k: int) {
    if hasNext then 0 <= k && u.ops == k + 1 && u.op == Readable(k, u.send) else u.op.NoOp?
  }

  predicate HeadInv(u: Node, hasNext: bool, bs: seq<seq<Weight>>, k: int) {
    && MetadataFor(u.metadata, bs, k) && Holds(u, u.send, bs, k) && u.read == Idle
    && u.op.NoOp? && (hasNext ==> u.ops == k)
    && u.yielded == StreamOf(bs[..k])
  }

  predicate AwaitMetaInv(u: Node, hasNext: bool, bs: seq<seq<Weight>>, k: int) {
    && MetadataFor(u.metadata, bs, k) && Holds(u, u.send, bs, k) && u.read == Idle
    && !u.metadata.isLast && Offered(u, hasNext, k)
    && u.yielded == StreamOf(bs[..k])
  }

  predicate YieldingInv(u: Node, hasNext: bool, bs: seq<seq<Weight>>, k: int) {
    && MetadataFor(u.metadata, bs, k) && Holds(u, u.send, bs, k)
    && Offered(u, hasNext, k)
    && (if u.metadata.isLast then u.read == Idle
        else MetadataFor(u.next, bs, k + 1) && Receiving(u, bs, k + 1))
    && u.pos <= |FromItems(bs[k])|
    && u.yielded == StreamOf(bs[..k]) + FromItems(bs[k])[..u.pos]
  }

  predicate WaitReadInv(u: Node, hasNext: bool, bs: seq<seq<Weight>>, k: int) {
    && MetadataFor(u.metadata, bs, k) && u.op.NoOp? && (hasNext ==> u.ops == k + 1)
    && MetadataFor(u.next, bs, k + 1) && Receiving(u, bs, k + 1)
    && u.yielded == StreamOf(bs[..k + 1])
  }

  predicate FinishedInv(u: Node, hasNext: bool, bs: seq<seq<Weight>>) {
    && u.got == |bs| && u.op.NoOp? && (hasNext ==> u.ops == |bs|) && u.read == Idle
    && u.yielded == StreamOf(bs)
  }

  predicate RolloutInv(c: Config, u: Node, hasNext: bool) {
    var bs, k := c.Buckets(), Current(u);
    && BuffersOk(c, u) && OpOk(u, bs)
    && u.got <= |bs|
    && (!hasNext ==> u.op.NoOp?)
    && match u.pc
       case AwaitFirst => u.got == 0 && u.ops == 0 && u.op.NoOp? && u.read == Idle && u.yielded == []
       case FirstRead =>
         && u.got == 1 && u.ops == 0 && u.op.NoOp? && u.yielded == []
         && MetadataFor(u.metadata, bs, 0) && Receiving(u, bs, 0)
       case Head => HeadInv(u, hasNext, bs, k)
       case AwaitMeta => AwaitMetaInv(u, hasNext, bs, k)
       case Yielding => YieldingInv(u, hasNext, bs, k)
       case WaitRead => WaitReadInv(u, hasNext, bs, k)
       case Finished => FinishedInv(u, hasNext, bs)
       case _ => false
  }

  ghost predicate NodeInv(c: Config, u: Node, r: nat) {
    if r == 0 then TrainerInv(c, u) else RolloutInv(c, u, r < c.rollouts)
  }

  /** The messages in flight from `u` to `v`: at most the one operation `u` has outstanding. */
  predicate InboxOk(u: Node, v: Node, bs: seq<seq<Weight>>) {
    && |v.inbox| == u.ops - v.got
    && (v.inbox != [] ==>
          && u.op.Readable?
          && v.inbox[0].notifyKey == u.op.notifyKey && v.inbox[0].descs == u.op.descs
          && MetadataFor(v.inbox[0].metadata, bs, u.ops - 1))
  }

  predicate AcksOk(u: Node, v: Node) {
    && |u.acks| == v.Completed() - u.Acked()
    && (u.acks != [] ==> u.op.Readable? && u.acks[0] == u.op.notifyKey)
  }

  /** A read in progress targets the outstanding operation, and the bytes copied so far agree. */
  predicate TransferOk(c: Config, u: Node, v: Node) {
    v.read.Active? ==>
      && v.got == u.ops && u.op.Readable?
      && v.read.notifyKey == u.op.notifyKey && v.read.from == u.op.descs
      && |u.Buf(v.read.from)| == |v.Buf(v.read.to)| == c.size
      && v.read.pending <= AllBytes(c.size)
      && forall i :: 0 <= i < c.size && i !in v.read.pending ==> v.Buf(v.read.to)[i] == u.Buf(v.read.from)[i]
  }

  /** Rank `u` and the rank `v` after it. */
  predicate LinkInv(c: Config, u: Node, v: Node) {
    && u.Acked() <= v.Completed() <= v.got <= u.ops
    && InboxOk(u, v, c.Buckets()) && AcksOk(u, v) && TransferOk(c, u, v)
  }

  ghost predicate NodeAt(c: Config, s: State, r: nat) {
    r < |s| ==> NodeInv(c, s[r], r)
  }

  predicate LinkAt(c: Config, s: State, r: nat) {
    r + 1 < |s| ==> LinkInv(c, s[r], s[r + 1])
  }

  ghost predicate Inv(c: Config, s: State) {
    && |s| == c.rollouts + 1
    && (forall r: nat :: NodeAt(c, s, r))
    && (forall r: nat :: LinkAt(c, s, r))
  }
}
