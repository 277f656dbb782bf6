/**
 Progress of the NIXL chain: it never stalls, every step brings the end one step
 nearer, and so every run that cannot go on has delivered everything.
 */
module NixlLiveness {
  import opened OrderedDict
  import opened Packing
  import opened NixlChain
  import opened NixlSafety
  import opened NixlTheorems

  ghost predicate CanStep(c: Config, s: State) {
    exists r: nat, act :: r < |s| && Enabled(c, s, r, act)
  }

  predicate AllFinished(s: State) {
    forall r :: 0 <= r < |s| ==> s[r].pc == Finished
  }

  // ---- no deadlock

  /** A rollout rank can move unless it is finished or waits for mail. */
  lemma RolloutMoves(c: Config, s: State, r: nat)
    requires Inv(c, s) && 0 < r < |s|
    requires s[r].pc != Finished && (s[r].pc == AwaitFirst || s[r].pc == AwaitMeta ==> s[r].inbox != [])
    requires s[r].pc == Yielding && s[r].op.Readable? ==> s[r].acks != []
    ensures CanStep(c, s)
  {
    var u := s[r];
    assert NodeAt(c, s, r);
    assert LinkAt(c, s, r - 1);
    if u.read.Active? {
      TransferMoves(c, s, r);
    } else {
      match u.pc
      case AwaitFirst => assert Enabled(c, s, r, ReadMetadata);
      case AwaitMeta => assert Enabled(c, s, r, ReadMetadata);
      case FirstRead => assert Enabled(c, s, r, AwaitRead);
      case WaitRead => assert Enabled(c, s, r, AwaitRead);
      case Head => assert Enabled(c, s, r, Forward);
      case Yielding =>
        ReadOutIsItems(c.Buckets()[Current(u)], u.Buf(u.send));
        if u.pos < |u.metadata.bucketMeta| {
          assert Enabled(c, s, r, Yield);
        } else {
          assert Enabled(c, s, r, AwaitAck);
        }
    }
  }

  lemma TransferMoves(c: Config, s: State, r: nat)
    requires Inv(c, s) && 0 < r < |s| && s[r].read.Active?
    ensures CanStep(c, s)
  {
    var u := s[r];
    assert NodeAt(c, s, r);
    assert LinkAt(c, s, r - 1);
    AllBytesAre(c.size);
    if i: nat :| i in u.read.pending {
      assert Enabled(c, s, r, CopyByte(i));
    } else {
      assert u.read.pending == {};
      assert Enabled(c, s, r, CompleteRead);
    }
  }

  /** While `r` waits for a notification, the rank after it is not done reading and has its message. */
  lemma AckMissing(c: Config, s: State, r: nat)
    requires Inv(c, s) && c.rollouts > 0 && r < |s| && s[r].op.Readable? && s[r].acks == []
    ensures r + 1 < |s| && s[r + 1].pc != Finished
    ensures !s[r + 1].read.Active? && (s[r + 1].pc == AwaitFirst || s[r + 1].pc == AwaitMeta) ==> s[r + 1].inbox != []
  {
    assert NodeAt(c, s, r);
    assert LinkAt(c, s, r);
    assert NodeAt(c, s, r + 1);
  }

  /** Some rank behind a rank that waits for a notification can move. */
  lemma {:induction false} WaitingForAck(c: Config, s: State, r: nat)
    requires Inv(c, s) && c.rollouts > 0 && r < |s| && s[r].op.Readable? && s[r].acks == []
    ensures CanStep(c, s)
    decreases |s| - r
  {
    AckMissing(c, s, r);
    var v := s[r + 1];
    if v.read.Active? {
      TransferMoves(c, s, r + 1);
    } else if v.pc == Yielding && v.op.Readable? && v.acks == [] {
      WaitingForAck(c, s, r + 1);
    } else {
      RolloutMoves(c, s, r + 1);
    }
  }

  lemma TrainerMoves(c: Config, s: State)
    requires Inv(c, s) && c.rollouts > 0 && AllFit(c.weights, c.size) && s[0].pc != Finished
    ensures CanStep(c, s)
  {
    var u := s[0];
    assert NodeAt(c, s, 0);
    if u.op.Readable? && u.acks == [] {
      WaitingForAck(c, s, 0);
    } else if u.pc == AwaitLastAck {
      assert Enabled(c, s, 0, AwaitAck);
    } else if !MustShip(c, u) {
      assert Enabled(c, s, 0, Store);
    } else if u.op.NoOp? {
      assert Enabled(c, s, 0, Flush);
    } else {
      assert Enabled(c, s, 0, AwaitAck);
    }
  }

  /** A rank after a finished one has all its mail. */
  lemma AfterFinished(c: Config, s: State, r: nat)
    requires Inv(c, s) && 0 < r < |s| && s[r - 1].pc == Finished && s[r].pc != Finished
    ensures CanStep(c, s)
  {
    var u := s[r];
    assert NodeAt(c, s, r - 1);
    assert NodeAt(c, s, r);
    assert LinkAt(c, s, r - 1);
    if u.pc == Yielding && u.op.Readable? && u.acks == [] {
      WaitingForAck(c, s, r);
    } else {
      RolloutMoves(c, s, r);
    }
  }

  /** The chain never stalls: a state that is not final has an enabled step. */
  lemma NoDeadlock(c: Config, s: State)
    requires Inv(c, s) && c.rollouts > 0 && AllFit(c.weights, c.size)
    ensures AllFinished(s) || CanStep(c, s)
  {
    if s[0].pc != Finished {
      TrainerMoves(c, s);
    } else {
      var r := 1;
      while r < |s| && s[r].pc == Finished
        invariant 1 <= r <= |s| && forall i :: 0 <= i < r ==> s[i].pc == Finished
      {
        r := r + 1;
      }
      if r < |s| {
        AfterFinished(c, s, r);
      }
    }
  }

  // ---- what a rank waits for

  /**
   At every moment of every run a rollout rank waits for the next message, the
   end of its own read or an acknowledgement that is due, and for nothing else.
   */
  lemma RolloutWaitsFor(c: Config, run: seq<State>, k: nat, r: nat)
    requires c.rollouts > 0 && IsRun(c, run) && k < |run| && 0 < r < |run[k]|
    ensures
      var s, u := run[k], run[k][r];
      && (u.pc == AwaitFirst || u.pc == AwaitMeta ==> (Enabled(c, s, r, ReadMetadata) <==> u.inbox != []))
      && (u.pc == FirstRead || u.pc == WaitRead ==> (Enabled(c, s, r, AwaitRead) <==> u.read == Complete))
      && (u.pc == Head ==> Enabled(c, s, r, Forward))
      && (u.pc == Yielding && u.pos < |u.metadata.bucketMeta| ==> Enabled(c, s, r, Yield))
      && (u.pc == Yielding && u.pos == |u.metadata.bucketMeta| ==>
            (Enabled(c, s, r, AwaitAck) <==> u.op.NoOp? || u.acks != []))
  {
    RunKeepsInv(c, run, k);
    var u := run[k][r];
    assert NodeAt(c, run[k], r);
    if u.pc == Yielding {
      ReadOutIsItems(c.Buckets()[Current(u)], u.Buf(u.send));
    }
  }

  /** A transfer waits for nothing: any byte that is missing can be copied next, and then it can complete. */
  lemma TransfersWaitForNothing(c: Config, run: seq<State>, k: nat, r: nat)
    requires c.rollouts > 0 && IsRun(c, run) && k < |run| && 0 < r < |run[k]| && run[k][r].read.Active?
    ensures forall i :: i in run[k][r].read.pending ==> Enabled(c, run[k], r, CopyByte(i))
    ensures run[k][r].read.pending == {} ==> Enabled(c, run[k], r, CompleteRead)
  {
    RunKeepsInv(c, run, k);
    assert NodeAt(c, run[k], r);
    assert LinkAt(c, run[k], r - 1);
    AllBytesAre(c.size);
  }

  /** The trainer only waits for acknowledgements, and only before it ships a bucket and at the end. */
  lemma TrainerWaitsFor(c: Config, run: seq<State>, k: nat)
    requires c.rollouts > 0 && IsRun(c, run) && k < |run| && run[k] != []
    ensures
      var s, u := run[k], run[k][0];
      && (u.pc == Filling && u.idx < |c.weights| && u.offset + |c.weights[u.idx].value| <= c.size ==>
            Enabled(c, s, 0, Store))
      && (u.pc == Filling && (u.idx < |c.weights| ==> u.offset + |c.weights[u.idx].value| > c.size) ==>
            if u.op.NoOp? then Enabled(c, s, 0, Flush) else (Enabled(c, s, 0, AwaitAck) <==> u.acks != []))
      && (u.pc == AwaitLastAck ==> (Enabled(c, s, 0, AwaitAck) <==> u.acks != []))
  {
    RunKeepsInv(c, run, k);
    assert NodeAt(c, run[k], 0);
  }

  // ---- the steps that remain

  function TrainerWork(c: Config, u: Node): int {
    |c.weights| - u.idx + (|c.Buckets()| - u.ops) + (|c.Buckets()| - u.Acked())
  }

  /** Buffer swaps, offers and acknowledgements a rollout rank has behind it. */
  function Turns(u: Node, buckets: nat): int {
    var k := Current(u);
    match u.pc
    case Head => 3 * k + 1
    case AwaitMeta => 3 * k + 2
    case Yielding => 3 * k + 2
    case WaitRead => 3 * k + 3
    case Finished => 3 * buckets
    case _ => 0
  }

  function BytesToCome(c: Config, u: Node): int {
    (|c.Buckets()| - u.got) * c.size + if u.read.Active? then |u.read.pending| else 0
  }

  function RolloutWork(c: Config, u: Node): int {
    |Stream(c.weights, c.size)| - |u.yielded| + BytesToCome(c, u)
    + 5 * |c.Buckets()| - u.got - u.Completed() - Turns(u, |c.Buckets()|)
  }

  function NodeWork(c: Config, u: Node, r: nat): int {
    if r == 0 then TrainerWork(c, u) else RolloutWork(c, u)
  }

  function Work(c: Config, s: State, n: nat): int
    requires n <= |s|
  {
    if n == 0 then 0 else Work(c, s, n - 1) + NodeWork(c, s[n - 1], n - 1)
  }

  /** The length of a complete run. */
  function RunLength(c: Config): int {
    var b := |c.Buckets()|;
    |c.weights| + 2 * b + c.rollouts * (|Stream(c.weights, c.size)| + b * c.size + 5 * b)
  }

  lemma TurnsAreBounded(c: Config, u: Node, hasNext: bool)
    requires RolloutInv(c, u, hasNext)
    ensures u.got <= |c.Buckets()| && u.got + u.Completed() + Turns(u, |c.Buckets()|) <= 5 * |c.Buckets()|
    ensures u.pc == Finished ==> u.read == Idle && u.got == |c.Buckets()| && u.yielded == Stream(c.weights, c.size)
  {
  }

  lemma NodeWorkBounds(c: Config, u: Node, r: nat)
    requires NodeInv(c, u, r)
    ensures NodeWork(c, u, r) >= 0
    ensures u.pc == Finished ==> NodeWork(c, u, r) == 0
  {
    if r > 0 {
      YieldedIsPrefix(c, u, r < c.rollouts);
      TurnsAreBounded(c, u, r < c.rollouts);
      BytesToComeBounds(c, u);
    }
  }

  lemma BytesToComeBounds(c: Config, u: Node)
    requires u.got <= |c.Buckets()|
    ensures BytesToCome(c, u) >= 0
    ensures u.read == Idle && u.got == |c.Buckets()| ==> BytesToCome(c, u) == 0
  {
    var n := |c.Buckets()| - u.got;
    assert n * c.size >= 0;
  }

  lemma ReadMetadataWork(c: Config, u: Node)
    requires u.inbox != [] && !u.read.Active?
    requires u.pc == AwaitFirst || (u.pc == AwaitMeta && !u.metadata.isLast)
    ensures RolloutWork(c, ReadMetadataMove(c, u).node) == RolloutWork(c, u) - 1
  {
    BytesOfABucket(c, u);
  }

  /** Starting a read moves one bucket's bytes from the buckets to come to the read. */
  lemma BytesOfABucket(c: Config, u: Node)
    requires u.inbox != [] && !u.read.Active?
    ensures BytesToCome(c, ReadMetadataMove(c, u).node) == BytesToCome(c, u)
  {
    AllBytesAre(c.size);
    var n := |c.Buckets()| - u.got;
    assert (n - 1) * c.size + c.size == n * c.size;
  }

  lemma AwaitReadWork(c: Config, u: Node)
    requires u.read == Complete && (u.pc == WaitRead || (u.pc == FirstRead && u.got == 1))
    ensures RolloutWork(c, AwaitReadMove(u).node) == RolloutWork(c, u) - 1
  {
  }

  lemma ForwardWork(c: Config, u: Node, hasNext: bool)
    requires u.pc == Head
    ensures RolloutWork(c, ForwardMove(u, hasNext).node) == RolloutWork(c, u) - 1
  {
  }

  lemma AwaitAckWork(c: Config, u: Node)
    requires u.pc == Yielding && (u.metadata.isLast ==> u.got == |c.Buckets()|)
    requires u.op.Readable? ==> u.acks != [] && u.acks[0] == u.op.notifyKey
    ensures RolloutWork(c, AwaitAckMove(u).node) == RolloutWork(c, u) - 1
  {
  }

  lemma CopyByteWork(c: Config, u: Node, i: nat, byte: Byte)
    requires u.read.Active? && i in u.read.pending && i < |u.Buf(u.read.to)|
    ensures RolloutWork(c, CopyByteMove(u, i, byte).node) == RolloutWork(c, u) - 1
  {
  }

  lemma CompleteReadWork(c: Config, u: Node)
    requires u.read.Active? && u.read.pending == {}
    ensures RolloutWork(c, CompleteReadMove(u).node) == RolloutWork(c, u) - 1
  {
  }

  lemma YieldWork(c: Config, u: Node)
    requires u.pc == Yielding && Yieldable(u)
    ensures RolloutWork(c, YieldMove(u).node) == RolloutWork(c, u) - 1
  {
  }

  lemma LastBucketIsRead(c: Config, s: State, r: nat)
    requires Inv(c, s) && 0 < r < |s|
    ensures s[r].pc == Yielding && s[r].metadata.isLast ==> s[r].got == |c.Buckets()|
    ensures s[r].pc == AwaitMeta ==> !s[r].metadata.isLast
    ensures s[r].pc == FirstRead ==> s[r].got == 1
    ensures s[r].op.Readable? && s[r].acks != [] ==> s[r].acks[0] == s[r].op.notifyKey
    ensures s[r].pc == AwaitFirst || s[r].pc == AwaitMeta ==> !s[r].read.Active?
  {
    assert NodeAt(c, s, r);
    if r + 1 < |s| {
      assert LinkAt(c, s, r);
    }
  }

  lemma RolloutStepDoesWork(c: Config, s: State, r: nat, act: Action)
    requires Inv(c, s) && 0 < r < |s| && Enabled(c, s, r, act)
    ensures RolloutWork(c, MoveOf(c, s, r, act).node) == RolloutWork(c, s[r]) - 1
  {
    var u := s[r];
    LastBucketIsRead(c, s, r);
    match act
    case AwaitAck =>
      RolloutNeverFills(c, s, r);
      AwaitAckWork(c, u);
    case ReadMetadata => ReadMetadataWork(c, u);
    case AwaitRead => AwaitReadWork(c, u);
    case Forward => ForwardWork(c, u, r + 1 < |s|);
    case Yield => YieldWork(c, u);
    case CopyByte(i) => CopyByteWork(c, u, i, s[r - 1].Buf(u.read.from)[i]);
    case CompleteRead => CompleteReadWork(c, u);
  }

  lemma RolloutNeverFills(c: Config, s: State, r: nat)
    requires Inv(c, s) && 0 < r < |s|
    ensures s[r].pc != Filling && s[r].pc != AwaitLastAck
  {
    assert NodeAt(c, s, r);
  }

  lemma TrainerStepDoesWork(c: Config, s: State, act: Action)
    requires Inv(c, s) && c.rollouts > 0 && Enabled(c, s, 0, act)
    ensures TrainerWork(c, MoveOf(c, s, 0, act).node) == TrainerWork(c, s[0]) - 1
  {
    assert NodeAt(c, s, 0);
    assert LinkAt(c, s, 0);
  }

  lemma MailIsNoWork(c: Config, u: Node, u': Node, r: nat)
    requires u' == u.(inbox := u'.inbox, acks := u'.acks)
    ensures NodeWork(c, u', r) == NodeWork(c, u, r)
  {
  }

  /** Every step of the chain does one unit of work: the acting rank's. */
  lemma StepWorkAt(c: Config, s: State, r: nat, act: Action, i: nat)
    requires Inv(c, s) && c.rollouts > 0 && r < |s| && Enabled(c, s, r, act) && i < |s|
    ensures NodeWork(c, Apply(c, s, r, act)[i], i) == NodeWork(c, s[i], i) - if i == r then 1 else 0
  {
    if i != r {
      MailIsNoWork(c, s[i], Apply(c, s, r, act)[i], i);
    } else if r == 0 {
      TrainerStepDoesWork(c, s, act);
    } else {
      RolloutStepDoesWork(c, s, r, act);
    }
  }

  lemma {:induction false} WorkChange(c: Config, s: State, s': State, r: nat, n: nat)
    requires n <= |s| == |s'|
    requires forall i :: 0 <= i < |s| ==> NodeWork(c, s'[i], i) == NodeWork(c, s[i], i) - if i == r then 1 else 0
    ensures Work(c, s', n) == Work(c, s, n) - if r < n then 1 else 0
  {
    if n > 0 {
      WorkChange(c, s, s', r, n - 1);
    }
  }

  lemma StepDoesWork(c: Config, s: State, s': State)
    requires Inv(c, s) && c.rollouts > 0 && Next(c, s, s')
    ensures |s'| == |s| && Work(c, s', |s|) == Work(c, s, |s|) - 1
  {
    var r: nat, act :| r < |s| && Enabled(c, s, r, act) && s' == Apply(c, s, r, act);
    forall i | 0 <= i < |s|
      ensures NodeWork(c, s'[i], i) == NodeWork(c, s[i], i) - if i == r then 1 else 0
    {
      StepWorkAt(c, s, r, act, i);
    }
    WorkChange(c, s, s', r, |s|);
  }

  lemma {:induction false} WorkSum(c: Config, s: State, n: nat)
    requires n <= |s| && forall i :: 0 <= i < |s| ==> NodeWork(c, s[i], i) >= 0
    ensures Work(c, s, n) >= 0
    ensures (forall i :: 0 <= i < |s| ==> NodeWork(c, s[i], i) == 0) ==> Work(c, s, n) == 0
  {
    if n > 0 {
      WorkSum(c, s, n - 1);
    }
  }

  lemma WorkAtLeastZero(c: Config, s: State)
    requires Inv(c, s)
    ensures Work(c, s, |s|) >= 0
    ensures AllFinished(s) ==> Work(c, s, |s|) == 0
  {
    forall i | 0 <= i < |s|
      ensures NodeWork(c, s[i], i) >= 0 && (s[i].pc == Finished ==> NodeWork(c, s[i], i) == 0)
    {
      assert NodeAt(c, s, i);
      NodeWorkBounds(c, s[i], i);
    }
    WorkSum(c, s, |s|);
  }

  lemma {:induction false} InitialWork(c: Config, n: nat)
    requires 0 < n <= |Init(c)|
    ensures var b := |c.Buckets()|;
            Work(c, Init(c), n)
            == |c.weights| + 2 * b + (n - 1) * (|Stream(c.weights, c.size)| + b * c.size + 5 * b)
  {
    if n > 1 {
      InitialWork(c, n - 1);
      var b := |c.Buckets()|;
      var each := |Stream(c.weights, c.size)| + b * c.size + 5 * b;
      assert RolloutWork(c, Init(c)[n - 1]) == each;
      assert (n - 2) * each + each == (n - 1) * each;
    } else {
      assert Work(c, Init(c), 0) == 0;
    }
  }

  lemma {:induction false} RunDoesWork(c: Config, run: seq<State>, k: nat)
    requires c.rollouts > 0 && IsRun(c, run) && k < |run|
    ensures Inv(c, run[k]) && Work(c, run[k], |run[k]|) == RunLength(c) - k
  {
    RunKeepsInv(c, run, k);
    if k == 0 {
      InitialWork(c, |run[0]|);
    } else {
      RunDoesWork(c, run, k - 1);
      assert Next(c, run[k - 1], run[k - 1 + 1]);
      StepDoesWork(c, run[k - 1], run[k]);
    }
  }

  /** No run is longer than `RunLength`. */
  lemma RunsAreBounded(c: Config, run: seq<State>)
    requires c.rollouts > 0 && IsRun(c, run)
    ensures |run| - 1 <= RunLength(c)
  {
    RunDoesWork(c, run, |run| - 1);
    WorkAtLeastZero(c, run[|run| - 1]);
  }

  /**
   A run that cannot go on is a complete weight update: it took exactly
   `RunLength` steps, every rank is finished and has no operation outstanding,
   and every rollout rank has yielded the trainer's weights.
   */
  lemma EveryMaximalRunDelivers(c: Config, run: seq<State>, last: State)
    requires c.rollouts > 0 && IsRun(c, run) && AllFit(c.weights, c.size)
    requires last == run[|run| - 1] && !CanStep(c, last)
    ensures |run| - 1 == RunLength(c)
    ensures forall r :: 0 <= r < |last| ==> last[r].pc == Finished && last[r].op == NoOp
    ensures DistinctKeys(c.weights) ==> forall r :: 0 < r < |last| ==> last[r].yielded == c.weights
  {
    var k := |run| - 1;
    RunDoesWork(c, run, k);
    NoDeadlock(c, last);
    WorkAtLeastZero(c, last);
    forall r | 0 <= r < |last| ensures last[r].op == NoOp {
      assert NodeAt(c, last, r);
    }
    if DistinctKeys(c.weights) {
      forall r | 0 < r < |last| ensures last[r].yielded == c.weights {
        EveryRankYieldsAPrefix(c, run, k, r);
      }
    }
  }
}
