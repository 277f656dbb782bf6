/**
 What the NIXL chain guarantees over whole runs, in every interleaving of the
 trainer, the rollout ranks and the transfers between them.
 */
module NixlTheorems {
  import opened OrderedDict
  import opened Packing
  import opened NixlChain
  import opened NixlSafety

  lemma {:induction false} RunKeepsInv(c: Config, run: seq<State>, k: nat)
    requires c.rollouts > 0 && IsRun(c, run) && k < |run|
    ensures Inv(c, run[k])
  {
    if k == 0 {
      InitInv(c);
    } else {
      RunKeepsInv(c, run, k - 1);
      assert Next(c, run[k - 1], run[k - 1 + 1]);
      StepKeepsInv(c, run[k - 1], run[k]);
    }
  }

  // ---- delivery

  lemma {:induction false} StreamOfMonotone(bs: seq<seq<Weight>>, k: nat)
    requires k <= |bs|
    ensures StreamOf(bs[..k]) <= StreamOf(bs)
    decreases |bs| - k
  {
    if k < |bs| {
      StreamOfAppend(bs, k);
      StreamOfMonotone(bs, k + 1);
    } else {
      assert bs[..k] == bs;
    }
  }

  lemma YieldedIsPrefix(c: Config, u: Node, hasNext: bool)
    requires RolloutInv(c, u, hasNext)
    ensures u.yielded <= Stream(c.weights, c.size)
  {
    var bs, k := c.Buckets(), Current(u);
    match u.pc
    case Head => StreamOfMonotone(bs, k);
    case AwaitMeta => StreamOfMonotone(bs, k);
    case Yielding => StreamOfAppend(bs, k); StreamOfMonotone(bs, k + 1);
    case WaitRead => StreamOfMonotone(bs, k + 1);
    case _ =>
  }

  /**
   At every moment of every run, what a rollout rank has yielded is a prefix of
   the trainer's weights, and all of them once the rank has finished. Names must
   be distinct; the weights need not fit, in which case the trainer stops early.
   */
  lemma EveryRankYieldsAPrefix(c: Config, run: seq<State>, k: nat, r: nat)
    requires c.rollouts > 0 && IsRun(c, run) && k < |run| && 0 < r < |run[k]|
    requires DistinctKeys(c.weights)
    ensures run[k][r].yielded <= c.weights
    ensures run[k][r].pc == Finished ==> run[k][r].yielded == c.weights
  {
    RunKeepsInv(c, run, k);
    assert NodeAt(c, run[k], r);
    YieldedIsPrefix(c, run[k][r], r < c.rollouts);
    DistinctNamesArriveUnchanged(c.weights, c.size);
  }

  // ---- the assertions of the source

  /** The only assertion that can fail is the trainer's, on a tensor larger than a bucket. */
  lemma NoOtherAssertionFails(c: Config, run: seq<State>, k: nat, r: nat)
    requires c.rollouts > 0 && IsRun(c, run) && k < |run| && r < |run[k]|
    ensures run[k][r].pc == Failed ==> r == 0 && !AllFit(c.weights, c.size)
  {
    RunKeepsInv(c, run, k);
    assert NodeAt(c, run[k], r);
  }

  /** When it fails, the trainer has offered the buckets of all tensors before the first one that is too large. */
  lemma FailedTrainerHasShipped(c: Config, run: seq<State>, k: nat)
    requires c.rollouts > 0 && IsRun(c, run) && k < |run| && run[k] != [] && run[k][0].pc == Failed
    ensures StoppedAfter(c.weights, c.size, run[k][0].ops) && FirstTooLarge(c.weights, c.size, run[k][0].idx)
  {
    RunKeepsInv(c, run, k);
    assert NodeAt(c, run[k], 0);
  }

  // ---- the two buffers

  /** The buffer is offered to the next rank and not yet acknowledged, or tensors are being yielded from it. */
  predicate InUse(u: Node, side: Side) {
    (u.op.Readable? && u.op.descs == side) || (u.pc == Yielding && u.send == side)
  }

  /** No inbound read and no fill ever targets a buffer in use. */
  lemma WritesTargetFreeBuffers(c: Config, run: seq<State>, k: nat, r: nat)
    requires c.rollouts > 0 && IsRun(c, run) && k < |run| && r < |run[k]|
    ensures run[k][r].read.Active? ==> !InUse(run[k][r], run[k][r].read.to)
    ensures run[k][r].pc == Filling ==> !InUse(run[k][r], run[k][r].send)
  {
    RunKeepsInv(c, run, k);
    assert NodeAt(c, run[k], r);
  }

  /** Over every step of every run, a buffer in use keeps all its bytes. */
  lemma BuffersInUseAreNotOverwritten(c: Config, run: seq<State>, k: nat, r: nat, side: Side)
    requires c.rollouts > 0 && IsRun(c, run) && k + 1 < |run| && r < |run[k]| && InUse(run[k][r], side)
    ensures r < |run[k + 1]| && run[k + 1][r].Buf(side) == run[k][r].Buf(side)
  {
    WritesTargetFreeBuffers(c, run, k, r);
    assert Next(c, run[k], run[k + 1]);
    var r0: nat, act :| r0 < |run[k]| && Enabled(c, run[k], r0, act) && run[k + 1] == Apply(c, run[k], r0, act);
    if r0 == r {
      assert run[k + 1][r] == MoveOf(c, run[k], r, act).node;
    }
  }
}
