/**
 How the NIXL engine wires the workers into a chain: `build_topology` hands out
 ranks and neighbours, the manager checks the column lengths, and every worker
 checks its own neighbours in `init_process_group`.
 */
module NixlTopology {

  import opened Common

  // ---- Python list expressions

  /** `[x] * n`; a non-positive count gives the empty list. */
  function Times<T>(x: T, n: int): seq<T> {
    seq(if n > 0 then n else 0, _ => x)
  }

  /** A slice bound: negative bounds count from the end, and all are clamped. */
  function Bound(i: int, n: nat): (r: nat)
    ensures r <= n
  {
    var j := if i < 0 then i + n else i;
    if j < 0 then 0 else if j > n then n else j
  }

  /** `s[lo:hi]` */
  function Slice<T>(s: seq<T>, lo: int, hi: int): seq<T> {
    var a, b := Bound(lo, |s|), Bound(hi, |s|);
    if a <= b then s[a..b] else []
  }

  /** `s[i]`, with an IndexError outside the list. */
  function Index<T>(s: seq<T>, i: int): Option<T> {
    if 0 <= i < |s| then Some(s[i]) else if i < 0 <= i + |s| then Some(s[i + |s|]) else None
  }

  function Somes<M>(s: seq<M>): seq<Option<M>> {
    seq(|s|, i requires 0 <= i < |s| => Some(s[i]))
  }

  // ---- build_topology

  /** The keyword arguments for one worker group, one list per argument. */
  datatype Columns<+M> = Columns(
    rank: seq<int>, worldSize: seq<nat>, prev: seq<Option<M>>, next: seq<Option<M>>)

  datatype Topology<+M> = Topology(trainer: Columns<M>, rollout: Columns<M>)

  /** `metadata` lists the trainer workers first; None stands for an IndexError. */
  function BuildTopology<M>(trainers: nat, rollouts: nat, metadata: seq<M>): Option<Topology<M>> {
    var n: int := rollouts;
    var first, master := Index(metadata, -n), Index(metadata, 0);
    if first.None? || master.None? then None
    else Some(Topology(
      Columns(
        [0] + Times(-1, trainers - 1),
        Times(rollouts + 1, trainers),
        Times(None, trainers),
        [first] + Times(None, trainers - 1)),
      Columns(
        seq(rollouts, i => i + 1),
        Times(rollouts + 1, rollouts),
        [master] + Somes(Slice(metadata, -n, -1)),
        Somes(Slice(metadata, -n + 1, |metadata|)) + [None])))
  }

  /** The manager's check: every column has one entry per worker. */
  predicate LengthsOk<M>(c: Columns<M>, workers: nat) {
    |c.rank| == |c.worldSize| == |c.prev| == |c.next| == workers
  }

  /** The assertions of `init_process_group` on the arguments of one worker. */
  predicate InitOk<M>(rank: int, worldSize: nat, prev: Option<M>, next: Option<M>) {
    if rank < 0 then prev.None? && next.None?
    else if rank == 0 then prev.None? && next.Some?
    else if rank < worldSize - 1 then prev.Some? && next.Some?
    else if rank == worldSize - 1 then prev.Some? && next.None?
    else true
  }

  /** The worker that gets a rank: trainer worker 0 is rank 0, rollout worker `i` is rank `i + 1`. */
  function AgentOf<M>(rank: nat, trainers: nat, metadata: seq<M>): M
    requires 0 < trainers && rank <= |metadata| - trainers
  {
    if rank == 0 then metadata[0] else metadata[trainers + rank - 1]
  }

  // ---- the chain

  /** The length checks pass exactly when there are at least two rollout workers. */
  lemma LengthsOkIff<M>(trainers: nat, rollouts: nat, metadata: seq<M>)
    requires |metadata| == trainers + rollouts
    ensures
      var t := BuildTopology(trainers, rollouts, metadata);
      (t.Some? && LengthsOk(t.value.trainer, trainers) && LengthsOk(t.value.rollout, rollouts))
      <==> trainers >= 1 && rollouts >= 2
  {
  }

  /** Trainer worker `i`: worker 0 heads the chain, the others are rank -1 and unconnected. */
  predicate TrainerOk<M(==)>(c: Columns<M>, trainers: nat, metadata: seq<M>, i: nat)
    requires LengthsOk(c, trainers) && i < trainers < |metadata|
  {
    && c.worldSize[i] == 1 + |metadata| - trainers
    && c.rank[i] == (if i == 0 then 0 else -1) && InitOk(c.rank[i], c.worldSize[i], c.prev[i], c.next[i])
    && (i == 0 ==> c.next[i] == Some(AgentOf(1, trainers, metadata)))
  }

  /** Rollout worker `i` is rank `i + 1`, between the ranks before and after it. */
  predicate RolloutOk<M(==)>(c: Columns<M>, trainers: nat, rollouts: nat, metadata: seq<M>, i: nat)
    requires LengthsOk(c, rollouts) && i < rollouts && trainers > 0 && |metadata| == trainers + rollouts
  {
    && c.worldSize[i] == 1 + rollouts
    && c.rank[i] == i + 1 && InitOk(c.rank[i], c.worldSize[i], c.prev[i], c.next[i])
    && c.prev[i] == Some(AgentOf(i, trainers, metadata))
    && c.next[i] == if i + 1 < rollouts then Some(AgentOf(i + 2, trainers, metadata)) else None
  }

  /**
   With at least two rollout workers the topology is one chain: every worker
   is told the same number of ranks, the trainer's and the rollout workers', and
   passes its assertions, ranks are handed out in worker order, the idle trainer
   workers are rank -1 and unconnected, and each rank's next neighbour has that
   rank as its previous neighbour.
   */
  lemma TopologyIsAChain<M>(trainers: nat, rollouts: nat, metadata: seq<M>)
    requires |metadata| == trainers + rollouts && trainers >= 1 && rollouts >= 2
    ensures BuildTopology(trainers, rollouts, metadata).Some?
    ensures
      var t := BuildTopology(trainers, rollouts, metadata).value;
      && LengthsOk(t.trainer, trainers) && LengthsOk(t.rollout, rollouts)
      && (forall i: nat :: i < trainers ==> TrainerOk(t.trainer, trainers, metadata, i))
      && (forall i: nat :: i < rollouts ==> RolloutOk(t.rollout, trainers, rollouts, metadata, i))
  {
    var t := BuildTopology(trainers, rollouts, metadata).value;
    LengthsOkIff(trainers, rollouts, metadata);
    forall i: nat | i < rollouts ensures RolloutOk(t.rollout, trainers, rollouts, metadata, i) {
      RolloutIsChained(trainers, rollouts, metadata, i);
    }
  }

  lemma RolloutIsChained<M>(trainers: nat, rollouts: nat, metadata: seq<M>, i: nat)
    requires |metadata| == trainers + rollouts && trainers >= 1 && rollouts >= 2 && i < rollouts
    requires BuildTopology(trainers, rollouts, metadata).Some?
    requires LengthsOk(BuildTopology(trainers, rollouts, metadata).value.rollout, rollouts)
    ensures RolloutOk(BuildTopology(trainers, rollouts, metadata).value.rollout, trainers, rollouts, metadata, i)
  {
    NeighbourLists(trainers, rollouts, metadata);
  }

  /** The slices that `build_topology` takes for the neighbours of the rollout workers. */
  lemma NeighbourLists<M>(trainers: nat, rollouts: nat, metadata: seq<M>)
    requires |metadata| == trainers + rollouts && rollouts >= 2
    ensures
      var n: int := rollouts;
      var inner, tail := Slice(metadata, -n, -1), Slice(metadata, -n + 1, |metadata|);
      && |inner| == |tail| == rollouts - 1
      && forall i :: 0 <= i < rollouts - 1 ==>
            inner[i] == metadata[trainers + i] && tail[i] == metadata[trainers + 1 + i]
  {
  }

  /** One rollout worker: the slice that should leave out the first worker keeps all, and a column is too long. */
  lemma OneRolloutWorkerFails<M>(trainers: nat, metadata: seq<M>)
    requires trainers >= 1 && |metadata| == trainers + 1
    ensures BuildTopology(trainers, 1, metadata).Some?
    ensures
      var c := BuildTopology(trainers, 1, metadata).value.rollout;
      |c.rank| == |c.prev| == 1 && |c.next| == trainers + 2 && !LengthsOk(c, 1)
  {
  }
}
