/** Which experts of a layer an expert-parallel rank copies, and under which local index. */
module ExpertShards {
  import opened Arithmetic

  /** The rank's window over the experts. */
  predicate Owns(experts: nat, epSize: nat, rank: int, idx: int)
    requires epSize > 0
  {
    var local := experts / epSize;
    rank * local <= idx < (rank + 1) * local
  }

  /** The converter's loop over the experts of a layer: entry `l` is the expert that becomes local expert `l`. */
  method LocalExperts(experts: nat, epSize: nat, rank: nat) returns (copied: seq<nat>)
    requires epSize > 0 && rank < epSize
    ensures 0 <= experts / epSize == |copied|
    ensures forall l :: 0 <= l < |copied| ==> copied[l] == rank * (experts / epSize) + l
    ensures forall idx: nat :: idx < experts ==> (idx in copied <==> Owns(experts, epSize, rank, idx))
  {
    copied := [];
    DivNat(experts, epSize);
    ghost var local := experts / epSize;
    WindowFits(experts, epSize, rank);
    for idx := 0 to experts
      invariant |copied|
              == if idx < rank * local then 0 else if idx < (rank + 1) * local then idx - rank * local else local
      invariant forall l :: 0 <= l < |copied| ==> copied[l] == rank * local + l
    {
      var numLocalExperts := experts / epSize;
      var start, end := rank * numLocalExperts, (rank + 1) * numLocalExperts;
      if idx < start || idx >= end {
        continue;
      }
      copied := copied + [idx];
    }
    forall idx: nat | idx < experts && Owns(experts, epSize, rank, idx) ensures idx in copied {
      assert copied[idx - rank * local] == idx;
    }
  }

  lemma WindowFits(experts: nat, epSize: nat, rank: nat)
    requires epSize > 0 && rank < epSize
    ensures
      var local := experts / epSize;
      0 <= rank * local <= (rank + 1) * local == rank * local + local && (rank + 1) * local <= experts
  {
    DivNat(experts, epSize);
    var local: nat := experts / epSize;
    MulMonotone(rank + 1, epSize, local);
    assert experts == epSize * local + experts % epSize;
  }

  /** An expert belongs to some rank iff it lies in the whole windows; it never belongs to two. */
  lemma OwnedIff(experts: nat, epSize: nat, idx: nat)
    requires epSize > 0
    ensures 0 <= experts / epSize
    ensures (exists r: nat :: r < epSize && Owns(experts, epSize, r, idx)) <==> idx < epSize * (experts / epSize)
    ensures forall r: nat, t: nat :: Owns(experts, epSize, r, idx) && Owns(experts, epSize, t, idx) ==> r == t
  {
    DivNat(experts, epSize);
    var local: nat := experts / epSize;
    if idx < epSize * local {
      RankOf(idx, local, epSize);
      assert Owns(experts, epSize, idx / local, idx);
    }
    forall r: nat | r < epSize && Owns(experts, epSize, r, idx) ensures idx < epSize * local {
      MulMonotone(r + 1, epSize, local);
    }
    forall r: nat, t: nat | Owns(experts, epSize, r, idx) && Owns(experts, epSize, t, idx) ensures r == t {
      NoLater(r, t, local, idx);
      NoLater(t, r, local, idx);
    }
  }

  lemma NoLater(r: nat, t: nat, local: nat, idx: nat)
    requires r * local <= idx < (r + 1) * local && t * local <= idx
    ensures t <= r
  {
    if t > r {
      MulMonotone(r + 1, t, local);
    }
  }

  lemma RankOf(idx: nat, local: nat, epSize: nat)
    requires idx < epSize * local
    ensures local > 0 && 0 <= idx / local < epSize
    ensures idx / local * local <= idx < (idx / local + 1) * local
  {
    assert epSize * 0 == 0;
    DivNat(idx, local);
    var r: nat := idx / local;
    assert idx == r * local + idx % local;
    assert (r + 1) * local == r * local + local;
    if r >= epSize {
      MulMonotone(epSize, r, local);
    }
  }

  /** Every expert is copied by exactly one rank if and only if the ranks divide the experts. */
  lemma AllExpertsCopiedIff(experts: nat, epSize: nat)
    requires epSize > 0
    ensures (forall idx: nat :: idx < experts ==> Copied(experts, epSize, idx)) <==> experts % epSize == 0
  {
    DivNat(experts, epSize);
    var local: nat := experts / epSize;
    assert experts == epSize * local + experts % epSize;
    forall idx: nat ensures Copied(experts, epSize, idx) <==> idx < epSize * local {
      OwnedIff(experts, epSize, idx);
    }
    if experts % epSize != 0 {
      assert !Copied(experts, epSize, experts - 1);
    }
  }

  ghost predicate Copied(experts: nat, epSize: nat, idx: nat)
    requires epSize > 0
  {
    exists r: nat :: r < epSize && Owns(experts, epSize, r, idx)
  }

  /** 3 experts on 2 ranks: the third one is copied by neither. */
  lemma ThreeExpertsOnTwoRanks()
    ensures Copied(3, 2, 0) && Copied(3, 2, 1) && !Copied(3, 2, 2)
  {
    OwnedIff(3, 2, 0);
    OwnedIff(3, 2, 1);
    OwnedIff(3, 2, 2);
  }
}
