/**
 The search for a pipeline sharding that is as uniform as possible: the middle
 stages all get `m` layers, the two end stages share what is left.
 */
module PipelineShards {
  import opened Arithmetic
  import opened Common

  datatype Error = TooFewLayers | BadPpSize | NoPlan

  datatype Candidate = Candidate(middle: nat, stages: seq<int>, gap: nat)

  function Sum(s: seq<int>): int {
    if s == [] then 0 else Sum(s[..|s| - 1]) + s[|s| - 1]
  }

  /** The stages for `m` layers in the middle; halves round down, also below zero. */
  function Plan(layers: int, pp: int, m: nat): (s: seq<int>)
    requires pp >= 3
  {
    var ends := layers - m * (pp - 2);
    [ends / 2] + seq(pp - 2, _ => m) + [ends - ends / 2]
  }

  /** `m` is acceptable: both end stages are non-empty and no longer than a middle one. */
  predicate Fits(layers: int, pp: int, m: nat)
    requires pp >= 3
  {
    var ends := layers - m * (pp - 2);
    0 < ends / 2 <= m && 0 < ends - ends / 2 <= m
  }

  /** How much shorter the first stage is than a middle one. */
  function Gap(layers: int, pp: int, m: nat): int {
    m - (layers - m * (pp - 2)) / 2
  }

  /** The entry that comes first after a stable sort by `gap`. */
  function FirstSorted(s: seq<Candidate>): Candidate
    requires s != []
  {
    if |s| == 1 then s[0]
    else
      var c := FirstSorted(s[..|s| - 1]);
      if s[|s| - 1].gap < c.gap then s[|s| - 1] else c
  }

  // ---- the candidates

  /** The acceptable middle lengths below `n`, in the order in which the loop meets them. */
  function Candidates(layers: int, pp: int, n: nat): seq<Candidate>
    requires pp >= 3
  {
    if n == 0 then []
    else if Fits(layers, pp, n - 1) then
      Candidates(layers, pp, n - 1) + [Candidate(n - 1, Plan(layers, pp, n - 1), Gap(layers, pp, n - 1))]
    else Candidates(layers, pp, n - 1)
  }

  /** `m` fits iff `m * (pp - 2) + 2 <= layers <= m * pp`. */
  lemma FitsIff(layers: int, pp: int, m: nat)
    requires pp >= 3
    ensures Fits(layers, pp, m) <==> m * (pp - 2) + 2 <= layers <= m * pp
  {
    MulMinusTwo(m, pp);
  }

  /** A longer middle leaves the ends shorter, so the gap grows. */
  lemma GapGrows(layers: int, pp: int, m: nat, k: nat)
    requires pp >= 3 && m < k
    ensures Gap(layers, pp, m) < Gap(layers, pp, k)
  {
    MulMonotone(m, k, pp - 2);
  }

  lemma LargerDoesNotFit(layers: nat, pp: nat, m: nat, k: nat)
    requires pp >= 3 && m <= k && m * (pp - 2) + 2 > layers
    ensures !Fits(layers, pp, k)
  {
    FitsIff(layers, pp, k);
    MulMonotone(m, k, pp - 2);
  }

  lemma SmallerDoesNotFit(layers: nat, pp: nat, k: nat)
    requires pp >= 3 && k < CeilDiv(layers, pp)
    ensures !Fits(layers, pp, k)
  {
    FitsIff(layers, pp, k);
    CeilDivIsLeast(layers, pp, k);
  }

  /** The middle length that the search ends up with, if it finds any. */
  function Best(layers: nat, pp: nat): int
    requires pp > 0
  {
    CeilDiv(layers, pp)
  }

  /** Whether the search finds anything. */
  predicate HasPlan(layers: nat, pp: nat)
    requires pp >= 3
  {
    Best(layers, pp) * (pp - 2) + 2 <= layers
  }

  lemma {:induction false} NoCandidates(layers: nat, pp: nat, n: nat)
    requires pp >= 3 && (n <= Best(layers, pp) || !HasPlan(layers, pp))
    ensures Candidates(layers, pp, n) == []
  {
    if n > 0 {
      NoCandidates(layers, pp, n - 1);
      DivNat(layers + pp - 1, pp);
      if n - 1 < Best(layers, pp) {
        SmallerDoesNotFit(layers, pp, n - 1);
      } else {
        LargerDoesNotFit(layers, pp, Best(layers, pp), n - 1);
      }
    }
  }

  lemma {:induction false} FirstCandidate(layers: nat, pp: nat, n: nat)
    requires pp >= 3 && HasPlan(layers, pp) && n > Best(layers, pp)
    ensures 0 <= Best(layers, pp) && Candidates(layers, pp, n) != []
    ensures
      var m := Best(layers, pp);
      FirstSorted(Candidates(layers, pp, n)) == Candidate(m, Plan(layers, pp, m), Gap(layers, pp, m))
  {
    var m := Best(layers, pp);
    DivNat(layers + pp - 1, pp);
    if n - 1 > m {
      FirstCandidate(layers, pp, n - 1);
      GapGrows(layers, pp, m, n - 1);
    } else {
      NoCandidates(layers, pp, m);
      FitsIff(layers, pp, m);
      CeilDivIsLeast(layers, pp, m);
    }
  }

  // ---- the search

  /** The shards that the search must return: with three or more stages, the rounded-up average in the middle. */
  function Shards(layers: int, pp: int): Result<seq<int>, Error> {
    if layers < pp then Err(TooFewLayers)
    else if pp < 1 then Err(BadPpSize)
    else if pp == 1 then Ok([layers])
    else if pp == 2 then Ok([layers / 2, layers - layers / 2])
    else if !HasPlan(layers, pp) then Err(NoPlan)
    else
      BestInRange(layers, pp);
      Ok(Plan(layers, pp, Best(layers, pp)))
  }

  /** `get_dynamic_pipeline_shards`: try every middle length, sort by gap, take the first. */
  method GetDynamicPipelineShards(layers: int, pp: int) returns (r: Result<seq<int>, Error>)
    ensures r == Shards(layers, pp)
  {
    if layers < pp {
      return Err(TooFewLayers);
    }
    if pp < 1 {
      return Err(BadPpSize);
    }
    if pp == 1 {
      return Ok([layers]);
    }
    if pp == 2 {
      return Ok([layers / 2, layers - layers / 2]);
    }
    var middleSize := pp - 2;
    var strategies: seq<Candidate> := [];
    for m := 0 to layers
      invariant strategies == Candidates(layers, pp, m)
    {
      var ends := layers - m * middleSize;
      var first, last := ends / 2, ends - ends / 2;
      if 0 < first <= m && 0 < last <= m {
        var gap := if first - m < 0 then m - first else first - m;
        strategies := strategies + [Candidate(m, [first] + seq(middleSize, _ => m) + [last], gap)];
      }
    }
    if !HasPlan(layers, pp) {
      NoCandidates(layers, pp, layers);
      return Err(NoPlan);
    }
    BestInRange(layers, pp);
    FirstCandidate(layers, pp, layers);
    return Ok(FirstSorted(strategies).stages);
  }

  lemma BestInRange(layers: nat, pp: nat)
    requires pp >= 3 && HasPlan(layers, pp)
    ensures 0 <= Best(layers, pp) < layers
  {
    var m := Best(layers, pp);
    DivNat(layers + pp - 1, pp);
    MulMonotone(1, pp - 2, m);
    assert m * (pp - 2) == (pp - 2) * m;
  }

  /** 5 layers on 4 stages: no middle length is acceptable, and the search raises. */
  lemma FiveLayersOnFourStages()
    ensures Shards(5, 4) == Err(NoPlan) && forall m: nat :: !Fits(5, 4, m)
  {
    forall m: nat ensures !Fits(5, 4, m) {
      FitsIff(5, 4, m);
    }
  }

  /** With up to 5 layers there is no other such case. */
  lemma FewLayersHavePlans(layers: nat, pp: nat)
    requires 0 < pp <= layers <= 5 && !(layers == 5 && pp == 4)
    ensures Shards(layers, pp).Ok?
  {
    if pp >= 3 {
      assert Best(layers, pp) == if layers == pp then 1 else 2;
    }
  }

  // ---- what the plan is good for

  /** A division of `layers` layers over `pp` stages. */
  predicate Divides(s: seq<int>, layers: int, pp: int) {
    |s| == pp && Sum(s) == layers && forall i :: 0 <= i < |s| ==> s[i] >= 0
  }

  lemma SumConstant(n: nat, m: int)
    ensures Sum(seq(n, _ => m)) == n * m
  {
    var s := seq(n, _ => m);
    if n > 0 {
      SumConstant(n - 1, m);
      assert s[..n - 1] == seq(n - 1, _ => m);
      assert n * m == (n - 1) * m + m;
    }
  }

  lemma {:induction false} SumAppend(a: seq<int>, b: seq<int>)
    ensures Sum(a + b) == Sum(a) + Sum(b)
  {
    if b == [] {
      assert a + b == a;
    } else {
      SumAppend(a, b[..|b| - 1]);
      assert (a + b)[..|a + b| - 1] == a + b[..|b| - 1];
    }
  }

  /** The plan uses every layer, leaves no stage empty, and no stage exceeds the middle length. */
  lemma PlanIsComplete(layers: int, pp: int, m: nat)
    requires pp >= 3 && Fits(layers, pp, m)
    ensures Divides(Plan(layers, pp, m), layers, pp)
    ensures forall i :: 0 <= i < pp ==> 0 < Plan(layers, pp, m)[i] <= m
  {
    var ends := layers - m * (pp - 2);
    var mid := seq(pp - 2, _ => m);
    SumConstant(pp - 2, m);
    assert (pp - 2) * m == m * (pp - 2);
    SumOne(ends / 2);
    SumOne(ends - ends / 2);
    SumAppend([ends / 2], mid);
    SumAppend([ends / 2] + mid, [ends - ends / 2]);
  }

  lemma SumOne(x: int)
    ensures Sum([x]) == x
  {
    assert [x][..0] == [];
  }

  /** In any division of the layers some stage has at least the rounded-up average. */
  lemma SomeStageIsLong(s: seq<int>, layers: nat, pp: nat)
    requires pp > 0 && Divides(s, layers, pp)
    ensures exists i :: 0 <= i < |s| && s[i] >= Best(layers, pp)
  {
    var m := Best(layers, pp);
    if forall i :: 0 <= i < |s| ==> s[i] < m {
      DivNat(layers + pp - 1, pp);
      assert s[0] < m;
      CeilDivIsLeast(layers, pp, m - 1);
      assert pp * (m - 1) == (m - 1) * pp;
      SumAtMost(s, m - 1);
    }
  }

  lemma {:induction false} SumAtMost(s: seq<int>, bound: int)
    requires forall i :: 0 <= i < |s| ==> s[i] <= bound
    ensures Sum(s) <= |s| * bound
  {
    if s != [] {
      var n := |s| - 1;
      SumAtMost(s[..n], bound);
      assert |s| * bound == n * bound + bound;
    } else {
      assert |s| * bound == 0;
    }
  }

  /**
   Whatever the search returns divides all layers over non-empty stages, and
   its longest stage is as short as in any division of the layers.
   */
  lemma ShardsAreAsFlatAsPossible(layers: nat, pp: nat, other: seq<int>)
    requires Shards(layers, pp).Ok? && Divides(other, layers, pp)
    ensures Divides(Shards(layers, pp).value, layers, pp)
    ensures
      var plan := Shards(layers, pp).value;
      && (forall i :: 0 <= i < pp ==> 0 < plan[i])
      && exists j :: 0 <= j < pp && forall i :: 0 <= i < pp ==> plan[i] <= other[j]
  {
    var plan, m := Shards(layers, pp).value, Best(layers, pp);
    DivNat(layers + pp - 1, pp);
    if pp >= 3 {
      FitsIff(layers, pp, m);
      CeilDivIsLeast(layers, pp, m);
      PlanIsComplete(layers, pp, m);
    } else if pp == 2 {
      assert plan == [layers / 2] + [layers - layers / 2];
      SumAppend([layers / 2], [layers - layers / 2]);
      SumOne(layers / 2);
      SumOne(layers - layers / 2);
    } else {
      SumOne(layers);
      assert m == layers;
    }
    SomeStageIsLong(other, layers, pp);
  }

  /** Among all acceptable middle lengths the chosen one has the least gap, and there is one iff the search succeeds. */
  lemma BestHasTheLeastGap(layers: nat, pp: nat, k: nat)
    requires pp >= 3 && Fits(layers, pp, k)
    ensures HasPlan(layers, pp) && 0 <= Best(layers, pp) <= k
    ensures Fits(layers, pp, Best(layers, pp)) && 0 <= Gap(layers, pp, Best(layers, pp)) <= Gap(layers, pp, k)
  {
    var m := Best(layers, pp);
    DivNat(layers + pp - 1, pp);
    if k < m {
      SmallerDoesNotFit(layers, pp, k);
    }
    if !HasPlan(layers, pp) {
      LargerDoesNotFit(layers, pp, m, k);
    }
    FitsIff(layers, pp, m);
    CeilDivIsLeast(layers, pp, m);
    if m < k {
      GapGrows(layers, pp, m, k);
    }
  }

  /**
   What a plan should look like: no stage is empty, the two end stages are alike
   except that the last one takes an odd layer, the stages between them are all
   alike, and no shorter than the end stages.
   */
  predicate Uniform(s: seq<int>, layers: int, pp: int) {
    && pp >= 2 && Divides(s, layers, pp)
    && 0 < s[0] <= s[pp - 1] <= s[0] + 1
    && forall i :: 0 < i < pp - 1 ==> s[i] == s[1] >= s[pp - 1]
  }

  lemma UniformIsPlan(s: seq<int>, layers: int, pp: int)
    requires pp >= 3 && Uniform(s, layers, pp)
    ensures s[1] > 0 && Fits(layers, pp, s[1]) && s == Plan(layers, pp, s[1]) && Gap(layers, pp, s[1]) == s[1] - s[0]
  {
    var m, last := s[1], s[pp - 1];
    var mid := seq(pp - 2, _ => m);
    assert s == [s[0]] + mid + [last];
    SumAppend([s[0]], mid);
    SumAppend([s[0]] + mid, [last]);
    SumOne(s[0]);
    SumOne(last);
    SumConstant(pp - 2, m);
    assert (pp - 2) * m == m * (pp - 2);
    assert layers - m * (pp - 2) == s[0] + last;
  }

  lemma PlanIsUniform(layers: int, pp: int, m: nat)
    requires pp >= 3 && Fits(layers, pp, m)
    ensures Uniform(Plan(layers, pp, m), layers, pp) && Plan(layers, pp, m)[1] == m
    ensures Gap(layers, pp, m) == m - Plan(layers, pp, m)[0]
  {
    PlanIsComplete(layers, pp, m);
  }

  /** On two stages there is one such division. */
  lemma TwoStages(layers: nat, s: seq<int>)
    requires layers >= 2
    ensures Shards(layers, 2) == Ok(s) <==> Uniform(s, layers, 2)
  {
    if |s| == 2 {
      assert s == [s[0]] + [s[1]];
      SumAppend([s[0]], [s[1]]);
      SumOne(s[0]);
      SumOne(s[1]);
      assert Uniform(s, layers, 2) ==> s[0] == layers / 2 && s[1] == layers - layers / 2;
      assert s[0] == layers / 2 && s[1] == layers - layers / 2 ==> s == [layers / 2, layers - layers / 2];
    }
  }

  /** No other uniform plan has as small a difference between the second and the first stage. */
  ghost predicate MostEven(s: seq<int>, layers: int, pp: int) {
    Uniform(s, layers, pp) && forall t: seq<int> :: Uniform(t, layers, pp) ==> s[1] - s[0] <= t[1] - t[0]
  }

  /** The search returns the one uniform plan of the least difference. */
  lemma ShardsAreMostEven(layers: nat, pp: nat, s: seq<int>)
    requires 2 <= pp <= layers
    ensures Shards(layers, pp) == Ok(s) <==> MostEven(s, layers, pp)
  {
    if pp == 2 {
      TwoStages(layers, s);
      forall t: seq<int> | Uniform(s, layers, 2) && Uniform(t, layers, 2) ensures s == t {
        TwoStages(layers, t);
      }
    } else if Uniform(s, layers, pp) {
      UniformIsPlan(s, layers, pp);
      BestHasTheLeastGap(layers, pp, s[1]);
      var m := Best(layers, pp);
      PlanIsUniform(layers, pp, m);
      if m < s[1] {
        GapGrows(layers, pp, m, s[1]);
      } else {
        forall t: seq<int> | Uniform(t, layers, pp) ensures s[1] - s[0] <= t[1] - t[0] {
          UniformIsPlan(t, layers, pp);
          BestHasTheLeastGap(layers, pp, t[1]);
        }
      }
    } else if HasPlan(layers, pp) {
      BestFits(layers, pp);
      PlanIsUniform(layers, pp, Best(layers, pp));
    }
  }

  lemma BestFits(layers: nat, pp: nat)
    requires pp >= 3 && HasPlan(layers, pp)
    ensures 0 <= Best(layers, pp) && Fits(layers, pp, Best(layers, pp))
  {
    BestInRange(layers, pp);
    FitsIff(layers, pp, Best(layers, pp));
    CeilDivIsLeast(layers, pp, Best(layers, pp));
  }

  /** When the search raises, and how: there are too few layers, no stages, or no uniform plan. */
  lemma ShardsFailIff(layers: int, pp: int)
    ensures Shards(layers, pp) == Err(TooFewLayers) <==> layers < pp
    ensures Shards(layers, pp) == Err(BadPpSize) <==> pp < 1 && layers >= pp
    ensures Shards(layers, pp) == Err(NoPlan) <==> 3 <= pp <= layers && forall s: seq<int> :: !Uniform(s, layers, pp)
  {
    if 3 <= pp <= layers {
      forall s: seq<int> | Uniform(s, layers, pp) ensures HasPlan(layers, pp) {
        UniformIsPlan(s, layers, pp);
        BestHasTheLeastGap(layers, pp, s[1]);
      }
      if HasPlan(layers, pp) {
        BestFits(layers, pp);
        PlanIsUniform(layers, pp, Best(layers, pp));
      }
    }
  }

  // ---- the layers of each rank

  /** `layers_cum` of a rank in the distributed merger: the layers of the ranks before it. */
  function Offset(shards: seq<int>, rank: nat): int
    requires rank <= |shards|
  {
    Sum(shards[..rank])
  }

  predicate Owns(shards: seq<int>, rank: int, layer: int) {
    0 <= rank < |shards| && Offset(shards, rank) <= layer < Offset(shards, rank) + shards[rank]
  }

  lemma OffsetStep(shards: seq<int>, rank: nat)
    requires rank < |shards|
    ensures Offset(shards, rank + 1) == Offset(shards, rank) + shards[rank]
  {
    assert shards[..rank + 1][..rank] == shards[..rank];
  }

  lemma {:induction false} OffsetsGrow(shards: seq<int>, r: nat, t: nat)
    requires r <= t <= |shards| && forall i :: 0 <= i < |shards| ==> shards[i] >= 0
    ensures Offset(shards, r) <= Offset(shards, t)
  {
    if r < t {
      OffsetsGrow(shards, r, t - 1);
      OffsetStep(shards, t - 1);
    }
  }

  /** The running offsets give every layer to exactly one rank. */
  lemma OffsetsPartitionTheLayers(shards: seq<int>, layer: int)
    requires forall i :: 0 <= i < |shards| ==> shards[i] >= 0
    ensures (exists r :: Owns(shards, r, layer)) <==> 0 <= layer < Sum(shards)
    ensures forall r, t :: Owns(shards, r, layer) && Owns(shards, t, layer) ==> r == t
  {
    assert shards[..|shards|] == shards;
    if 0 <= layer < Sum(shards) {
      Owner(shards, |shards|, layer);
    }
    forall r | Owns(shards, r, layer)
      ensures 0 <= layer < Sum(shards)
    {
      OffsetsGrow(shards, 0, r);
      OffsetStep(shards, r);
      OffsetsGrow(shards, r + 1, |shards|);
    }
    forall r, t | Owns(shards, r, layer) && Owns(shards, t, layer)
      ensures r == t
    {
      NotBoth(shards, r, t, layer);
      NotBoth(shards, t, r, layer);
    }
  }

  lemma {:induction false} Owner(shards: seq<int>, n: nat, layer: int)
    requires n <= |shards| && 0 <= layer < Offset(shards, n)
    ensures exists r :: Owns(shards, r, layer)
  {
    if n > 0 {
      OffsetStep(shards, n - 1);
      if layer < Offset(shards, n - 1) {
        Owner(shards, n - 1, layer);
      } else {
        assert Owns(shards, n - 1, layer);
      }
    }
  }

  lemma NotBoth(shards: seq<int>, r: nat, t: nat, layer: int)
    requires forall i :: 0 <= i < |shards| ==> shards[i] >= 0
    requires r < |shards| && t < |shards|
    ensures r < t ==> !(Owns(shards, r, layer) && Owns(shards, t, layer))
  {
    if r < t {
      OffsetStep(shards, r);
      OffsetsGrow(shards, r + 1, t);
    }
  }

  /** Ranks take the layers in order: the first rank begins at layer 0, and a later rank holds later layers. */
  lemma RanksTakeLayersInOrder(shards: seq<int>, r: int, t: int, a: int, b: int)
    requires forall i :: 0 <= i < |shards| ==> shards[i] >= 0
    requires Owns(shards, r, a) && Owns(shards, t, b)
    ensures r < t ==> a < b
    ensures shards[0] > 0 ==> Owns(shards, 0, 0)
  {
    if r < t {
      OffsetStep(shards, r);
      OffsetsGrow(shards, r + 1, t);
    }
  }
}
