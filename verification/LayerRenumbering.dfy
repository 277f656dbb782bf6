/**
 Renumbering the layers of pipeline stages while their state dicts are merged:
 every stage counts its layers from zero, and a running offset makes the
 numbers global.
 */
module LayerRenumbering {

  datatype Name = Layer(no: nat, suffix: string) | Other(name: string)

  /** A parameter of one stage; `skipped` ones are passed over (extra state, a tied output layer). */
  datatype Param<+T> = Param(name: Name, skipped: bool, tensor: T)

  type Stage<T> = seq<Param<T>>

  // ---- one stage

  /** The largest local layer number, or 0: `layers_handled` at the end of the loop over the keys. */
  function Handled<T>(stage: Stage<T>): nat {
    if stage == [] then 0
    else
      var h, p := Handled(stage[..|stage| - 1]), stage[|stage| - 1];
      if !p.skipped && p.name.Layer? && p.name.no > h then p.name.no else h
  }

  function Rename(name: Name, offset: nat): Name {
    match name
    case Layer(no, suffix) => Layer(no + offset, suffix)
    case Other(_) => name
  }

  /** The dict after the parameters of one stage; a later write to a name wins. */
  function AddStage<T>(dict: map<Name, T>, stage: Stage<T>, offset: nat): map<Name, T> {
    if stage == [] then dict
    else
      var d, p := AddStage(dict, stage[..|stage| - 1], offset), stage[|stage| - 1];
      if p.skipped then d else d[Rename(p.name, offset) := p.tensor]
  }

  // ---- all stages

  /** `layers_cum` when the first `n` stages are done: every stage advances it by its largest number plus one. */
  function Cum<T>(stages: seq<Stage<T>>, n: nat): nat
    requires n <= |stages|
  {
    if n == 0 then 0 else Cum(stages, n - 1) + Handled(stages[n - 1]) + 1
  }

  function MergedDict<T>(stages: seq<Stage<T>>, n: nat): map<Name, T>
    requires n <= |stages|
  {
    if n == 0 then map[] else AddStage(MergedDict(stages, n - 1), stages[n - 1], Cum(stages, n - 1))
  }

  /** Rows of equal length. */
  predicate Rectangular<T>(lst: seq<seq<Stage<T>>>, vpp: nat) {
    forall p :: 0 <= p < |lst| ==> |lst[p]| == vpp
  }

  /** The stages in the order in which the nested loops visit them: `lst[pp_rank][vpp_rank]`, by `vpp_rank` first. */
  function VisitOrder<T>(lst: seq<seq<Stage<T>>>, vpp: nat): seq<Stage<T>>
    requires forall p :: 0 <= p < |lst| ==> vpp <= |lst[p]|
  {
    if vpp == 0 then [] else VisitOrder(lst, vpp - 1) + Column(lst, vpp - 1)
  }

  function Column<T>(lst: seq<seq<Stage<T>>>, v: nat): seq<Stage<T>>
    requires forall p :: 0 <= p < |lst| ==> v < |lst[p]|
  {
    seq(|lst|, p requires 0 <= p < |lst| => lst[p][v])
  }

  /** The merger's nested loops over virtual and real pipeline ranks, on the dicts of tensor rank 0. */
  method MergeStateDicts<T>(lst: seq<seq<Stage<T>>>) returns (dict: map<Name, T>)
    requires lst != [] && Rectangular(lst, |lst[0]|)
    ensures var stages := VisitOrder(lst, |lst[0]|); dict == MergedDict(stages, |stages|)
  {
    var vpp := |lst[0]|;
    var layersCum: nat := 0;
    dict := map[];
    for v := 0 to vpp
      invariant Merging(VisitOrder(lst, v), dict, layersCum)
    {
      ghost var before := VisitOrder(lst, v);
      ghost var column := Column(lst, v);
      assert before + column[..0] == before;
      for p := 0 to |lst|
        invariant Merging(before + column[..p], dict, layersCum)
      {
        var layersHandled;
        dict, layersHandled := MergeStage(dict, lst[p][v], layersCum);
        assert before + column[..p + 1] == (before + column[..p]) + [lst[p][v]];
        MergingStep(before + column[..p], lst[p][v]);
        layersCum := layersCum + layersHandled + 1;
      }
      assert before + column[..|lst|] == before + column;
    }
  }

  ghost predicate Merging<T>(stages: seq<Stage<T>>, dict: map<Name, T>, layersCum: nat) {
    dict == MergedDict(stages, |stages|) && layersCum == Cum(stages, |stages|)
  }

  lemma MergingStep<T>(stages: seq<Stage<T>>, stage: Stage<T>)
    ensures
      var n, all := |stages|, stages + [stage];
      && Cum(all, n + 1) == Cum(stages, n) + Handled(stage) + 1
      && MergedDict(all, n + 1) == AddStage(MergedDict(stages, n), stage, Cum(stages, n))
  {
    SamePrefix(stages, [stage], |stages|);
  }

  lemma {:induction false} SamePrefix<T>(a: seq<Stage<T>>, b: seq<Stage<T>>, n: nat)
    requires n <= |a|
    ensures Cum(a + b, n) == Cum(a, n) && MergedDict(a + b, n) == MergedDict(a, n)
  {
    if n > 0 {
      SamePrefix(a, b, n - 1);
    }
  }

  /** The loop over the keys of one stage. */
  method MergeStage<T>(dict: map<Name, T>, stage: Stage<T>, layersCum: nat)
    returns (r: map<Name, T>, layersHandled: nat)
    ensures r == AddStage(dict, stage, layersCum) && layersHandled == Handled(stage)
  {
    r, layersHandled := dict, 0;
    for i := 0 to |stage|
      invariant r == AddStage(dict, stage[..i], layersCum) && layersHandled == Handled(stage[..i])
    {
      var p := stage[i];
      assert stage[..i + 1][..i] == stage[..i];
      if !p.skipped {
        var hfName := p.name;
        if hfName.Layer? {
          layersHandled := if layersHandled > hfName.no then layersHandled else hfName.no;
          hfName := Layer(hfName.no + layersCum, hfName.suffix);
        }
        r := r[hfName := p.tensor];
      }
    }
    assert stage[..|stage|] == stage;
  }

  /** Chunk `v * ranks + p` of the model is virtual stage `v` of rank `p`. */
  lemma {:induction false} VisitOrderAt<T>(lst: seq<seq<Stage<T>>>, vpp: nat, v: nat, p: nat)
    requires forall q :: 0 <= q < |lst| ==> vpp <= |lst[q]|
    requires v < vpp && p < |lst|
    ensures |VisitOrder(lst, vpp)| == vpp * |lst|
    ensures 0 <= v * |lst| + p < vpp * |lst| && VisitOrder(lst, vpp)[v * |lst| + p] == lst[p][v]
  {
    VisitOrderLength(lst, vpp - 1);
    assert vpp * |lst| == (vpp - 1) * |lst| + |lst|;
    if v < vpp - 1 {
      VisitOrderAt(lst, vpp - 1, v, p);
    }
  }

  lemma {:induction false} VisitOrderLength<T>(lst: seq<seq<Stage<T>>>, vpp: nat)
    requires forall q :: 0 <= q < |lst| ==> vpp <= |lst[q]|
    ensures |VisitOrder(lst, vpp)| == vpp * |lst|
  {
    if vpp > 0 {
      VisitOrderLength(lst, vpp - 1);
      assert vpp * |lst| == (vpp - 1) * |lst| + |lst|;
    } else {
      assert vpp * |lst| == 0;
    }
  }

  // ---- which numbers are used

  /** The stage stores parameters of local layer `no`. */
  predicate HasLayer<T>(stage: Stage<T>, no: nat) {
    exists k :: 0 <= k < |stage| && !stage[k].skipped && stage[k].name.Layer? && stage[k].name.no == no
  }

  /** The stage holds the layers `0 .. count - 1`. */
  ghost predicate Holds<T>(stage: Stage<T>, count: nat) {
    forall no: nat :: HasLayer(stage, no) <==> no < count
  }

  lemma HandledIsLast<T>(stage: Stage<T>, count: nat)
    requires Holds(stage, count)
    ensures Handled(stage) == if count == 0 then 0 else count - 1
  {
    HandledIsMaximum(stage);
    if count > 0 {
      assert HasLayer(stage, count - 1);
    }
  }

  lemma {:induction false} HandledIsMaximum<T>(stage: Stage<T>)
    ensures forall k :: 0 <= k < |stage| && !stage[k].skipped && stage[k].name.Layer? ==>
              stage[k].name.no <= Handled(stage)
    ensures Handled(stage) == 0 || HasLayer(stage, Handled(stage))
  {
    if stage != [] {
      var init, p := stage[..|stage| - 1], stage[|stage| - 1];
      HandledIsMaximum(init);
      if Handled(stage) == Handled(init) {
        if Handled(init) != 0 {
          var k :| 0 <= k < |init| && !init[k].skipped && init[k].name.Layer? && init[k].name.no == Handled(init);
          assert stage[k] == init[k];
        }
      } else {
        assert stage[|stage| - 1].name.no == Handled(stage);
      }
    }
  }

  /** Stage `i` holds `counts[i]` layers. */
  ghost predicate StagesHold<T>(stages: seq<Stage<T>>, counts: seq<nat>) {
    |counts| == |stages| && forall i :: 0 <= i < |stages| ==> Holds(stages[i], counts[i])
  }

  /** Some layer of the model is numbered `no` after the merge. */
  ghost predicate Numbered<T>(stages: seq<Stage<T>>, i: int, local: nat, no: int) {
    0 <= i < |stages| && HasLayer(stages[i], local) && no == Cum(stages, i) + local
  }

  /** What a stage of `count` layers adds to the offset. */
  function Advance(count: nat): nat { if count == 0 then 1 else count }

  lemma CumStep<T>(stages: seq<Stage<T>>, counts: seq<nat>, i: nat)
    requires StagesHold(stages, counts) && i < |stages|
    ensures Cum(stages, i + 1) == Cum(stages, i) + Advance(counts[i])
  {
    HandledIsLast(stages[i], counts[i]);
  }

  lemma {:induction false} CumGrows<T>(stages: seq<Stage<T>>, i: nat, j: nat)
    requires i <= j <= |stages|
    ensures Cum(stages, i) <= Cum(stages, j)
  {
    if i < j {
      CumGrows(stages, i, j - 1);
    }
  }

  /** No two layers get the same number, whatever the stages hold. */
  lemma NumbersDoNotCollide<T>(stages: seq<Stage<T>>, i: int, j: int, a: nat, b: nat, no: int)
    requires Numbered(stages, i, a, no) && Numbered(stages, j, b, no)
    ensures i == j && a == b
  {
    HandledIsMaximum(stages[i]);
    HandledIsMaximum(stages[j]);
    if i < j {
      CumGrows(stages, i + 1, j);
    } else if j < i {
      CumGrows(stages, j + 1, i);
    }
  }

  /** The number of layers of the first `n` stages. */
  function Total(counts: seq<nat>, n: nat): nat
    requires n <= |counts|
  {
    if n == 0 then 0 else Total(counts, n - 1) + counts[n - 1]
  }

  /** The global numbers are exactly `0 .. total - 1`. */
  ghost predicate Contiguous<T>(stages: seq<Stage<T>>, counts: seq<nat>)
    requires |counts| == |stages|
  {
    forall no: int :: IsNumber(stages, no) <==> 0 <= no < Total(counts, |counts|)
  }

  ghost predicate IsNumber<T>(stages: seq<Stage<T>>, no: int) {
    exists i: int, local: nat :: Numbered(stages, i, local, no)
  }

  /** An empty stage is followed by empty stages only. */
  predicate EmptyStagesLast(counts: seq<nat>) {
    forall i, j :: 0 <= i < j < |counts| && counts[i] == 0 ==> counts[j] == 0
  }

  /**
   Renumbering is a bijection onto `0 .. total - 1` (with the lemma above) if
   and only if no empty stage comes before a stage with layers: an empty stage
   still advances the offset by one.
   */
  lemma ContiguousIffEmptyStagesLast<T>(stages: seq<Stage<T>>, counts: seq<nat>)
    requires StagesHold(stages, counts)
    ensures Contiguous(stages, counts) <==> EmptyStagesLast(counts)
  {
    if EmptyStagesLast(counts) {
      ContiguousIf(stages, counts);
    } else {
      var i, j :| 0 <= i < j < |counts| && counts[i] == 0 && counts[j] != 0;
      GapAtEmptyStage(stages, counts, i, j);
    }
  }

  /** With empty stages last, the offset of a stage with layers is the number of layers before it. */
  lemma {:induction false} CumIsTotal<T>(stages: seq<Stage<T>>, counts: seq<nat>, n: nat)
    requires StagesHold(stages, counts) && n <= |counts|
    requires forall i :: 0 <= i < n ==> counts[i] > 0
    ensures Cum(stages, n) == Total(counts, n)
  {
    if n > 0 {
      CumIsTotal(stages, counts, n - 1);
      CumStep(stages, counts, n - 1);
    }
  }

  lemma {:induction false} TotalGrows(counts: seq<nat>, i: nat, j: nat)
    requires i <= j <= |counts|
    ensures Total(counts, i) <= Total(counts, j)
  {
    if i < j {
      TotalGrows(counts, i, j - 1);
    }
  }

  lemma ContiguousIf<T>(stages: seq<Stage<T>>, counts: seq<nat>)
    requires StagesHold(stages, counts) && EmptyStagesLast(counts)
    ensures Contiguous(stages, counts)
  {
    forall no: int
      ensures IsNumber(stages, no) <==> 0 <= no < Total(counts, |counts|)
    {
      if 0 <= no < Total(counts, |counts|) {
        FindLayer(stages, counts, |counts|, no);
      }
      forall i: int, local: nat | Numbered(stages, i, local, no)
        ensures 0 <= no < Total(counts, |counts|)
      {
        CumIsTotal(stages, counts, i);
        TotalGrows(counts, i + 1, |counts|);
      }
    }
  }

  lemma {:induction false} FindLayer<T>(stages: seq<Stage<T>>, counts: seq<nat>, n: nat, no: nat)
    requires StagesHold(stages, counts) && EmptyStagesLast(counts) && n <= |counts|
    requires no < Total(counts, n)
    ensures IsNumber(stages, no)
  {
    if no < Total(counts, n - 1) {
      FindLayer(stages, counts, n - 1, no);
    } else {
      CumIsTotal(stages, counts, n - 1);
      assert HasLayer(stages[n - 1], no - Total(counts, n - 1));
      assert Numbered(stages, n - 1, no - Total(counts, n - 1), no);
    }
  }

  /** The number an empty stage steps over belongs to no layer, though a later layer has a larger one. */
  lemma GapAtEmptyStage<T>(stages: seq<Stage<T>>, counts: seq<nat>, i: nat, j: nat)
    requires StagesHold(stages, counts) && i < j < |counts| && counts[i] == 0 && counts[j] > 0
    ensures !Contiguous(stages, counts)
  {
    var gap, later := Cum(stages, i), Cum(stages, j);
    CumGrows(stages, i + 1, j);
    CumStep(stages, counts, i);
    assert HasLayer(stages[j], 0) && Numbered(stages, j, 0, later);
    assert IsNumber(stages, later);
    forall k: int, local: nat
      ensures !Numbered(stages, k, local, gap)
    {
      NotAtEmptyStage(stages, counts, i, k, local);
    }
    assert !IsNumber(stages, gap);
  }

  lemma NotAtEmptyStage<T>(stages: seq<Stage<T>>, counts: seq<nat>, i: nat, k: int, local: nat)
    requires StagesHold(stages, counts) && i < |counts| && counts[i] == 0
    ensures !Numbered(stages, k, local, Cum(stages, i))
  {
    if Numbered(stages, k, local, Cum(stages, i)) {
      HandledIsMaximum(stages[k]);
      if k < i {
        CumGrows(stages, k + 1, i);
      } else if k > i {
        CumGrows(stages, i + 1, k);
      }
    }
  }

  // ---- nothing is lost

  /** Every name is written at most once: names differ inside a stage, unnumbered names across stages too. */
  ghost predicate NamesOnce<T>(stages: seq<Stage<T>>) {
    forall i, j, k, l :: At(stages, i, k) && At(stages, j, l) && SameName(stages, i, k, j, l) ==> i == j && k == l
  }

  predicate SameName<T>(stages: seq<Stage<T>>, i: int, k: int, j: int, l: int)
    requires At(stages, i, k) && At(stages, j, l)
  {
    stages[i][k].name == stages[j][l].name && (i == j || stages[i][k].name.Other?)
  }

  /** Parameter `k` of stage `i` exists and is not skipped. */
  predicate At<T>(stages: seq<Stage<T>>, i: int, k: int) {
    0 <= i < |stages| && 0 <= k < |stages[i]| && !stages[i][k].skipped
  }

  /** The name that parameter `k` of stage `i` has in the merged dict. */
  function GlobalName<T>(stages: seq<Stage<T>>, i: int, k: int): Name
    requires At(stages, i, k)
  {
    Rename(stages[i][k].name, Cum(stages, i))
  }

  lemma GlobalNamesDiffer<T>(stages: seq<Stage<T>>, i: int, k: int, j: int, l: int)
    requires NamesOnce(stages) && At(stages, i, k) && At(stages, j, l)
    requires GlobalName(stages, i, k) == GlobalName(stages, j, l)
    ensures i == j && k == l
  {
    var a, b := stages[i][k].name, stages[j][l].name;
    if a.Layer? && b.Layer? {
      assert HasLayer(stages[i], a.no) && HasLayer(stages[j], b.no);
      NumbersDoNotCollide(stages, i, j, a.no, b.no, Cum(stages, i) + a.no);
    }
  }

  /** Parameter `k` of stage `i` is merged before parameter `l` of stage `j`. */
  predicate Before(i: int, k: int, j: int, l: int) {
    i < j || (i == j && k < l)
  }

  /** Among the parameters that come before parameter `m` of stage `n`, none after this one has its global name. */
  ghost predicate LastWriter<T>(stages: seq<Stage<T>>, n: int, m: int, i: int, k: int) {
    && At(stages, i, k) && Before(i, k, n, m)
    && forall j, l :: At(stages, j, l) && Before(i, k, j, l) && Before(j, l, n, m) ==>
         GlobalName(stages, j, l) != GlobalName(stages, i, k)
  }

  /** The dict after the first `n` stages and the first `m` parameters of the next one. */
  ghost predicate Holding<T>(stages: seq<Stage<T>>, n: nat, m: nat, dict: map<Name, T>) {
    && (forall i, k :: LastWriter(stages, n, m, i, k) ==>
          GlobalName(stages, i, k) in dict && dict[GlobalName(stages, i, k)] == stages[i][k].tensor)
    && (forall name <- dict :: exists i, k :: At(stages, i, k) && GlobalName(stages, i, k) == name)
  }

  lemma {:induction false} MergedSoFar<T>(stages: seq<Stage<T>>, n: nat) returns (dict: map<Name, T>)
    requires n <= |stages|
    ensures dict == MergedDict(stages, n) && Holding(stages, n, 0, dict)
  {
    if n > 0 {
      var before := MergedSoFar(stages, n - 1);
      dict := AddStage(before, stages[n - 1], Cum(stages, n - 1));
      WholeStage(stages, n - 1, n, before, dict);
    } else {
      dict := map[];
    }
  }

  lemma WholeStage<T>(stages: seq<Stage<T>>, p: nat, n: nat, before: map<Name, T>, dict: map<Name, T>)
    requires p < n == p + 1 <= |stages| && Holding(stages, p, 0, before)
    requires dict == AddStage(before, stages[p], Cum(stages, p))
    ensures Holding(stages, n, 0, dict)
  {
    var stage := stages[p];
    StageSoFar(stages, p, |stage|, before);
    assert stage[..|stage|] == stage;
    SameWriters(stages, n, 0, p, |stage|, dict);
  }

  /** Positions between which there is no parameter. */
  lemma SameWriters<T>(stages: seq<Stage<T>>, n: nat, m: nat, n': nat, m': nat, dict: map<Name, T>)
    requires Holding(stages, n', m', dict)
    requires forall i, k :: At(stages, i, k) ==> (Before(i, k, n, m) <==> Before(i, k, n', m'))
    ensures Holding(stages, n, m, dict)
  {
    forall i, k | LastWriter(stages, n, m, i, k) ensures LastWriter(stages, n', m', i, k) {
      WriterMoves(stages, n, m, n', m', i, k);
    }
  }

  lemma WriterMoves<T>(stages: seq<Stage<T>>, n: nat, m: nat, n': nat, m': nat, i: int, k: int)
    requires LastWriter(stages, n, m, i, k)
    requires forall j, l :: At(stages, j, l) ==> (Before(j, l, n, m) <==> Before(j, l, n', m'))
    ensures LastWriter(stages, n', m', i, k)
  {
    forall j, l | At(stages, j, l) && Before(i, k, j, l) && Before(j, l, n', m')
      ensures GlobalName(stages, j, l) != GlobalName(stages, i, k)
    {
      assert Before(j, l, n, m);
    }
  }

  lemma {:induction false} StageSoFar<T>(stages: seq<Stage<T>>, n: nat, m: nat, before: map<Name, T>)
    requires n < |stages| && m <= |stages[n]| && Holding(stages, n, 0, before)
    ensures Holding(stages, n, m, AddStage(before, stages[n][..m], Cum(stages, n)))
  {
    if m > 0 {
      StageSoFar(stages, n, m - 1, before);
      var d, p := AddStage(before, stages[n][..m - 1], Cum(stages, n)), stages[n][m - 1];
      assert stages[n][..m][..m - 1] == stages[n][..m - 1];
      if p.skipped {
        HoldingSkips(stages, n, m - 1, d);
      } else {
        HoldingStep(stages, n, m - 1, d);
      }
    }
  }

  lemma HoldingSkips<T>(stages: seq<Stage<T>>, n: nat, m: nat, d: map<Name, T>)
    requires !At(stages, n, m) && Holding(stages, n, m, d)
    ensures Holding(stages, n, m + 1, d)
  {
    SameWriters(stages, n, m + 1, n, m, d);
  }

  lemma HoldingStep<T>(stages: seq<Stage<T>>, n: nat, m: nat, d: map<Name, T>)
    requires At(stages, n, m) && Holding(stages, n, m, d)
    ensures Holding(stages, n, m + 1, d[GlobalName(stages, n, m) := stages[n][m].tensor])
  {
    forall i, k | LastWriter(stages, n, m + 1, i, k) && !(i == n && k == m)
      ensures LastWriter(stages, n, m, i, k) && GlobalName(stages, i, k) != GlobalName(stages, n, m)
    {
      assert Before(i, k, n, m);
    }
  }

  /**
   Under a global name the merged dict holds the tensor that was merged last
   under that name, and it holds no other names.
   */
  lemma LastTensorWins<T>(stages: seq<Stage<T>>, i: int, k: int)
    requires At(stages, i, k)
    requires forall j, l :: At(stages, j, l) && Before(i, k, j, l) ==>
               GlobalName(stages, j, l) != GlobalName(stages, i, k)
    ensures
      var dict := MergedDict(stages, |stages|);
      GlobalName(stages, i, k) in dict && dict[GlobalName(stages, i, k)] == stages[i][k].tensor
  {
    var dict := MergedSoFar(stages, |stages|);
    assert LastWriter(stages, |stages|, 0, i, k);
  }

  /**
   If no name is written twice, the merged dict holds every parameter of every
   stage under its global name with its own tensor, and nothing else.
   */
  lemma NothingIsLost<T>(stages: seq<Stage<T>>)
    requires NamesOnce(stages)
    ensures
      var dict := MergedDict(stages, |stages|);
      && (forall i, k :: At(stages, i, k) ==>
            GlobalName(stages, i, k) in dict && dict[GlobalName(stages, i, k)] == stages[i][k].tensor)
      && (forall name <- dict :: exists i, k :: At(stages, i, k) && GlobalName(stages, i, k) == name)
  {
    var dict := MergedSoFar(stages, |stages|);
    forall i, k | At(stages, i, k) ensures LastWriter(stages, |stages|, 0, i, k) {
      forall j, l | At(stages, j, l) && Before(i, k, j, l)
        ensures GlobalName(stages, j, l) != GlobalName(stages, i, k)
      {
        if GlobalName(stages, j, l) == GlobalName(stages, i, k) {
          GlobalNamesDiffer(stages, i, k, j, l);
        }
      }
    }
  }

  /** Two stages, the first without layers: the only layer of the model becomes layer 1. */
  lemma EmptyStageShiftsTheNext<T>(suffix: string, tensor: T)
    ensures
      var stages := [[], [Param(Layer(0, suffix), false, tensor)]];
      StagesHold(stages, [0, 1]) && MergedDict(stages, 2) == map[Layer(1, suffix) := tensor]
  {
    var p := Param(Layer(0, suffix), false, tensor);
    var stages := [[], [p]];
    assert [p][..0] == [];
    assert Handled([p]) == 0 && AddStage(map[], [p], 1) == map[Layer(1, suffix) := tensor];
    assert stages[0] == [] && Cum(stages, 0) == 0 && Handled(stages[0]) == 0;
    assert Cum(stages, 1) == Cum(stages, 0) + Handled(stages[0]) + 1;
    assert MergedDict(stages, 1) == map[] && Cum(stages, 1) == 1;
    forall no: nat ensures HasLayer([p], no) <==> no < 1 {
      assert [p][0] == p;
    }
    assert Holds(stages[0], 0) && Holds(stages[1], 1);
  }
}
