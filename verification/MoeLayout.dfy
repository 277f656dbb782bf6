/**
 Stacking the weights of the experts of every mixture-of-experts layer into one
 tensor, and taking the stacks apart again. A state dict is a map from
 parameter names to tensors.
 */
module MoeLayout {
  import opened Common
  import opened OutputKeys

  datatype Tensor<+T> = Scalar(value: T) | Rows(slices: seq<Tensor<T>>)

  type Dict<T> = map<string, Tensor<T>>

  datatype Error = KeyError(key: string) | EmptyStack | ShapeMismatch | IndexError

  // ---- names

  const PREFIX := "model.layers."

  /** The three projections of a layer, in the order of the loops. */
  function Proj(p: nat): string {
    if p == 0 then "gate_proj" else if p == 1 then "up_proj" else "down_proj"
  }

  function StackedKey(layer: nat, p: nat): string {
    PREFIX + Field(Decimal(layer), '.', "mlp.experts." + Proj(p))
  }

  function ExpertKey(layer: nat, expert: nat, p: nat): string {
    PREFIX + Field(Decimal(layer), '.', "mlp.experts." + Field(Decimal(expert), '.', Proj(p) + ".weight"))
  }

  /** Projection `k % 3` of layer `k / 3`: the loops over layers and projections number these from zero. */
  function SK(k: nat): string { StackedKey(k / 3, k % 3) }

  function EK(k: nat, j: nat): string { ExpertKey(k / 3, j, k % 3) }

  lemma DecimalInjective(m: nat, n: nat)
    requires Decimal(m) == Decimal(n)
    ensures m == n
  {
    DecimalValue(m);
    DecimalValue(n);
  }

  lemma LayerOf(m: nat, x: string, n: nat, y: string)
    requires PREFIX + Field(Decimal(m), '.', x) == PREFIX + Field(Decimal(n), '.', y)
    ensures m == n && x == y
  {
    DropPrefix(PREFIX, Field(Decimal(m), '.', x), Field(Decimal(n), '.', y));
    FieldInjective(Decimal(m), x, Decimal(n), y, '.');
    DecimalInjective(m, n);
  }

  lemma ProjInjective(p: nat, q: nat)
    requires p < 3 && q < 3 && Proj(p) == Proj(q)
    ensures p == q
  {
    assert Proj(p)[0] == Proj(q)[0];
  }

  lemma StackedKeyInjective(k: nat, l: nat)
    requires SK(k) == SK(l)
    ensures k == l
  {
    LayerOf(k / 3, "mlp.experts." + Proj(k % 3), l / 3, "mlp.experts." + Proj(l % 3));
    DropPrefix("mlp.experts.", Proj(k % 3), Proj(l % 3));
    ProjInjective(k % 3, l % 3);
  }

  lemma ExpertKeyInjective(k: nat, i: nat, l: nat, j: nat)
    requires EK(k, i) == EK(l, j)
    ensures k == l && i == j
  {
    var x, y := Field(Decimal(i), '.', Proj(k % 3) + ".weight"), Field(Decimal(j), '.', Proj(l % 3) + ".weight");
    LayerOf(k / 3, "mlp.experts." + x, l / 3, "mlp.experts." + y);
    DropPrefix("mlp.experts.", x, y);
    FieldInjective(Decimal(i), Proj(k % 3) + ".weight", Decimal(j), Proj(l % 3) + ".weight", '.');
    DecimalInjective(i, j);
    var p, q := Proj(k % 3) + ".weight", Proj(l % 3) + ".weight";
    assert p[0] == Proj(k % 3)[0] && q[0] == Proj(l % 3)[0];
    assert Proj(k % 3) == Proj(l % 3);
    ProjInjective(k % 3, l % 3);
  }

  lemma KeysDiffer(k: nat, l: nat, j: nat)
    ensures SK(k) != EK(l, j)
  {
    var y := Field(Decimal(j), '.', Proj(l % 3) + ".weight");
    assert y[0] == Decimal(j)[0] && Proj(k % 3)[0] > '9';
    if SK(k) == EK(l, j) {
      LayerOf(k / 3, "mlp.experts." + Proj(k % 3), l / 3, "mlp.experts." + y);
      DropPrefix("mlp.experts.", Proj(k % 3), y);
    }
  }

  lemma AllKeysDiffer()
    ensures forall k: nat, l: nat :: SK(k) == SK(l) ==> k == l
    ensures forall k: nat, i: nat, l: nat, j: nat :: EK(k, i) == EK(l, j) ==> k == l && i == j
    ensures forall k: nat, l: nat, j: nat :: SK(k) != EK(l, j)
  {
    forall k: nat, l: nat | SK(k) == SK(l) ensures k == l {
      StackedKeyInjective(k, l);
    }
    forall k: nat, i: nat, l: nat, j: nat | EK(k, i) == EK(l, j) ensures k == l && i == j {
      ExpertKeyInjective(k, i, l, j);
    }
    forall k: nat, l: nat, j: nat ensures SK(k) != EK(l, j) {
      KeysDiffer(k, l, j);
    }
  }

  /** How the keys are spelled. */
  lemma KeysAreSpelled(layer: nat, expert: nat, p: nat)
    ensures StackedKey(layer, p) == "model.layers." + Decimal(layer) + "." + "mlp.experts." + Proj(p)
    ensures ExpertKey(layer, expert, p)
         == "model.layers." + Decimal(layer) + "." + "mlp.experts." + Decimal(expert) + "." + Proj(p) + ".weight"
  {
    SpelledStack("model.layers.", Decimal(layer), "mlp.experts.", Proj(p));
    SpelledExpert("model.layers.", Decimal(layer), "mlp.experts.", Decimal(expert), Proj(p), ".weight");
  }

  lemma SpelledStack(prefix: string, n: string, group: string, proj: string)
    ensures prefix + Field(n, '.', group + proj) == prefix + n + "." + group + proj
  {
  }

  lemma SpelledExpert(prefix: string, n: string, group: string, expert: string, proj: string, weight: string)
    ensures prefix + Field(n, '.', group + Field(expert, '.', proj + weight))
         == prefix + n + "." + group + expert + "." + proj + weight
  {
    SpelledStack(prefix, n, group, Field(expert, '.', proj + weight));
    SpelledField(prefix + n + "." + group, expert, proj, weight);
  }

  lemma SpelledField(prefix: string, expert: string, proj: string, weight: string)
    ensures prefix + Field(expert, '.', proj + weight) == prefix + expert + "." + proj + weight
  {
  }

  /** The projections that share a layer's stacks, in the order in which the scripts handle them. */
  lemma ProjectionNames()
    ensures Proj(0) == "gate_proj" && Proj(1) == "up_proj" && Proj(2) == "down_proj"
  {
  }

  // ---- stacking

  function Shape<T>(t: Tensor<T>): seq<nat> {
    match t
    case Scalar(_) => []
    case Rows(ts) => [|ts|] + (if ts == [] then [] else Shape(ts[0]))
  }

  predicate SameShape<T>(ts: seq<Tensor<T>>) {
    forall i :: 0 <= i < |ts| ==> Shape(ts[i]) == Shape(ts[0])
  }

  /** `torch.stack` */
  function Stack<T>(ts: seq<Tensor<T>>): Result<Tensor<T>, Error> {
    if ts == [] then Err(EmptyStack)
    else if !SameShape(ts) then Err(ShapeMismatch)
    else Ok(Rows(ts))
  }

  /** The expert weights of projection `k`. */
  function Experts<T>(d: Dict<T>, k: nat, n: nat): seq<Tensor<T>>
    requires forall j :: 0 <= j < n ==> EK(k, j) in d
  {
    seq(n, j requires 0 <= j < n => d[EK(k, j)])
  }

  /** The weights of projection `k` can be stacked. */
  ghost predicate CanStack<T>(d: Dict<T>, k: nat, n: nat) {
    n > 0 && (forall j :: 0 <= j < n ==> EK(k, j) in d) && SameShape(Experts(d, k, n))
  }

  /** `key` belongs to projection `k`. */
  ghost predicate KeyOf(key: string, k: nat, n: nat) {
    key == SK(k) || exists j: nat :: j < n && key == EK(k, j)
  }

  /** `m` is `d` with the projections `lo .. hi - 1` stacked. */
  ghost predicate IsMerged<T>(d: Dict<T>, m: Dict<T>, lo: nat, hi: nat, n: nat) {
    && (forall k: nat :: lo <= k < hi ==> CanStack(d, k, n) && SK(k) in m && m[SK(k)] == Rows(Experts(d, k, n)))
    && (forall k: nat, j: nat :: lo <= k < hi && j < n ==> EK(k, j) !in m)
    && (forall key :: Untouched(key, lo, hi, n) ==> Same(d, m, key))
  }

  ghost predicate Untouched(key: string, lo: nat, hi: nat, n: nat) {
    forall k: nat :: lo <= k < hi ==> !KeyOf(key, k, n)
  }

  ghost predicate Same<T>(d: Dict<T>, m: Dict<T>, key: string) {
    (key in d <==> key in m) && (key in d ==> d[key] == m[key])
  }

  /** The merging script's loop over the layers from `start` on. */
  method Merge<T>(d: Dict<T>, start: nat, layers: nat, experts: nat) returns (r: Result<Dict<T>, Error>)
    ensures r.Ok? <==> forall k: nat :: 3 * start <= k < 3 * layers ==> CanStack(d, k, experts)
    ensures r.Ok? ==> IsMerged(d, r.value, 3 * start, 3 * layers, experts)
  {
    var dict := d;
    var i := start;
    while i < layers
      invariant start <= i && (i <= layers || i == start)
      invariant IsMerged(d, dict, 3 * start, 3 * i, experts)
    {
      var layer := MergeLayer(d, dict, 3 * start, i, experts);
      if layer.Err? {
        return layer;
      }
      dict := layer.value;
      i := i + 1;
    }
    return Ok(dict);
  }

  method MergeLayer<T>(ghost d: Dict<T>, m: Dict<T>, ghost lo: nat, layer: nat, experts: nat)
    returns (r: Result<Dict<T>, Error>)
    requires lo <= 3 * layer && IsMerged(d, m, lo, 3 * layer, experts)
    ensures r.Err? ==>
              || !CanStack(d, 3 * layer, experts)
              || !CanStack(d, 3 * layer + 1, experts)
              || !CanStack(d, 3 * layer + 2, experts)
    ensures r.Ok? ==> IsMerged(d, r.value, lo, 3 * layer + 3, experts)
  {
    var gate := MergeProj(d, m, lo, 3 * layer, layer, 0, experts);
    if gate.Err? {
      return gate;
    }
    var up := MergeProj(d, gate.value, lo, 3 * layer + 1, layer, 1, experts);
    if up.Err? {
      return up;
    }
    r := MergeProj(d, up.value, lo, 3 * layer + 2, layer, 2, experts);
  }

  /** Pop the weights of all experts, stack them, store the stack. */
  method MergeProj<T>(ghost d: Dict<T>, m: Dict<T>, ghost lo: nat, ghost k: nat, layer: nat, p: nat, experts: nat)
    returns (r: Result<Dict<T>, Error>)
    requires p < 3 && k == 3 * layer + p && lo <= k && IsMerged(d, m, lo, k, experts)
    ensures r.Ok? <==> CanStack(d, k, experts)
    ensures r.Ok? ==> IsMerged(d, r.value, lo, k + 1, experts)
  {
    assert k / 3 == layer && k % 3 == p;
    ExpertsUntouched(d, m, lo, k, experts);
    var dict := m;
    var lst: seq<Tensor<T>> := [];
    for j := 0 to experts
      invariant forall i: nat :: i < j ==> EK(k, i) in d
      invariant |lst| == j && forall i :: 0 <= i < j ==> lst[i] == d[EK(k, i)]
      invariant Popped(m, dict, k, j)
    {
      var key := ExpertKey(layer, j, p);
      PopStep(m, dict, k, j);
      if key !in dict {
        return Err(KeyError(key));
      }
      lst := lst + [dict[key]];
      dict := dict - {key};
    }
    assert lst == Experts(d, k, experts);
    var stacked := Stack(lst);
    if stacked.Err? {
      return Err(stacked.error);
    }
    MergeStep(d, m, dict, lo, k, experts);
    return Ok(dict[StackedKey(layer, p) := stacked.value]);
  }

  /** `p` is `m` without the weights of the first `j` experts of projection `k`. */
  ghost predicate Popped<T>(m: Dict<T>, p: Dict<T>, k: nat, j: nat) {
    && (forall i: nat :: i < j ==> EK(k, i) !in p)
    && (forall key :: NotAmong(key, k, j) ==> Same(m, p, key))
  }

  ghost predicate NotAmong(key: string, k: nat, j: nat) {
    forall i: nat :: i < j ==> key != EK(k, i)
  }

  lemma PopStep<T>(m: Dict<T>, p: Dict<T>, k: nat, j: nat)
    requires Popped(m, p, k, j)
    ensures Same(m, p, EK(k, j))
    ensures Popped(m, p - {EK(k, j)}, k, j + 1)
  {
    AllKeysDiffer();
    assert NotAmong(EK(k, j), k, j);
    forall key | NotAmong(key, k, j + 1) ensures Same(m, p - {EK(k, j)}, key) {
      assert key != EK(k, j) && NotAmong(key, k, j);
    }
  }

  /** Projection `k` is as in the input until its turn comes. */
  lemma ExpertsUntouched<T>(d: Dict<T>, m: Dict<T>, lo: nat, hi: nat, n: nat)
    requires IsMerged(d, m, lo, hi, n)
    ensures forall j: nat :: Same(d, m, EK(hi, j))
  {
    AllKeysDiffer();
    forall j: nat ensures Same(d, m, EK(hi, j)) {
      assert Untouched(EK(hi, j), lo, hi, n);
    }
  }

  lemma MergeStep<T>(d: Dict<T>, m: Dict<T>, p: Dict<T>, lo: nat, hi: nat, n: nat)
    requires IsMerged(d, m, lo, hi, n) && Popped(m, p, hi, n) && lo <= hi && CanStack(d, hi, n)
    ensures IsMerged(d, p[SK(hi) := Rows(Experts(d, hi, n))], lo, hi + 1, n)
  {
    var r := p[SK(hi) := Rows(Experts(d, hi, n))];
    AllKeysDiffer();
    assert forall k: nat :: NotAmong(SK(k), hi, n);
    forall k: nat | lo <= k < hi + 1 ensures SK(k) in r && r[SK(k)] == Rows(Experts(d, k, n)) {
      assert Same(m, p, SK(k));
    }
    forall k: nat, j: nat | lo <= k < hi + 1 && j < n ensures EK(k, j) !in r {
      assert k < hi ==> NotAmong(EK(k, j), hi, n);
    }
    forall key | Untouched(key, lo, hi + 1, n) ensures Same(d, r, key) {
      assert !KeyOf(key, hi, n);
      assert Untouched(key, lo, hi, n) && NotAmong(key, hi, n);
    }
  }

  // ---- splitting

  /** The slices that replace the stack of projection `k`. */
  ghost predicate CanSplit<T>(m: Dict<T>, k: nat, n: nat) {
    SK(k) in m ==> n == 0 || (m[SK(k)].Rows? && n <= |m[SK(k)].slices|)
  }

  /** `r` is `m` with those projections below `hi` split that `m` holds a stack of. */
  ghost predicate IsSplit<T>(m: Dict<T>, r: Dict<T>, hi: nat, n: nat) {
    && (forall k: nat :: k < hi ==> CanSplit(m, k, n) && SK(k) !in r)
    && (forall k: nat, j: nat :: k < hi && SK(k) in m && j < n ==>
          CanSplit(m, k, n) && EK(k, j) in r && r[EK(k, j)] == m[SK(k)].slices[j])
    && (forall key :: Unsplit(m, key, hi, n) ==> Same(m, r, key))
  }

  ghost predicate Unsplit<T>(m: Dict<T>, key: string, hi: nat, n: nat) {
    forall k: nat :: k < hi && SK(k) in m ==> !KeyOf(key, k, n)
  }

  /** The splitting script's loop over all layers. */
  method Split<T>(m: Dict<T>, layers: nat, experts: nat) returns (r: Result<Dict<T>, Error>)
    ensures r.Ok? <==> forall k: nat :: k < 3 * layers ==> CanSplit(m, k, experts)
    ensures r.Ok? ==> IsSplit(m, r.value, 3 * layers, experts)
  {
    var dict := m;
    for i := 0 to layers
      invariant IsSplit(m, dict, 3 * i, experts)
    {
      var layer := SplitLayer(m, dict, i, experts);
      if layer.Err? {
        return layer;
      }
      dict := layer.value;
    }
    return Ok(dict);
  }

  /** The loop over the projections of one layer. */
  method SplitLayer<T>(ghost m: Dict<T>, r: Dict<T>, layer: nat, experts: nat) returns (s: Result<Dict<T>, Error>)
    requires IsSplit(m, r, 3 * layer, experts)
    ensures s.Err? ==> exists k: nat :: 3 * layer <= k < 3 * layer + 3 && !CanSplit(m, k, experts)
    ensures s.Ok? ==> IsSplit(m, s.value, 3 * layer + 3, experts)
  {
    var dict := r;
    for p := 0 to 3
      invariant IsSplit(m, dict, 3 * layer + p, experts)
    {
      var step := SplitProj(m, dict, layer, p, experts);
      if step.Err? {
        return step;
      }
      dict := step.value;
    }
    return Ok(dict);
  }

  method SplitProj<T>(ghost m: Dict<T>, r: Dict<T>, layer: nat, p: nat, experts: nat)
    returns (s: Result<Dict<T>, Error>)
    requires p < 3 && IsSplit(m, r, 3 * layer + p, experts)
    ensures s.Ok? <==> CanSplit(m, 3 * layer + p, experts)
    ensures s.Ok? ==> IsSplit(m, s.value, 3 * layer + p + 1, experts)
  {
    ghost var k := 3 * layer + p;
    assert k / 3 == layer && k % 3 == p;
    StackUntouched(m, r, k, experts);
    var stackedKey := StackedKey(layer, p);
    if stackedKey !in r {
      SplitSkips(m, r, k, experts);
      return Ok(r);
    }
    var stacked := r[stackedKey];
    var dict := r - {stackedKey};
    for j := 0 to experts
      invariant j > 0 ==> stacked.Rows? && j <= |stacked.slices|
      invariant Pushed(r, dict, k, stacked, j)
    {
      if !stacked.Rows? || j >= |stacked.slices| {
        return Err(IndexError);
      }
      PushStep(r, dict, k, stacked, j);
      dict := dict[ExpertKey(layer, j, p) := stacked.slices[j]];
    }
    SplitStep(m, r, dict, k, experts);
    return Ok(dict);
  }

  /** `p` is `r` with the first `j` slices in place of the stack of projection `k`. */
  ghost predicate Pushed<T>(r: Dict<T>, p: Dict<T>, k: nat, stacked: Tensor<T>, j: nat) {
    && SK(k) !in p
    && (j > 0 ==> stacked.Rows? && j <= |stacked.slices|)
    && (forall i: nat :: i < j ==> EK(k, i) in p && p[EK(k, i)] == stacked.slices[i])
    && (forall key :: key != SK(k) && NotAmong(key, k, j) ==> Same(r, p, key))
  }

  lemma PushStep<T>(r: Dict<T>, p: Dict<T>, k: nat, stacked: Tensor<T>, j: nat)
    requires Pushed(r, p, k, stacked, j) && stacked.Rows? && j < |stacked.slices|
    ensures Pushed(r, p[EK(k, j) := stacked.slices[j]], k, stacked, j + 1)
  {
    var q := p[EK(k, j) := stacked.slices[j]];
    AllKeysDiffer();
    forall key | key != SK(k) && NotAmong(key, k, j + 1) ensures Same(r, q, key) {
      assert key != EK(k, j) && NotAmong(key, k, j);
    }
  }

  lemma StackUntouched<T>(m: Dict<T>, r: Dict<T>, hi: nat, n: nat)
    requires IsSplit(m, r, hi, n)
    ensures Same(m, r, SK(hi))
  {
    AllKeysDiffer();
    assert Unsplit(m, SK(hi), hi, n);
  }

  lemma SplitSkips<T>(m: Dict<T>, r: Dict<T>, hi: nat, n: nat)
    requires IsSplit(m, r, hi, n) && SK(hi) !in m && SK(hi) !in r
    ensures IsSplit(m, r, hi + 1, n)
  {
    forall key | Unsplit(m, key, hi + 1, n) ensures Same(m, r, key) {
      assert Unsplit(m, key, hi, n);
    }
  }

  lemma SplitStep<T>(m: Dict<T>, r: Dict<T>, p: Dict<T>, hi: nat, n: nat)
    requires IsSplit(m, r, hi, n) && SK(hi) in m && CanSplit(m, hi, n) && Pushed(r, p, hi, m[SK(hi)], n)
    ensures IsSplit(m, p, hi + 1, n)
  {
    AllKeysDiffer();
    forall k: nat | k < hi + 1 ensures CanSplit(m, k, n) && SK(k) !in p {
      assert NotAmong(SK(k), hi, n);
    }
    SplitStepExperts(m, r, p, hi, n);
    forall key | Unsplit(m, key, hi + 1, n) ensures Same(m, p, key) {
      assert !KeyOf(key, hi, n);
      assert Unsplit(m, key, hi, n) && NotAmong(key, hi, n);
    }
  }

  lemma SplitStepExperts<T>(m: Dict<T>, r: Dict<T>, p: Dict<T>, hi: nat, n: nat)
    requires IsSplit(m, r, hi, n) && SK(hi) in m && CanSplit(m, hi, n) && Pushed(r, p, hi, m[SK(hi)], n)
    ensures forall k: nat, j: nat :: k < hi + 1 && SK(k) in m && j < n ==>
              CanSplit(m, k, n) && EK(k, j) in p && p[EK(k, j)] == m[SK(k)].slices[j]
  {
    AllKeysDiffer();
    forall k: nat, j: nat | k < hi + 1 && SK(k) in m && j < n
      ensures CanSplit(m, k, n) && EK(k, j) in p && p[EK(k, j)] == m[SK(k)].slices[j]
    {
      if k < hi {
        assert NotAmong(EK(k, j), hi, n);
        assert Same(r, p, EK(k, j));
      }
    }
  }

  // ---- round trips

  /** Splitting succeeds on a merged dict iff it would on the stacked keys that the original has for dense layers. */
  lemma MergedCanBeSplit<T>(d: Dict<T>, m: Dict<T>, start: nat, layers: nat, n: nat)
    requires IsMerged(d, m, 3 * start, 3 * layers, n) && start <= layers
    ensures (forall k: nat :: k < 3 * layers ==> CanSplit(m, k, n))
        <==> (forall k: nat :: k < 3 * start ==> CanSplit(d, k, n))
  {
    DenseStacksStay(d, m, 3 * start, 3 * layers, n);
    forall k: nat | k < 3 * start ensures CanSplit(d, k, n) <==> CanSplit(m, k, n) {
      assert Same(d, m, SK(k));
    }
  }

  lemma DenseStacksStay<T>(d: Dict<T>, m: Dict<T>, lo: nat, hi: nat, n: nat)
    requires IsMerged(d, m, lo, hi, n)
    ensures forall k: nat :: k < lo ==> Same(d, m, SK(k))
  {
    AllKeysDiffer();
    forall k: nat | k < lo ensures Same(d, m, SK(k)) {
      assert Untouched(SK(k), lo, hi, n);
    }
  }

  /**
   Splitting a merged dict gives back the original, whatever the number of
   layers, experts and leading dense layers, if and only if the original held
   no stacked weight.
   */
  lemma SplitUndoesMerge<T>(d: Dict<T>, m: Dict<T>, r: Dict<T>, start: nat, layers: nat, n: nat)
    requires start <= layers && IsMerged(d, m, 3 * start, 3 * layers, n) && IsSplit(m, r, 3 * layers, n)
    ensures r == d <==> forall k: nat :: k < 3 * layers ==> SK(k) !in d
  {
    if forall k: nat :: k < 3 * layers ==> SK(k) !in d {
      forall key ensures Same(d, r, key) {
        RoundTripKey(d, m, r, 3 * start, 3 * layers, n, key);
      }
      SameEverywhere(d, r);
    }
  }

  lemma SameEverywhere<T>(d: Dict<T>, r: Dict<T>)
    requires forall key :: Same(d, r, key)
    ensures d == r
  {
    forall key ensures key in d <==> key in r {
      assert Same(d, r, key);
    }
    forall key | key in d ensures d[key] == r[key] {
      assert Same(d, r, key);
    }
  }

  lemma RoundTripKey<T>(d: Dict<T>, m: Dict<T>, r: Dict<T>, lo: nat, hi: nat, n: nat, key: string)
    requires lo <= hi && IsMerged(d, m, lo, hi, n) && IsSplit(m, r, hi, n)
    requires forall k: nat :: k < hi ==> SK(k) !in d
    ensures Same(d, r, key)
  {
    AllKeysDiffer();
    if k: nat :| lo <= k < hi && KeyOf(key, k, n) {
      if key != SK(k) {
        var j: nat :| j < n && key == EK(k, j);
        assert r[key] == m[SK(k)].slices[j] == Experts(d, k, n)[j];
      }
    } else {
      DenseStacksStay(d, m, lo, hi, n);
      assert Untouched(key, lo, hi, n);
      assert Unsplit(m, key, hi, n);
    }
  }

  /** A dict that merging could have made: stacks of `n` alike weights from layer `start` on, no expert weights. */
  ghost predicate Stacked<T>(m: Dict<T>, lo: nat, hi: nat, n: nat) {
    && (forall k: nat :: k < hi ==> (SK(k) in m <==> lo <= k))
    && (forall k: nat :: lo <= k < hi ==> m[SK(k)].Rows? && |m[SK(k)].slices| == n && SameShape(m[SK(k)].slices))
    && (forall k: nat, j: nat :: lo <= k < hi && j < n ==> EK(k, j) !in m)
  }

  /** Merging undoes splitting too. */
  lemma MergeUndoesSplit<T>(m: Dict<T>, d: Dict<T>, s: Dict<T>, start: nat, layers: nat, n: nat)
    requires start <= layers && n > 0 && Stacked(m, 3 * start, 3 * layers, n)
    requires IsSplit(m, d, 3 * layers, n)
    ensures forall k: nat :: 3 * start <= k < 3 * layers ==> CanStack(d, k, n)
    ensures IsMerged(d, s, 3 * start, 3 * layers, n) ==> s == m
  {
    forall k: nat | 3 * start <= k < 3 * layers ensures CanStack(d, k, n) && Experts(d, k, n) == m[SK(k)].slices {
      assert forall j :: 0 <= j < n ==> EK(k, j) in d && d[EK(k, j)] == m[SK(k)].slices[j];
      assert Experts(d, k, n) == m[SK(k)].slices;
    }
    if IsMerged(d, s, 3 * start, 3 * layers, n) {
      forall key ensures Same(s, m, key) {
        MergeBackKey(m, d, s, 3 * start, 3 * layers, n, key);
      }
      SameEverywhere(s, m);
    }
  }

  lemma MergeBackKey<T>(m: Dict<T>, d: Dict<T>, s: Dict<T>, lo: nat, hi: nat, n: nat, key: string)
    requires lo <= hi && Stacked(m, lo, hi, n) && IsSplit(m, d, hi, n) && IsMerged(d, s, lo, hi, n)
    requires forall k: nat :: lo <= k < hi ==> Experts(d, k, n) == m[SK(k)].slices
    ensures Same(s, m, key)
  {
    AllKeysDiffer();
    if k: nat :| lo <= k < hi && KeyOf(key, k, n) {
      if key != SK(k) {
        var j: nat :| j < n && key == EK(k, j);
      }
    } else {
      assert Untouched(key, lo, hi, n);
      assert Unsplit(m, key, hi, n);
      assert Same(d, s, key) && Same(m, d, key);
    }
  }

  /** One dense layer that holds a stacked weight of one slice: merging keeps it, splitting does not give it back. */
  lemma StackedKeyIsNotRestored<T>(t: Tensor<T>)
    ensures
      var d, r := map[SK(0) := Rows([t])], map[EK(0, 0) := t];
      IsMerged(d, d, 3, 3, 1) && IsSplit(d, r, 3, 1) && r != d
  {
    var d, r := map[SK(0) := Rows([t])], map[EK(0, 0) := t];
    AllKeysDiffer();
    forall key | Unsplit(d, key, 3, 1) ensures Same(d, r, key) {
      assert !KeyOf(key, 0, 1);
    }
    assert EK(0, 0) in r && EK(0, 0) !in d;
  }

  /** If the weight has no slice, splitting fails. */
  lemma StackedKeyCanFailTheSplit<T>(value: T)
    ensures
      var d := map[SK(0) := Scalar(value)];
      IsMerged(d, d, 3, 3, 1) && !CanSplit(d, 0, 1)
  {
  }

  // ---- the number of experts

  /** What both scripts look up in the model's configuration; `None` is an attribute that it does not have. */
  datatype Config = Config(numExperts: Option<nat>, nRoutedExperts: Option<nat>, firstKDenseReplace: Option<nat>)

  /** The merging script falls back on the routed experts, and raises without either. */
  function MergeExperts(c: Config): Option<nat> {
    if c.numExperts.Some? then c.numExperts else c.nRoutedExperts
  }

  function MergeStart(c: Config): nat {
    if c.firstKDenseReplace.Some? then c.firstKDenseReplace.value else 0
  }

  /** The splitting script reads one attribute only. */
  function SplitExperts(c: Config): Option<nat> {
    c.numExperts
  }

  /** The scripts agree whenever both have a number; the splitting script lacks it iff only routed experts are given. */
  lemma ExpertCountsAgreeIff(c: Config)
    ensures MergeExperts(c).Some? ==> (SplitExperts(c) == MergeExperts(c) <==> c.numExperts.Some?)
    ensures MergeExperts(c).Some? && SplitExperts(c).None? <==> c.numExperts.None? && c.nRoutedExperts.Some?
    ensures SplitExperts(c).Some? ==> MergeExperts(c) == SplitExperts(c)
  {
  }
}
