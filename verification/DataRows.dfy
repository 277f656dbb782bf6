/**
 The row algebra of `DataProto`: tensor and non-tensor columns of equally many
 rows, padded, cut, joined, repeated and unfolded. Every operation is followed
 row by row back to its argument, in all columns alike.
 */
module DataRows {
  import opened Arithmetic
  import opened Common
  import opened OrderedDict
  import opened Blocks

  type Columns<+R> = Dict<string, seq<R>>

  /** `size` is the batch size of the tensor dict, if there is one; `meta` holds no metrics. */
  datatype DataProto<+R, +M> = DataProto(
    size: Option<nat>, tensors: Columns<R>, others: Columns<R>, meta: Dict<string, M>)

  datatype Error =
    UnequalChunk | MissingChunk | ConflictingMeta | BadCounts | SizeMismatch | NoSplitKeys | BadReshape

  predicate Lengths<R>(cs: Columns<R>, n: nat) {
    forall k :: 0 <= k < |cs| ==> |cs[k].value| == n
  }

  /** `len(data)` */
  function Len<R, M>(d: DataProto<R, M>): nat {
    if d.size.Some? then d.size.value else if d.others != [] then |d.others[0].value| else 0
  }

  /** What the constructor checks, and that the columns of a batch without tensors agree. */
  ghost predicate Valid<R, M>(d: DataProto<R, M>) {
    && Lengths(d.tensors, Len(d)) && Lengths(d.others, Len(d))
    && (d.size.None? ==> d.tensors == [])
    && DistinctKeys(d.meta)
  }

  function MapColumns<R, S>(cs: Columns<R>, f: seq<R> -> seq<S>): Columns<S> {
    seq(|cs|, k requires 0 <= k < |cs| => Entry(cs[k].key, f(cs[k].value)))
  }

  /** The operation that changes the rows of tensors with `f`, those of other columns with `g`, leaving `n` rows. */
  function MapRows<R, M>(d: DataProto<R, M>, n: nat, f: seq<R> -> seq<R>, g: seq<R> -> seq<R>): DataProto<R, M> {
    DataProto(if d.size.None? then None else Some(n), MapColumns(d.tensors, f), MapColumns(d.others, g), d.meta)
  }

  // ---- tracing rows

  /** Row `i` of `r` is row `src[i]` of `c`. */
  ghost predicate TracedColumn<R>(c: seq<R>, r: seq<R>, src: seq<nat>) {
    |r| == |src| && forall i :: 0 <= i < |src| ==> src[i] < |c| && r[i] == c[src[i]]
  }

  ghost predicate TracedColumns<R>(cs: Columns<R>, rs: Columns<R>, src: seq<nat>) {
    && |rs| == |cs|
    && forall k :: 0 <= k < |cs| ==> rs[k].key == cs[k].key && TracedColumn(cs[k].value, rs[k].value, src)
  }

  /** `e` has the columns and the meta of `d`, and row `i` of every column comes from row `src[i]`. */
  ghost predicate Traced<R, M>(d: DataProto<R, M>, e: DataProto<R, M>, src: seq<nat>) {
    && e.size == (if d.size.None? then None else Some(|src|)) && e.meta == d.meta
    && TracedColumns(d.tensors, e.tensors, src) && TracedColumns(d.others, e.others, src)
  }

  lemma MapRowsTraced<R, M>(d: DataProto<R, M>, f: seq<R> -> seq<R>, g: seq<R> -> seq<R>, src: seq<nat>)
    requires Valid(d)
    requires forall c :: |c| == Len(d) ==> TracedColumn(c, f(c), src) && TracedColumn(c, g(c), src)
    ensures Traced(d, MapRows(d, |src|, f, g), src)
  {
  }

  /** The rows `lo .. hi - 1`. */
  function Range(lo: nat, hi: nat): seq<nat>
    requires lo <= hi
  {
    seq(hi - lo, i => lo + i)
  }

  /** Results traced to the same rows are equal. */
  lemma TracedUnique<R, M>(d: DataProto<R, M>, e: DataProto<R, M>, f: DataProto<R, M>, src: seq<nat>)
    requires Traced(d, e, src) && Traced(d, f, src)
    ensures e == f
  {
    SameColumns(d.tensors, e.tensors, f.tensors, src);
    SameColumns(d.others, e.others, f.others, src);
  }

  lemma SameColumns<R>(cs: Columns<R>, a: Columns<R>, b: Columns<R>, src: seq<nat>)
    requires TracedColumns(cs, a, src) && TracedColumns(cs, b, src)
    ensures a == b
  {
    forall k | 0 <= k < |cs| ensures a[k] == b[k] {
      assert TracedColumn(cs[k].value, a[k].value, src) && TracedColumn(cs[k].value, b[k].value, src);
      assert a[k].value == b[k].value;
    }
  }

  /** A batch is traced to itself row by row, and to nothing else. */
  lemma TracedToItself<R, M>(d: DataProto<R, M>)
    requires Valid(d)
    ensures Traced(d, d, Range(0, Len(d)))
  {
  }

  // ---- slices

  /** `c[lo:hi]`, with the bounds clamped as Python does. */
  function PySlice<R>(c: seq<R>, lo: nat, hi: nat): seq<R> {
    var h := if hi < |c| then hi else |c|;
    if lo <= h then c[lo..h] else []
  }

  /** `data[lo:hi]` */
  function Rows<R, M>(d: DataProto<R, M>, lo: nat, hi: nat): DataProto<R, M>
    requires lo <= hi
  {
    var h := if hi < Len(d) then hi else Len(d);
    MapRows(d, if lo <= h then h - lo else 0, c => PySlice(c, lo, hi), c => PySlice(c, lo, hi))
  }

  lemma RowsTraced<R, M>(d: DataProto<R, M>, lo: nat, hi: nat)
    requires Valid(d) && lo <= hi <= Len(d)
    ensures Traced(d, Rows(d, lo, hi), Range(lo, hi))
  {
    MapRowsTraced(d, c => PySlice(c, lo, hi), c => PySlice(c, lo, hi), Range(lo, hi));
  }

  // ---- joining

  predicate SameKeys<R>(a: Columns<R>, b: Columns<R>) {
    |a| == |b| && forall k :: 0 <= k < |a| ==> a[k].key == b[k].key
  }

  predicate Alike<R, M>(a: DataProto<R, M>, b: DataProto<R, M>) {
    (a.size.None? <==> b.size.None?) && SameKeys(a.tensors, b.tensors) && SameKeys(a.others, b.others)
  }

  function AppendColumns<R>(a: Columns<R>, b: Columns<R>): Columns<R>
    requires SameKeys(a, b)
  {
    seq(|a|, k requires 0 <= k < |a| => Entry(a[k].key, a[k].value + b[k].value))
  }

  /** The meta dicts merged: equal values for common keys, or a conflict. */
  function MergeMeta<M(==)>(merged: Dict<string, M>, meta: Dict<string, M>): Result<Dict<string, M>, Error> {
    if meta == [] then Ok(merged)
    else
      var m, last := MergeMeta(merged, meta[..|meta| - 1]), meta[|meta| - 1];
      if m.Err? then m
      else if !HasKey(m.value, last.key) then Ok(m.value + [last])
      else if Get(m.value, last.key) != last.value then Err(ConflictingMeta)
      else m
  }

  function Join<R, M(==)>(a: DataProto<R, M>, b: DataProto<R, M>): Result<DataProto<R, M>, Error>
    requires Alike(a, b)
  {
    var meta := MergeMeta(a.meta, b.meta);
    if meta.Err? then Err(meta.error)
    else
      var size := if a.size.None? then None else Some(a.size.value + b.size.value);
      Ok(DataProto(size, AppendColumns(a.tensors, b.tensors), AppendColumns(a.others, b.others), meta.value))
  }

  predicate AllAlike<R, M>(parts: seq<DataProto<R, M>>) {
    forall p :: 0 <= p < |parts| ==> Alike(parts[p], parts[0])
  }

  /** `DataProto.concat` on parts with the same columns: one after the other. */
  function Joined<R, M(==)>(parts: seq<DataProto<R, M>>): (r: Result<DataProto<R, M>, Error>)
    requires parts != [] && AllAlike(parts)
    ensures r.Ok? ==> Alike(r.value, parts[0])
  {
    if |parts| == 1 then Ok(parts[0])
    else
      var init, last := Joined(parts[..|parts| - 1]), parts[|parts| - 1];
      if init.Err? then init
      else
        assert Alike(last, parts[0]);
        Join(init.value, last)
  }

  /** Merging a dict with itself adds nothing. */
  lemma {:induction false} MergeSameMeta<M>(merged: Dict<string, M>, n: nat)
    requires DistinctKeys(merged) && n <= |merged|
    ensures MergeMeta(merged, merged[..n]) == Ok(merged)
  {
    if n > 0 {
      MergeSameMeta(merged, n - 1);
      var last := merged[n - 1];
      assert merged[..n][..n - 1] == merged[..n - 1];
      assert HasKey(merged, last.key);
      assert Find(merged, last.key) == n - 1;
    }
  }

  /** Joining traced parts joins their sources. */
  lemma JoinTraced<R, M>(d: DataProto<R, M>, a: DataProto<R, M>, b: DataProto<R, M>, src: seq<nat>, src': seq<nat>)
    requires DistinctKeys(d.meta) && Traced(d, a, src) && Traced(d, b, src')
    ensures Alike(a, b) && Join(a, b).Ok? && Traced(d, Join(a, b).value, src + src')
  {
    MergeSameMeta(d.meta, |d.meta|);
    assert d.meta[..|d.meta|] == d.meta;
    assert MergeMeta(a.meta, b.meta) == Ok(d.meta);
    AppendTraced(d.tensors, a.tensors, b.tensors, src, src');
    AppendTraced(d.others, a.others, b.others, src, src');
  }

  lemma AppendTraced<R>(cs: Columns<R>, a: Columns<R>, b: Columns<R>, src: seq<nat>, src': seq<nat>)
    requires TracedColumns(cs, a, src) && TracedColumns(cs, b, src')
    ensures SameKeys(a, b) && TracedColumns(cs, AppendColumns(a, b), src + src')
  {
    forall k | 0 <= k < |cs| ensures TracedColumn(cs[k].value, AppendColumns(a, b)[k].value, src + src') {
      assert TracedColumn(cs[k].value, a[k].value, src) && TracedColumn(cs[k].value, b[k].value, src');
    }
  }

  // ---- cutting and joining again

  /** Ascending cut points from 0 to the number of rows. */
  ghost predicate Cuts(cuts: seq<nat>, n: nat) {
    && |cuts| >= 2 && cuts[0] == 0 && cuts[|cuts| - 1] == n
    && forall p, q :: 0 <= p <= q < |cuts| ==> cuts[p] <= cuts[q]
  }

  function Parts<R, M>(d: DataProto<R, M>, cuts: seq<nat>): seq<DataProto<R, M>>
    requires |cuts| >= 2 && forall p, q :: 0 <= p <= q < |cuts| ==> cuts[p] <= cuts[q]
  {
    seq(|cuts| - 1, p requires 0 <= p < |cuts| - 1 => Rows(d, cuts[p], cuts[p + 1]))
  }

  /** Wherever a batch is cut, joining the parts restores it. */
  lemma JoinRestoresParts<R, M>(d: DataProto<R, M>, cuts: seq<nat>)
    requires Valid(d) && Cuts(cuts, Len(d))
    ensures AllAlike(Parts(d, cuts)) && Joined(Parts(d, cuts)) == Ok(d)
  {
    var parts := Parts(d, cuts);
    JoinPrefix(d, cuts, |parts|);
    assert parts[..|parts|] == parts;
    TracedToItself(d);
    TracedUnique(d, Joined(parts).value, d, Range(0, Len(d)));
  }

  lemma {:induction false} JoinPrefix<R, M>(d: DataProto<R, M>, cuts: seq<nat>, p: nat)
    requires Valid(d) && Cuts(cuts, Len(d)) && 0 < p < |cuts|
    ensures AllAlike(Parts(d, cuts)[..p])
    ensures Joined(Parts(d, cuts)[..p]).Ok? && Traced(d, Joined(Parts(d, cuts)[..p]).value, Range(0, cuts[p]))
  {
    var parts, lo, hi := Parts(d, cuts), cuts[p - 1], cuts[p];
    CutsAscend(cuts, Len(d), p);
    RowsTraced(d, lo, hi);
    TakeStep(parts, p - 1);
    if p == 1 {
      assert parts[..1] == [Rows(d, lo, hi)];
    } else {
      JoinPrefix(d, cuts, p - 1);
      JoinOneMore(d, parts[..p - 1], Rows(d, lo, hi), Range(0, lo), Range(lo, hi));
      RangeSum(0, lo, hi);
    }
  }

  lemma CutsAscend(cuts: seq<nat>, n: nat, p: nat)
    requires Cuts(cuts, n) && 0 < p < |cuts|
    ensures cuts[p - 1] <= cuts[p] <= n
  {
  }

  lemma RangeSum(a: nat, b: nat, c: nat)
    requires a <= b <= c
    ensures Range(a, b) + Range(b, c) == Range(a, c)
  {
  }

  lemma JoinOneMore<R, M>(d: DataProto<R, M>, init: seq<DataProto<R, M>>, last: DataProto<R, M>,
                          src: seq<nat>, src': seq<nat>)
    requires DistinctKeys(d.meta) && init != [] && AllAlike(init)
    requires Joined(init).Ok? && Traced(d, Joined(init).value, src) && Traced(d, last, src')
    ensures AllAlike(init + [last])
    ensures Joined(init + [last]).Ok? && Traced(d, Joined(init + [last]).value, src + src')
  {
    var all := init + [last];
    JoinTraced(d, Joined(init).value, last, src, src');
    assert Alike(Joined(init).value, init[0]) && Alike(last, init[0]);
    assert forall p :: 0 <= p < |all| ==> Alike(all[p], all[0]);
    assert all[..|all| - 1] == init && all[|all| - 1] == last;
  }

  /** Slicing beyond the last row stops there. */
  lemma RowsClamp<R, M>(d: DataProto<R, M>, lo: nat, hi: nat)
    requires Valid(d) && lo <= Len(d) <= hi
    ensures Rows(d, lo, hi) == Rows(d, lo, Len(d))
  {
    var a, b := Rows(d, lo, hi), Rows(d, lo, Len(d));
    assert forall k :: 0 <= k < |d.tensors| ==> a.tensors[k] == b.tensors[k];
    assert forall k :: 0 <= k < |d.others| ==> a.others[k] == b.others[k];
  }

  function Min(a: nat, b: nat): nat { if a < b then a else b }

  /** Where part `p` begins if every part has `size` rows while there are rows. */
  function SizeCut(n: nat, size: nat, p: nat): nat { Min(p * size, n) }

  /** The cut points after `count` parts of `size` rows. */
  function SizeCuts(n: nat, size: nat, count: nat): seq<nat> {
    seq(count + 1, p requires 0 <= p => SizeCut(n, size, p))
  }

  lemma SizeCutsAreCuts(n: nat, size: nat, count: nat)
    requires count > 0 && n <= count * size
    ensures Cuts(SizeCuts(n, size, count), n)
  {
    var cuts := SizeCuts(n, size, count);
    assert 0 * size == 0;
    forall p, q | 0 <= p <= q < |cuts| ensures cuts[p] <= cuts[q] {
      MulMonotone(p, q, size);
    }
  }

  // ---- split

  /** `[data[i:i + size] for i in range(0, len(data), size)]` */
  function Split<R, M>(d: DataProto<R, M>, size: nat): seq<DataProto<R, M>>
    requires size > 0
  {
    DivNat(Len(d) + size - 1, size);
    seq(CeilDiv(Len(d), size), p requires 0 <= p => (MulPlusOne(p, size); Rows(d, p * size, (p + 1) * size)))
  }

  /** The split of a batch, whatever the size, joins to the batch; an empty batch has no parts. */
  lemma JoinRestoresSplit<R, M>(d: DataProto<R, M>, size: nat)
    requires Valid(d) && size > 0
    ensures Split(d, size) == [] <==> Len(d) == 0
    ensures Len(d) > 0 ==> AllAlike(Split(d, size)) && Joined(Split(d, size)) == Ok(d)
  {
    if Len(d) == 0 {
      assert CeilDiv(0, size) == 0 by {
        DivModUnique(0, size, size - 1);
      }
    } else {
      SplitIsParts(d, size);
      JoinRestoresParts(d, SizeCuts(Len(d), size, CeilDiv(Len(d), size)));
    }
  }

  lemma SplitIsParts<R, M>(d: DataProto<R, M>, size: nat)
    requires Valid(d) && size > 0 && Len(d) > 0
    ensures CeilDiv(Len(d), size) > 0
    ensures
      var cuts := SizeCuts(Len(d), size, CeilDiv(Len(d), size));
      Cuts(cuts, Len(d)) && Split(d, size) == Parts(d, cuts)
  {
    var n := Len(d);
    CeilDivPositive(n, size);
    var count := CeilDiv(n, size);
    CeilDivIsLeast(n, size, count);
    SizeCutsAreCuts(n, size, count);
    forall p | 0 <= p < count ensures Split(d, size)[p] == Parts(d, SizeCuts(n, size, count))[p] {
      SplitPart(d, size, p);
    }
  }

  /** All parts but the last have `size` rows. */
  lemma SplitPartsAreFull<R, M>(d: DataProto<R, M>, size: nat, p: nat)
    requires Valid(d) && size > 0 && p + 1 < |Split(d, size)|
    ensures Traced(d, Split(d, size)[p], BlockRange(p, size))
  {
    FullPart(Len(d), size, p);
    RowsTraced(d, p * size, (p + 1) * size);
  }

  function BlockRange(p: nat, size: nat): seq<nat> {
    Range(p * size, p * size + size)
  }

  lemma FullPart(n: nat, size: nat, p: nat)
    requires size > 0 && p + 1 < CeilDiv(n, size)
    ensures p * size <= (p + 1) * size <= n && (p + 1) * size == p * size + size
  {
    CeilDivIsLeast(n, size, p + 1);
    MulPlusOne(p, size);
  }

  lemma SplitPart<R, M>(d: DataProto<R, M>, size: nat, p: nat)
    requires Valid(d) && size > 0 && p < CeilDiv(Len(d), size)
    ensures SizeCut(Len(d), size, p) <= SizeCut(Len(d), size, p + 1)
    ensures Split(d, size)[p] == Rows(d, SizeCut(Len(d), size, p), SizeCut(Len(d), size, p + 1))
  {
    CeilDivIsLeast(Len(d), size, p);
    MulPlusOne(p, size);
    if (p + 1) * size > Len(d) {
      RowsClamp(d, p * size, (p + 1) * size);
    }
  }

  // ---- the join as a loop

  method MergeMetaInto<M(==)>(merged: Dict<string, M>, meta: Dict<string, M>)
    returns (r: Result<Dict<string, M>, Error>)
    ensures r == MergeMeta(merged, meta)
  {
    var m := merged;
    for i := 0 to |meta|
      invariant MergeMeta(merged, meta[..i]) == Ok(m)
    {
      var e := meta[i];
      assert meta[..i + 1][..i] == meta[..i];
      if !HasKey(m, e.key) {
        m := m + [e];
      } else if Get(m, e.key) != e.value {
        ConflictStays(merged, meta, i + 1);
        return Err(ConflictingMeta);
      }
    }
    assert meta[..|meta|] == meta;
    return Ok(m);
  }

  lemma {:induction false} ConflictStays<M>(merged: Dict<string, M>, meta: Dict<string, M>, n: nat)
    requires n <= |meta| && MergeMeta(merged, meta[..n]).Err?
    ensures MergeMeta(merged, meta) == MergeMeta(merged, meta[..n])
  {
    if n == |meta| {
      assert meta[..n] == meta;
    } else {
      var init := meta[..|meta| - 1];
      assert init[..n] == meta[..n];
      ConflictStays(merged, init, n);
    }
  }

  method ConcatProtos<R, M(==)>(parts: seq<DataProto<R, M>>) returns (r: Result<DataProto<R, M>, Error>)
    requires parts != [] && AllAlike(parts)
    ensures r == Joined(parts)
  {
    var acc := parts[0];
    assert parts[..1] == [parts[0]];
    for p := 1 to |parts|
      invariant Joining(parts[..p], acc)
    {
      var d := parts[p];
      JoiningStep(parts, p, acc);
      var meta := MergeMetaInto(acc.meta, d.meta);
      if meta.Err? {
        return Err(meta.error);
      }
      var size := if acc.size.None? then None else Some(acc.size.value + d.size.value);
      acc := DataProto(size, AppendColumns(acc.tensors, d.tensors), AppendColumns(acc.others, d.others), meta.value);
    }
    assert parts[..|parts|] == parts;
    return Ok(acc);
  }

  ghost predicate Joining<R, M>(parts: seq<DataProto<R, M>>, acc: DataProto<R, M>) {
    parts != [] && AllAlike(parts) && Joined(parts) == Ok(acc)
  }

  lemma JoiningStep<R, M>(parts: seq<DataProto<R, M>>, p: nat, acc: DataProto<R, M>)
    requires p < |parts| && AllAlike(parts) && Joining(parts[..p], acc)
    ensures Alike(acc, parts[p])
    ensures Join(acc, parts[p]).Ok? ==> Joining(parts[..p + 1], Join(acc, parts[p]).value)
    ensures Join(acc, parts[p]).Err? ==> Joined(parts) == Join(acc, parts[p])
  {
    assert parts[..p + 1][..p] == parts[..p];
    assert Alike(parts[p], parts[0]) && Alike(acc, parts[0]);
    if Join(acc, parts[p]).Err? {
      JoinFails(parts, p + 1);
    }
  }

  lemma {:induction false} JoinFails<R, M>(parts: seq<DataProto<R, M>>, n: nat)
    requires 0 < n <= |parts| && AllAlike(parts) && Joined(parts[..n]).Err?
    ensures Joined(parts) == Joined(parts[..n])
  {
    if n == |parts| {
      assert parts[..n] == parts;
    } else {
      var init := parts[..|parts| - 1];
      assert init[..n] == parts[..n];
      JoinFails(init, n);
    }
  }

  // ---- padding

  /** The source of padding: the rows again from the first on. */
  function Cyclic(n: nat, total: nat): seq<nat>
    requires n > 0
  {
    seq(total, i => i % n)
  }

  /**
   `pad_dataproto_to_divisor`: the least length that the divisor divides, row
   `i` a copy of row `i mod n`.
   */
  method PadToDivisor<R, M(==)>(d: DataProto<R, M>, divisor: nat) returns (padded: DataProto<R, M>, padSize: nat)
    requires Valid(d) && divisor > 0
    ensures (Len(d) + padSize) % divisor == 0 && padSize < divisor
    ensures Len(d) == 0 ==> padSize == 0 && padded == d
    ensures Len(d) > 0 ==> Traced(d, padded, Cyclic(Len(d), Len(d) + padSize))
  {
    var n := Len(d);
    if n % divisor == 0 {
      if n > 0 {
        TracedToItself(d);
        CyclicStart(n);
      }
      return d, 0;
    }
    padSize := divisor - n % divisor;
    NextMultiple(n, divisor);
    padded := PadBy(d, padSize);
  }

  /** The loop: whole copies of the batch while they fit, then the rows that are still missing. */
  method PadBy<R, M(==)>(d: DataProto<R, M>, padSize: nat) returns (padded: DataProto<R, M>)
    requires Valid(d) && Len(d) > 0
    ensures Traced(d, padded, Cyclic(Len(d), Len(d) + padSize))
  {
    var n := Len(d);
    var parts := [d];
    var remaining: nat := padSize;
    PadStart(d);
    while remaining > 0
      invariant remaining <= padSize && Padding(d, parts, n + padSize - remaining)
      invariant remaining > 0 ==> (n + padSize - remaining) % n == 0
    {
      var take := if remaining < n then remaining else n;
      PadStep(d, parts, n + padSize - remaining, take);
      parts := parts + [Rows(d, 0, take)];
      remaining := remaining - take;
    }
    var joined := ConcatProtos(parts);
    padded := joined.value;
  }

  /** Joining the parts would give `m` rows, cycling through the batch. */
  ghost predicate Padding<R, M>(d: DataProto<R, M>, parts: seq<DataProto<R, M>>, m: nat)
    requires Len(d) > 0
  {
    parts != [] && AllAlike(parts) && Joined(parts).Ok? && Traced(d, Joined(parts).value, Cyclic(Len(d), m))
  }

  lemma PadStart<R, M>(d: DataProto<R, M>)
    requires Valid(d) && Len(d) > 0
    ensures Padding(d, [d], Len(d)) && Len(d) % Len(d) == 0
  {
    TracedToItself(d);
    CyclicStart(Len(d));
    ModShift(Len(d), 0, 0);
    assert AllAlike([d]) && Joined([d]) == Ok(d);
  }

  lemma PadStep<R, M>(d: DataProto<R, M>, parts: seq<DataProto<R, M>>, m: nat, take: nat)
    requires Valid(d) && 0 < take <= Len(d) && Padding(d, parts, m) && m % Len(d) == 0
    ensures Padding(d, parts + [Rows(d, 0, take)], m + take)
    ensures take == Len(d) ==> (m + take) % Len(d) == 0
  {
    var n := Len(d);
    RowsTraced(d, 0, take);
    JoinOneMore(d, parts, Rows(d, 0, take), Cyclic(n, m), Range(0, take));
    CyclicStep(n, m, take);
    ModShift(n, m, 0);
  }

  lemma NextMultiple(n: nat, d: nat)
    requires d > 0 && n % d != 0
    ensures (n + (d - n % d)) % d == 0
  {
    var q, r := n / d, n % d;
    DivNat(n, d);
    assert n == q * d + r;
    assert n + (d - r) == (q + 1) * d + 0;
    DivModUnique(q + 1, d, 0);
  }

  lemma CyclicStart(n: nat)
    requires n > 0
    ensures Cyclic(n, n) == Range(0, n)
  {
  }

  lemma ModShift(n: nat, m: nat, i: nat)
    requires i < n && m % n == 0
    ensures (m + i) % n == i && (m + n) % n == 0
  {
    DivNat(m, n);
    var q: nat := m / n;
    assert m + i == q * n + i;
    DivModUnique(q, n, i);
    assert m + n == (q + 1) * n + 0;
    DivModUnique(q + 1, n, 0);
  }

  lemma CyclicStep(n: nat, m: nat, take: nat)
    requires n > 0 && m % n == 0 && take <= n
    ensures Cyclic(n, m) + Range(0, take) == Cyclic(n, m + take)
  {
    var all := Cyclic(n, m + take);
    forall j: int | m <= j < m + take ensures all[j] == Range(0, take)[j - m] {
      ModShift(n, m, j - m);
    }
  }

  /** No shorter padded length will do. */
  lemma PaddingIsLeast(n: nat, pad: nat, divisor: nat, m: nat)
    requires divisor > 0 && (n + pad) % divisor == 0 && pad < divisor && m % divisor == 0 && n <= m
    ensures n + pad <= m
  {
    ExactQuotient(n + pad, divisor);
    ExactQuotient(m, divisor);
    DivNat(n + pad, divisor);
    DivNat(m, divisor);
    var p: nat, q: nat := (n + pad) / divisor, m / divisor;
    assert divisor * p == p * divisor && divisor * q == q * divisor;
    if q < p {
      MulStep(p, q, divisor);
    } else {
      MulMonotone(p, q, divisor);
    }
  }

  /** `data[:-padSize]` */
  function Unpad<R, M>(d: DataProto<R, M>, padSize: nat): DataProto<R, M> {
    if padSize == 0 then d else Rows(d, 0, if padSize <= Len(d) then Len(d) - padSize else 0)
  }

  /** Unpadding drops that many rows from the end, or all. */
  lemma UnpadDrops<R, M>(d: DataProto<R, M>, padSize: nat)
    requires Valid(d)
    ensures Traced(d, Unpad(d, padSize), Range(0, if padSize <= Len(d) then Len(d) - padSize else 0))
  {
    if padSize == 0 {
      TracedToItself(d);
    } else {
      RowsTraced(d, 0, if padSize <= Len(d) then Len(d) - padSize else 0);
    }
  }

  lemma UnpadRestores<R, M>(d: DataProto<R, M>, padded: DataProto<R, M>, padSize: nat)
    requires Valid(d) && (Len(d) == 0 ==> padSize == 0 && padded == d)
    requires Len(d) > 0 ==> Traced(d, padded, Cyclic(Len(d), Len(d) + padSize))
    ensures Unpad(padded, padSize) == d
  {
    if Len(d) > 0 {
      CutCyclic(d, padded, padSize);
      TracedToItself(d);
      TracedUnique(d, Unpad(padded, padSize), d, Range(0, Len(d)));
    }
  }

  lemma CutCyclic<R, M>(d: DataProto<R, M>, padded: DataProto<R, M>, padSize: nat)
    requires Valid(d) && Len(d) > 0 && Traced(d, padded, Cyclic(Len(d), Len(d) + padSize))
    ensures Traced(d, Unpad(padded, padSize), Range(0, Len(d)))
  {
    var n := Len(d);
    var src := Cyclic(n, n + padSize);
    TracedLength(d, padded, src);
    CutTraced(d, padded, src, n);
    CyclicPrefix(n, padSize);
  }

  lemma CyclicPrefix(n: nat, more: nat)
    requires n > 0
    ensures Cyclic(n, n + more)[..n] == Range(0, n)
  {
  }

  lemma TracedLength<R, M>(d: DataProto<R, M>, e: DataProto<R, M>, src: seq<nat>)
    requires Valid(d) && Traced(d, e, src) && Len(d) > 0
    ensures Valid(e) && Len(e) == |src|
  {
  }

  /** The first rows of a traced batch are traced to the first sources. */
  lemma CutTraced<R, M>(d: DataProto<R, M>, e: DataProto<R, M>, src: seq<nat>, n: nat)
    requires Valid(e) && Len(e) == |src| && Traced(d, e, src) && n <= |src|
    ensures Traced(d, Rows(e, 0, n), src[..n])
    ensures n == |src| ==> Traced(d, e, src[..n])
  {
    RowsTraced(e, 0, n);
    var r := Rows(e, 0, n);
    assert TracedColumns(d.tensors, r.tensors, src[..n]) by {
      CutColumns(d.tensors, e.tensors, r.tensors, src, n);
    }
    assert TracedColumns(d.others, r.others, src[..n]) by {
      CutColumns(d.others, e.others, r.others, src, n);
    }
    if n == |src| {
      assert src[..n] == src;
    }
  }

  lemma CutColumns<R>(cs: Columns<R>, es: Columns<R>, rs: Columns<R>, src: seq<nat>, n: nat)
    requires n <= |src| && TracedColumns(cs, es, src) && TracedColumns(es, rs, Range(0, n))
    ensures TracedColumns(cs, rs, src[..n])
  {
    forall k | 0 <= k < |cs| ensures TracedColumn(cs[k].value, rs[k].value, src[..n]) {
      assert TracedColumn(cs[k].value, es[k].value, src) && TracedColumn(es[k].value, rs[k].value, Range(0, n));
    }
  }

  // ---- repeating

  lemma FlatPosition(j: nat, n: nat, w: nat)
    requires w > 0 && j < n * w
    ensures 0 <= j / w < n && 0 <= j % w < w
  {
    DivNat(j, w);
    var q: nat := j / w;
    if q >= n {
      MulMonotone(n, q, w);
    }
  }

  /** A stack of columns of `w` rows, reshaped to one column: position `j` is row `j mod w` of column `j / w`. */
  function Flatten<R>(stack: seq<seq<R>>, w: nat): seq<R>
    requires EqualBlocks(stack, w)
  {
    if w == 0 then []
    else seq(|stack| * w, j requires 0 <= j < |stack| * w => (FlatPosition(j, |stack|, w); stack[j / w][j % w]))
  }

  /** `tensor.repeat_interleave(k)`: every row expanded to a column of `k` rows, then flattened. */
  function TensorInterleave<R>(c: seq<R>, k: nat): seq<R> {
    Flatten(seq(|c|, i requires 0 <= i < |c| => seq(k, _ => c[i])), k)
  }

  /** `tensor.unsqueeze(0).expand(k, ...).reshape(-1, ...)` */
  function TensorTile<R>(c: seq<R>, k: nat): seq<R> {
    Flatten(seq(k, _ => c), |c|)
  }

  /** `tensor.repeat_interleave(counts)`: the rows selected by the repeated indices. */
  function TensorRepeatBy<R>(c: seq<R>, counts: seq<nat>): seq<R> {
    var src := ByCounts(counts);
    if |c| != |counts| then [] else seq(|src|, i requires 0 <= i < |src| => c[src[i]])
  }

  /** `np.repeat` with one count: copies of every row, row after row. */
  function NumpyRepeat<R>(c: seq<R>, k: nat): seq<R> {
    if c == [] then [] else NumpyRepeat(c[..|c| - 1], k) + seq(k, _ => c[|c| - 1])
  }

  /** `np.repeat` with a count for every row. */
  function NumpyRepeatBy<R>(c: seq<R>, counts: seq<nat>): seq<R> {
    if c == [] || counts == [] then []
    else NumpyRepeatBy(c[..|c| - 1], counts[..|counts| - 1]) + seq(counts[|counts| - 1], _ => c[|c| - 1])
  }

  /** `np.tile`: copies of the whole column, one after the other. */
  function NumpyTile<R>(c: seq<R>, k: nat): seq<R> {
    if k == 0 then [] else NumpyTile(c, k - 1) + c
  }

  function Repeat<R, M>(d: DataProto<R, M>, k: nat, interleave: bool): DataProto<R, M> {
    MapRows(d, Len(d) * k,
      c => if interleave then TensorInterleave(c, k) else TensorTile(c, k),
      c => if interleave then NumpyRepeat(c, k) else NumpyTile(c, k))
  }

  /** The sum of the first `j` counts. */
  function Prefix(counts: seq<nat>, j: nat): nat
    requires j <= |counts|
  {
    if j == 0 then 0 else Prefix(counts, j - 1) + counts[j - 1]
  }

  /**
   The count of every row: a single count is for all of them, otherwise there
   must be one for each. An empty list becomes a tensor of floats, which
   neither library accepts.
   */
  function RowCounts(n: nat, counts: seq<nat>): Option<seq<nat>> {
    if |counts| == 1 then Some(seq(n, _ => counts[0]))
    else if counts != [] && |counts| == n then Some(counts)
    else None
  }

  predicate NoColumns<R, M>(d: DataProto<R, M>) {
    d.tensors == [] && d.others == []
  }

  /** `sample_level_repeat`: with a tensor dict the new batch size is the sum of the given counts, and is checked. */
  function SampleLevelRepeat<R, M>(d: DataProto<R, M>, counts: seq<nat>): Result<DataProto<R, M>, Error> {
    var sum, rows := Prefix(counts, |counts|), RowCounts(Len(d), counts);
    if NoColumns(d) then Ok(d.(size := if d.size.None? then None else Some(sum)))
    else if rows.None? then Err(BadCounts)
    else if d.size.Some? && Prefix(rows.value, Len(d)) != sum then Err(SizeMismatch)
    else
      Ok(MapRows(d, Prefix(rows.value, Len(d)),
           c => TensorRepeatBy(c, rows.value), c => NumpyRepeatBy(c, rows.value)))
  }

  /** Row `i` comes from row `i / k`. */
  function ByDivision(n: nat, k: nat): seq<nat> {
    if k == 0 then [] else seq(n * k, i requires 0 <= i => (DivNat(i, k); i / k))
  }

  /** Row `i` comes from row `i mod n`. */
  function ByRemainder(n: nat, k: nat): seq<nat> {
    if n == 0 then [] else Cyclic(n, n * k)
  }

  /** Row `j` comes `counts[j]` times. */
  function ByCounts(counts: seq<nat>): (r: seq<nat>)
    ensures forall i :: 0 <= i < |r| ==> r[i] < |counts|
  {
    if counts == [] then [] else ByCounts(counts[..|counts| - 1]) + seq(counts[|counts| - 1], _ => |counts| - 1)
  }

  lemma TensorInterleaveTraced<R>(c: seq<R>, k: nat)
    ensures TracedColumn(c, TensorInterleave(c, k), ByDivision(|c|, k))
  {
    if k > 0 {
      forall j: nat | j < |c| * k ensures j / k < |c| && TensorInterleave(c, k)[j] == c[j / k] {
        FlatPosition(j, |c|, k);
      }
    }
  }

  lemma TensorTileTraced<R>(c: seq<R>, k: nat)
    ensures TracedColumn(c, TensorTile(c, k), ByRemainder(|c|, k))
  {
    var n := |c|;
    assert n * k == k * n;
    if n > 0 {
      forall j: nat | j < k * n ensures TensorTile(c, k)[j] == c[j % n] {
        FlatPosition(j, k, n);
      }
    }
  }

  lemma {:induction false} NumpyRepeatTraced<R>(c: seq<R>, k: nat)
    ensures TracedColumn(c, NumpyRepeat(c, k), ByDivision(|c|, k))
  {
    if c == [] {
      assert 0 * k == 0;
    } else {
      var n := |c| - 1;
      NumpyRepeatTraced(c[..n], k);
      ByDivisionStep(n, k);
    }
  }

  lemma ByDivisionStep(n: nat, k: nat)
    ensures ByDivision(n + 1, k) == ByDivision(n, k) + seq(k, _ => n)
  {
    MulPlusOne(n, k);
    forall i: int | n * k <= i < (n + 1) * k ensures i / k == n {
      DivModUnique(n, k, i - n * k);
    }
  }

  lemma {:induction false} NumpyTileTraced<R>(c: seq<R>, k: nat)
    ensures TracedColumn(c, NumpyTile(c, k), ByRemainder(|c|, k))
  {
    var n := |c|;
    if k == 0 {
      assert n * 0 == 0;
    } else {
      NumpyTileTraced(c, k - 1);
      assert n * k == n * (k - 1) + n && n * (k - 1) == (k - 1) * n;
      forall i: int | n * (k - 1) <= i < n * k ensures i % n == i - n * (k - 1) {
        DivModUnique(k - 1, n, i - n * (k - 1));
      }
    }
  }

  lemma {:induction false} NumpyRepeatByTraced<R>(c: seq<R>, counts: seq<nat>)
    requires |counts| == |c|
    ensures TracedColumn(c, NumpyRepeatBy(c, counts), ByCounts(counts))
  {
    if c != [] {
      NumpyRepeatByTraced(c[..|c| - 1], counts[..|c| - 1]);
    }
  }

  /** Tensor and non-tensor columns are repeated by operations of their own, yet from the same source rows. */
  lemma RepeatTraced<R, M>(d: DataProto<R, M>, k: nat)
    requires Valid(d)
    ensures Traced(d, Repeat(d, k, true), ByDivision(Len(d), k))
    ensures Traced(d, Repeat(d, k, false), ByRemainder(Len(d), k))
  {
    forall c: seq<R> | |c| == Len(d)
      ensures TracedColumn(c, TensorInterleave(c, k), ByDivision(|c|, k))
      ensures TracedColumn(c, NumpyRepeat(c, k), ByDivision(|c|, k))
      ensures TracedColumn(c, TensorTile(c, k), ByRemainder(|c|, k))
      ensures TracedColumn(c, NumpyTile(c, k), ByRemainder(|c|, k))
    {
      TensorInterleaveTraced(c, k);
      NumpyRepeatTraced(c, k);
      TensorTileTraced(c, k);
      NumpyTileTraced(c, k);
    }
    SourceLengths(Len(d), k);
    MapRowsTraced(d, c => if true then TensorInterleave(c, k) else TensorTile(c, k),
      c => if true then NumpyRepeat(c, k) else NumpyTile(c, k), ByDivision(Len(d), k));
    MapRowsTraced(d, c => if false then TensorInterleave(c, k) else TensorTile(c, k),
      c => if false then NumpyRepeat(c, k) else NumpyTile(c, k), ByRemainder(Len(d), k));
  }

  lemma SourceLengths(n: nat, k: nat)
    ensures |ByDivision(n, k)| == n * k == |ByRemainder(n, k)|
  {
    if k == 0 {
      assert n * 0 == 0;
    }
    if n == 0 {
      assert 0 * k == 0;
    }
  }

  lemma {:induction false} PrefixOfInit(counts: seq<nat>, j: nat)
    requires counts != [] && j < |counts|
    ensures Prefix(counts[..|counts| - 1], j) == Prefix(counts, j)
  {
    if j > 0 {
      PrefixOfInit(counts, j - 1);
    }
  }

  lemma {:induction false} ByCountsLength(counts: seq<nat>)
    ensures |ByCounts(counts)| == Prefix(counts, |counts|)
  {
    if counts != [] {
      ByCountsLength(counts[..|counts| - 1]);
      PrefixOfInit(counts, |counts| - 1);
    }
  }

  /** Row `i` comes from the row whose prefix-sum interval holds `i`. */
  lemma {:induction false} ByCountsIsInterval(counts: seq<nat>, j: nat, i: nat)
    requires j < |counts| && Prefix(counts, j) <= i < Prefix(counts, j + 1)
    ensures i < |ByCounts(counts)| && ByCounts(counts)[i] == j
  {
    var n := |counts| - 1;
    ByCountsLength(counts[..n]);
    PrefixOfInit(counts, n);
    PrefixOfInit(counts, j);
    if j < n {
      PrefixOfInit(counts, j + 1);
      ByCountsIsInterval(counts[..n], j, i);
    }
  }

  /**
   `sample_level_repeat` takes a count for every row. A single count for more
   rows or none is accepted iff there is no tensor dict, or it is zero. Tensor
   and non-tensor columns come from the same source rows.
   */
  lemma SampleLevelRepeatTraced<R, M>(d: DataProto<R, M>, counts: seq<nat>)
    requires Valid(d) && !NoColumns(d)
    ensures SampleLevelRepeat(d, counts).Ok?
       <==> counts != [] && (|counts| == Len(d) || (|counts| == 1 && (d.size.None? || counts[0] == 0)))
    ensures SampleLevelRepeat(d, counts).Ok? ==>
              && RowCounts(Len(d), counts).Some?
              && Traced(d, SampleLevelRepeat(d, counts).value, ByCounts(RowCounts(Len(d), counts).value))
  {
    var rows := RowCounts(Len(d), counts);
    if |counts| == 1 {
      OneCountSum(Len(d), counts[0]);
      assert Prefix(counts, 0) == 0;
    }
    if rows.Some? {
      RepeatByTraced(d, rows.value);
    }
  }

  /** A batch without columns only gets the sum of the counts as its size. */
  lemma NoColumnsRepeated<R, M>(d: DataProto<R, M>, counts: seq<nat>)
    requires NoColumns(d)
    ensures
      var r := SampleLevelRepeat(d, counts);
      r.Ok? && NoColumns(r.value) && r.value.meta == d.meta
      && r.value.size == if d.size.None? then None else Some(|ByCounts(counts)|)
  {
    ByCountsLength(counts);
  }

  lemma RepeatByTraced<R, M>(d: DataProto<R, M>, counts: seq<nat>)
    requires Valid(d) && |counts| == Len(d)
    ensures Traced(d,
              MapRows(d, Prefix(counts, Len(d)), c => TensorRepeatBy(c, counts), c => NumpyRepeatBy(c, counts)),
              ByCounts(counts))
  {
    forall c: seq<R> | |c| == Len(d) ensures TracedColumn(c, NumpyRepeatBy(c, counts), ByCounts(counts)) {
      NumpyRepeatByTraced(c, counts);
    }
    ByCountsLength(counts);
    MapRowsTraced(d, c => TensorRepeatBy(c, counts), c => NumpyRepeatBy(c, counts), ByCounts(counts));
  }

  lemma OneCountSum(n: nat, k: nat)
    ensures Prefix(seq(n, _ => k), n) == n * k
    ensures n * k == k <==> n == 1 || k == 0
  {
    ConstantSource(n, k);
    ByCountsLength(seq(n, _ => k));
    SourceLengths(n, k);
    if n > 1 {
      MulStep(n, 1, k);
    }
  }

  /** The same count for every row: the two ways of repeating agree. */
  lemma ConstantCounts<R, M>(d: DataProto<R, M>, k: nat)
    requires Valid(d) && Len(d) > 0 && !NoColumns(d)
    ensures SampleLevelRepeat(d, seq(Len(d), _ => k)) == Ok(Repeat(d, k, true))
  {
    var counts := seq(Len(d), _ => k);
    RepeatTraced(d, k);
    SampleLevelRepeatTraced(d, counts);
    assert RowCounts(Len(d), counts).value == counts;
    ConstantSource(Len(d), k);
    TracedUnique(d, SampleLevelRepeat(d, counts).value, Repeat(d, k, true), ByDivision(Len(d), k));
  }

  lemma {:induction false} ConstantSource(n: nat, k: nat)
    ensures ByCounts(seq(n, _ => k)) == ByDivision(n, k)
  {
    if n == 0 {
      SourceLengths(0, k);
    } else {
      ConstantSource(n - 1, k);
      assert seq(n, _ => k)[..n - 1] == seq(n - 1, _ => k);
      ByDivisionStep(n - 1, k);
    }
  }

  // ---- unfolding

  /** A column of two dimensions whose rows have `width` cells. */
  predicate Uniform<E>(c: seq<seq<E>>, width: nat) {
    forall i :: 0 <= i < |c| ==> |c[i]| == width
  }

  function Width<E>(c: seq<seq<E>>): nat { if c == [] then 0 else |c[0]| }

  /** `reshape` to `rows` rows of `width` cells, in row-major order. */
  function Reshape<E>(flat: seq<E>, rows: nat, width: nat): seq<seq<E>> {
    seq(rows, i requires 0 <= i => PySlice(flat, i * width, (i + 1) * width))
  }

  /** The column with `split` times as many rows of a `split`-th of the width; None if the cells do not divide so. */
  function UnfoldColumn<E>(c: seq<seq<E>>, split: nat): Option<seq<seq<E>>>
    requires split > 0
  {
    DivNat(Width(c), split);
    if Width(c) % split != 0 then None else Some(Reshape(Concat(c), |c| * split, Width(c) / split))
  }

  /** The columns of the tensor dict, or the others: a column that is not split is repeated. */
  function UnfoldColumns<E>(cs: Columns<seq<E>>, split: nat, keys: seq<string>, tensors: bool)
    : Result<Columns<seq<E>>, Error>
    requires split > 0
  {
    if cs == [] then Ok([])
    else
      var init, last := UnfoldColumns(cs[..|cs| - 1], split, keys, tensors), cs[|cs| - 1];
      if init.Err? then init
      else if last.key !in keys then Ok(init.value + [Entry(last.key, Repeated(last.value, split, tensors))])
      else
        var u := UnfoldColumn(last.value, split);
        if u.None? then Err(BadReshape) else Ok(init.value + [Entry(last.key, u.value)])
  }

  function Repeated<R>(c: seq<R>, k: nat, tensor: bool): seq<R> {
    if tensor then TensorInterleave(c, k) else NumpyRepeat(c, k)
  }

  /** `unfold_column_chunks`; without split keys the membership test on the non-tensor keys raises. */
  function Unfold<E, M>(d: DataProto<seq<E>, M>, split: nat, splitKeys: Option<seq<string>>)
    : Result<DataProto<seq<E>, M>, Error>
    requires split > 0
  {
    var keys := if splitKeys.None? then [] else splitKeys.value;
    var tensors := UnfoldColumns(d.tensors, split, keys, true);
    if tensors.Err? then Err(tensors.error)
    else if splitKeys.None? && d.others != [] then Err(NoSplitKeys)
    else
      var others := UnfoldColumns(d.others, split, keys, false);
      if others.Err? then Err(others.error)
      else
        var size := if d.size.None? then None else Some(d.size.value * split);
        Ok(DataProto(size, tensors.value, others.value, d.meta))
  }

  /** Row `i * split + b` of `r` is block `b` of row `i` of `c`. */
  ghost predicate UnfoldedColumn<E>(c: seq<seq<E>>, r: seq<seq<E>>, split: nat)
    requires split > 0
  {
    && |r| == |c| * split
    && forall i, b :: 0 <= i < |c| && 0 <= b < split ==> BlockAt(c, r, split, i, b)
  }

  ghost predicate BlockAt<E>(c: seq<seq<E>>, r: seq<seq<E>>, split: nat, i: int, b: int)
    requires split > 0 && 0 <= i < |c|
  {
    var w := |c[i]| / split;
    0 <= i * split + b < |r| && 0 <= b * w <= (b + 1) * w <= |c[i]| && r[i * split + b] == c[i][b * w..(b + 1) * w]
  }

  ghost predicate UnfoldedColumns<E>(cs: Columns<seq<E>>, rs: Columns<seq<E>>, split: nat, keys: seq<string>)
    requires split > 0
  {
    && |rs| == |cs|
    && forall k :: 0 <= k < |cs| ==> rs[k].key == cs[k].key && UnfoldedEntry(cs[k], rs[k], split, keys)
  }

  ghost predicate UnfoldedEntry<E>(c: Entry<string, seq<seq<E>>>, r: Entry<string, seq<seq<E>>>,
                                   split: nat, keys: seq<string>)
    requires split > 0
  {
    if c.key in keys then UnfoldedColumn(c.value, r.value, split)
    else TracedColumn(c.value, r.value, ByDivision(|c.value|, split))
  }

  /** The position of block `b` of row `i` among all cells. */
  lemma BlockPosition(i: nat, b: nat, split: nat, w: nat, n: nat)
    requires b < split && i < n
    ensures (i * split + b) * w == i * (split * w) + b * w
    ensures (i * split + b + 1) * w == i * (split * w) + (b + 1) * w
    ensures b * w <= (b + 1) * w <= split * w
    ensures 0 <= i * split + b < n * split
  {
    MulAssoc(i, split, w);
    assert (i * split + b) * w == i * split * w + b * w;
    MulPlusOne(i * split + b, w);
    MulPlusOne(b, w);
    MulMonotone(b + 1, split, w);
    MulPlusOne(i, split);
    MulMonotone(i + 1, n, split);
  }

  lemma BlockOfRow<E>(c: seq<seq<E>>, rows: nat, w: nat, m: nat, i: nat, j: nat, lo: nat, hi: nat)
    requires Uniform(c, m) && i < |c| && j < rows && lo <= hi <= m
    requires j * w == i * m + lo && (j + 1) * w == i * m + hi
    ensures Reshape(Concat(c), rows, w)[j] == c[i][lo..hi]
  {
    ConcatSlice(c, m, i);
    ReshapeAt(Concat(c), rows, w, j, i * m, m, lo, hi);
  }

  /** A row of the reshaped cells that lies inside the slice at `at`. */
  lemma ReshapeAt<E>(flat: seq<E>, rows: nat, w: nat, j: nat, at: nat, m: nat, lo: nat, hi: nat)
    requires j < rows && InRange(flat, at, m) && lo <= hi <= m
    requires j * w == at + lo && (j + 1) * w == at + hi
    ensures Reshape(flat, rows, w)[j] == Slice(flat, at, m)[lo..hi]
  {
    SliceOfSlice(flat, at, m, lo, hi);
  }

  lemma SliceOfSlice<E>(flat: seq<E>, at: nat, m: nat, lo: nat, hi: nat)
    requires InRange(flat, at, m) && lo <= hi <= m
    ensures flat[at + lo..at + hi] == Slice(flat, at, m)[lo..hi]
  {
    var a, b := flat[at + lo..at + hi], Slice(flat, at, m)[lo..hi];
    assert |a| == |b|;
    forall k | 0 <= k < |a| ensures a[k] == b[k] {
      assert a[k] == flat[at + lo + k] && b[k] == Slice(flat, at, m)[lo + k];
    }
  }

  lemma UnfoldColumnBlocks<E>(c: seq<seq<E>>, split: nat)
    requires split > 0 && Uniform(c, Width(c)) && UnfoldColumn(c, split).Some?
    ensures UnfoldedColumn(c, UnfoldColumn(c, split).value, split)
  {
    DivNat(Width(c), split);
    var w: nat := Width(c) / split;
    var r := Reshape(Concat(c), |c| * split, w);
    ExactQuotient(Width(c), split);
    forall i, b | 0 <= i < |c| && 0 <= b < split ensures BlockAt(c, r, split, i, b) {
      UnfoldedBlock(c, split, w, i, b);
    }
    assert UnfoldedColumn(c, r, split);
  }

  lemma UnfoldedBlock<E>(c: seq<seq<E>>, split: nat, w: nat, i: nat, b: nat)
    requires split > 0 && Uniform(c, split * w) && i < |c| && b < split
    ensures BlockAt(c, Reshape(Concat(c), |c| * split, w), split, i, b)
  {
    var m: nat, lo: nat, hi: nat, j: nat := split * w, b * w, (b + 1) * w, i * split + b;
    BlockPosition(i, b, split, w, |c|);
    BlockOfRow(c, |c| * split, w, m, i, j, lo, hi);
    WholeBlocks(split, w);
    assert |c[i]| == m;
  }

  lemma WholeBlocks(split: nat, w: nat)
    requires split > 0
    ensures split * w / split == w
  {
    assert split * w == w * split;
    DivExact(w, split);
  }

  predicate WidthsDivide<E>(cs: Columns<seq<E>>, split: nat, keys: seq<string>)
    requires split > 0
  {
    forall k :: 0 <= k < |cs| && cs[k].key in keys ==> Width(cs[k].value) % split == 0
  }

  /** The columns to be split have two dimensions. */
  predicate Rectangular<E>(cs: Columns<seq<E>>, keys: seq<string>) {
    forall k :: 0 <= k < |cs| && cs[k].key in keys ==> Uniform(cs[k].value, Width(cs[k].value))
  }

  lemma {:induction false} UnfoldColumnsOkIff<E>(cs: Columns<seq<E>>, split: nat, keys: seq<string>, tensors: bool)
    requires split > 0
    ensures UnfoldColumns(cs, split, keys, tensors).Ok? <==> WidthsDivide(cs, split, keys)
  {
    if cs != [] {
      var n := |cs| - 1;
      UnfoldColumnsOkIff(cs[..n], split, keys, tensors);
      if WidthsDivide(cs[..n], split, keys) {
        assert WidthsDivide(cs, split, keys) <==> (cs[n].key in keys ==> Width(cs[n].value) % split == 0);
      } else {
        var k :| 0 <= k < n && cs[..n][k].key in keys && Width(cs[..n][k].value) % split != 0;
        assert cs[k] == cs[..n][k];
      }
    }
  }

  /** Unfolding succeeds exactly when it divides the width of every column that is to be split. */
  lemma UnfoldSucceedsIff<E, M>(d: DataProto<seq<E>, M>, split: nat, keys: seq<string>)
    requires split > 0
    ensures Unfold(d, split, Some(keys)).Ok?
       <==> WidthsDivide(d.tensors, split, keys) && WidthsDivide(d.others, split, keys)
  {
    UnfoldColumnsOkIff(d.tensors, split, keys, true);
    UnfoldColumnsOkIff(d.others, split, keys, false);
  }

  lemma RepeatedTraced<R>(c: seq<R>, k: nat, tensor: bool)
    ensures TracedColumn(c, Repeated(c, k, tensor), ByDivision(|c|, k))
  {
    TensorInterleaveTraced(c, k);
    NumpyRepeatTraced(c, k);
  }

  lemma {:induction false} UnfoldColumnsBlocks<E>(cs: Columns<seq<E>>, split: nat, keys: seq<string>, tensors: bool)
    requires split > 0 && UnfoldColumns(cs, split, keys, tensors).Ok? && Rectangular(cs, keys)
    ensures UnfoldedColumns(cs, UnfoldColumns(cs, split, keys, tensors).value, split, keys)
  {
    if cs != [] {
      var last := cs[|cs| - 1];
      UnfoldColumnsBlocks(cs[..|cs| - 1], split, keys, tensors);
      if last.key in keys {
        UnfoldColumnBlocks(last.value, split);
      } else {
        RepeatedTraced(last.value, split, tensors);
      }
    }
  }

  /** Split columns hold the blocks of every row one after the other, all other columns the row as often. */
  lemma UnfoldedRows<E, M>(d: DataProto<seq<E>, M>, split: nat, keys: seq<string>)
    requires split > 0 && Rectangular(d.tensors, keys) && Rectangular(d.others, keys)
    requires WidthsDivide(d.tensors, split, keys) && WidthsDivide(d.others, split, keys)
    ensures
      var r := Unfold(d, split, Some(keys));
      && r.Ok?
      && r.value.size == (if d.size.None? then None else Some(d.size.value * split)) && r.value.meta == d.meta
      && UnfoldedColumns(d.tensors, r.value.tensors, split, keys)
      && UnfoldedColumns(d.others, r.value.others, split, keys)
  {
    UnfoldSucceedsIff(d, split, keys);
    UnfoldColumnsBlocks(d.tensors, split, keys, true);
    UnfoldColumnsBlocks(d.others, split, keys, false);
  }

  /** Without split keys unfolding works iff there is no non-tensor key, and then it only repeats. */
  lemma UnfoldWithoutKeys<E, M>(d: DataProto<seq<E>, M>, split: nat)
    requires split > 0 && Valid(d)
    ensures Unfold(d, split, None) == if d.others == [] then Ok(Repeat(d, split, true)) else Err(NoSplitKeys)
  {
    NothingUnfolded(d.tensors, split, true);
    if d.others == [] {
      var r, t := Unfold(d, split, None).value, Repeat(d, split, true);
      assert forall k :: 0 <= k < |d.tensors| ==> r.tensors[k] == t.tensors[k];
      assert r.tensors == t.tensors && r.others == t.others == [];
      assert r == t;
    }
  }

  lemma {:induction false} NothingUnfolded<E>(cs: Columns<seq<E>>, split: nat, tensors: bool)
    requires split > 0
    ensures UnfoldColumns(cs, split, [], tensors).Ok? && |UnfoldColumns(cs, split, [], tensors).value| == |cs|
    ensures forall k :: 0 <= k < |cs| ==>
              UnfoldColumns(cs, split, [], tensors).value[k] == Entry(cs[k].key, Repeated(cs[k].value, split, tensors))
  {
    if cs != [] {
      NothingUnfolded(cs[..|cs| - 1], split, tensors);
    }
  }

  /** One non-tensor column is enough to make the documented default raise. */
  lemma OneNonTensorColumnFails<E, M>(key: string, rows: seq<seq<E>>, split: nat)
    requires split > 0
    ensures Unfold<E, M>(DataProto(None, [], [Entry(key, rows)], []), split, None) == Err(NoSplitKeys)
  {
    UnfoldWithoutKeys<E, M>(DataProto(None, [], [Entry(key, rows)], []), split);
  }

  // ---- chunk

  /** Piece `p` of a tensor's chunks. */
  function ChunkPiece<R>(c: seq<R>, chunks: nat, p: nat): seq<R>
    requires chunks > 0
  {
    if p < |Chunk(c, chunks)| then Chunk(c, chunks)[p] else []
  }

  /** Where section `p` begins when `np.array_split` makes the first `n % sections` sections one longer. */
  function SectionCut(n: nat, sections: nat, p: nat): nat
    requires sections > 0
  {
    DivNat(n, sections);
    p * (n / sections) + Min(p, n % sections)
  }

  lemma TensorPiece<R>(c: seq<R>, chunks: nat, p: nat)
    requires chunks > 0 && c != [] && p < |Chunk(c, chunks)|
    ensures
      var size := CeilDiv(|c|, chunks);
      && size > 0 && |Chunk(c, chunks)| == CeilDiv(|c|, size)
      && SizeCut(|c|, size, p) <= SizeCut(|c|, size, p + 1)
      && ChunkPiece(c, chunks, p) == PySlice(c, SizeCut(|c|, size, p), SizeCut(|c|, size, p + 1))
  {
    CeilDivPositive(|c|, chunks);
    var size := CeilDiv(|c|, chunks);
    ChunkCount(c, size);
    ChunkAt(c, size, p);
    MulPlusOne(p, size);
  }

  /** The running sums of the sizes of the batch's chunks. */
  method TensorPoints(n: nat, chunks: nat, emptyPieces: nat) returns (points: seq<nat>)
    requires chunks > 0
    ensures n == 0 ==> points == seq(emptyPieces + 1, _ => 0)
    ensures n > 0 ==>
              var size := CeilDiv(n, chunks);
              size > 0 && CeilDiv(n, size) > 0 && points == SizeCuts(n, size, CeilDiv(n, size))
  {
    if n == 0 {
      return seq(emptyPieces + 1, _ => 0);
    }
    var batch := Range(0, n);
    var pieces := Chunk(batch, chunks);
    ghost var size := CeilDiv(n, chunks);
    CeilDivPositive(n, chunks);
    CeilDivPositive(n, size);
    ChunkCount(batch, size);
    points := [0];
    assert 0 * size == 0;
    for p := 0 to |pieces|
      invariant points == SizeCuts(n, size, p)
    {
      TensorPiece(batch, chunks, p);
      PieceLength(batch, size, p, ChunkPiece(batch, chunks, p));
      points := points + [points[p] + |pieces[p]|];
    }
  }

  lemma PieceLength(c: seq<nat>, size: nat, p: nat, piece: seq<nat>)
    requires SizeCut(|c|, size, p) <= SizeCut(|c|, size, p + 1)
    requires piece == PySlice(c, SizeCut(|c|, size, p), SizeCut(|c|, size, p + 1))
    ensures |piece| == SizeCut(|c|, size, p + 1) - SizeCut(|c|, size, p)
  {
  }

  /** The running sums of `np.array_split`'s section sizes. */
  method SectionPoints(n: nat, sections: nat) returns (points: seq<nat>)
    requires sections > 0
    ensures |points| == sections + 1 && forall p :: 0 <= p <= sections ==> points[p] == SectionCut(n, sections, p)
  {
    DivNat(n, sections);
    var each: nat, extras: nat := n / sections, n % sections;
    points := [0];
    assert 0 * each == 0;
    for p := 0 to sections
      invariant |points| == p + 1 && forall q :: 0 <= q <= p ==> points[q] == SectionCut(n, sections, q)
    {
      MulPlusOne(p, each);
      points := points + [points[p] + (if p < extras then each + 1 else each)];
    }
  }

  lemma SectionCutsAreCuts(n: nat, sections: nat, points: seq<nat>)
    requires sections > 0 && |points| == sections + 1
    requires forall p :: 0 <= p <= sections ==> points[p] == SectionCut(n, sections, p)
    ensures Cuts(points, n)
  {
    DivNat(n, sections);
    var each: nat := n / sections;
    assert 0 * each == 0;
    assert n == sections * each + n % sections;
    forall p, q | 0 <= p <= q < |points| ensures points[p] <= points[q] {
      MulMonotone(p, q, each);
    }
  }

  /** Equal chunks: both ways of cutting give `n / chunks` rows to every part. */
  lemma EqualCuts(n: nat, chunks: nat, p: nat)
    requires chunks > 0 && n % chunks == 0 && p <= chunks
    ensures SectionCut(n, chunks, p) == p * (n / chunks)
    ensures CeilDiv(n, chunks) == n / chunks && SizeCut(n, n / chunks, p) == p * (n / chunks)
    ensures n > 0 ==> n / chunks > 0 && CeilDiv(n, n / chunks) == chunks
  {
    DivNat(n, chunks);
    ExactQuotient(n, chunks);
    var each: nat := n / chunks;
    assert n == each * chunks;
    DivExact(each, chunks);
    MulMonotone(p, chunks, each);
    if n > 0 {
      assert each > 0;
      DivExact(chunks, each);
    }
  }

  /** The cut points that the chunks of a batch must have. */
  ghost predicate PointsOk<R, M>(d: DataProto<R, M>, chunks: nat, points: seq<nat>)
    requires chunks > 0
  {
    && |points| == chunks + 1 && Cuts(points, Len(d))
    && (d.size.Some? && Len(d) > 0 ==>
          && CeilDiv(Len(d), chunks) > 0 && CeilDiv(Len(d), CeilDiv(Len(d), chunks)) == chunks
          && points == SizeCuts(Len(d), CeilDiv(Len(d), chunks), chunks))
  }

  /** Part `p`: chunk `p` of every tensor, the rows `lo .. hi - 1` of every other column. */
  function MakePart<R, M>(d: DataProto<R, M>, chunks: nat, p: nat, lo: nat, hi: nat): DataProto<R, M>
    requires chunks > 0 && lo <= hi
  {
    DataProto(
      if d.size.None? then None else Some(hi - lo),
      MapColumns(d.tensors, c => ChunkPiece(c, chunks, p)),
      MapColumns(d.others, c => PySlice(c, lo, hi)),
      d.meta)
  }

  lemma PartIsRows<R, M>(d: DataProto<R, M>, chunks: nat, points: seq<nat>, p: nat)
    requires Valid(d) && chunks > 0 && PointsOk(d, chunks, points) && p < chunks
    ensures points[p] <= points[p + 1] <= Len(d)
    ensures MakePart(d, chunks, p, points[p], points[p + 1]) == Rows(d, points[p], points[p + 1])
  {
    var a, b := points[p], points[p + 1];
    CutsAscend(points, Len(d), p + 1);
    forall k | 0 <= k < |d.tensors|
      ensures ChunkPiece(d.tensors[k].value, chunks, p) == PySlice(d.tensors[k].value, a, b)
    {
      var c := d.tensors[k].value;
      if c != [] {
        ChunkCount(c, CeilDiv(|c|, chunks));
        TensorPiece(c, chunks, p);
      }
    }
  }

  /** The closing loop: every part with its tensor and its non-tensor rows. */
  method MakeParts<R, M>(d: DataProto<R, M>, chunks: nat, points: seq<nat>) returns (parts: seq<DataProto<R, M>>)
    requires Valid(d) && chunks > 0 && PointsOk(d, chunks, points)
    ensures parts == Parts(d, points)
  {
    parts := [];
    for p := 0 to chunks
      invariant parts == Parts(d, points)[..p]
    {
      PartIsRows(d, chunks, points, p);
      TakeStep(Parts(d, points), p);
      parts := parts + [MakePart(d, chunks, p, points[p], points[p + 1])];
    }
  }

  /** Fewer chunks of the rounded-up size already hold all rows. */
  predicate TooFewChunks(n: nat, chunks: nat)
    requires chunks > 0
  {
    n <= (chunks - 1) * CeilDiv(n, chunks)
  }

  lemma ChunksOfTensor(n: nat, chunks: nat)
    requires n > 0 && chunks > 0
    ensures var size := CeilDiv(n, chunks); size > 0 && (CeilDiv(n, size) == chunks <==> !TooFewChunks(n, chunks))
    ensures n <= chunks * CeilDiv(n, chunks)
  {
    CeilDivPositive(n, chunks);
    var size := CeilDiv(n, chunks);
    CeilDivIsLeast(n, chunks, size);
    assert size * chunks == chunks * size;
    CeilDivIsLeast(n, size, chunks);
    CeilDivIsLeast(n, size, chunks - 1);
  }

  /** Whether the tensor dict falls into `chunks` pieces; extra pieces of no rows only matter to the other columns. */
  predicate PiecesMissing<R, M>(d: DataProto<R, M>, chunks: nat, emptyPieces: nat)
    requires chunks > 0
  {
    d.size.Some? &&
    if Len(d) > 0 then TooFewChunks(Len(d), chunks)
    else emptyPieces < chunks || (emptyPieces > chunks && d.others != [])
  }

  /** Five rows in four chunks: pieces of two rows, of which there are three only. */
  lemma FiveRowsInFourChunks<R, M>(d: DataProto<R, M>, emptyPieces: nat)
    requires Valid(d) && d.size == Some(5)
    ensures PiecesMissing(d, 4, emptyPieces)
    ensures forall k :: 0 <= k < |d.tensors| ==> |Chunk(d.tensors[k].value, 4)| == 3
  {
    assert CeilDiv(5, 4) == 2;
    forall k | 0 <= k < |d.tensors| ensures |Chunk(d.tensors[k].value, 4)| == 3 {
      ChunkCount(d.tensors[k].value, 2);
    }
  }

  /** The cut points of all parts, if there are enough pieces. */
  method ChunkPoints<R, M>(d: DataProto<R, M>, chunks: nat, emptyPieces: nat) returns (points: Option<seq<nat>>)
    requires Valid(d) && chunks > 0
    ensures points.None? <==> PiecesMissing(d, chunks, emptyPieces)
    ensures points.Some? ==> PointsOk(d, chunks, points.value)
    ensures points.Some? && d.size.None? ==>
              forall p :: 0 <= p <= chunks ==> points.value[p] == SectionCut(Len(d), chunks, p)
  {
    var n := Len(d);
    if d.size.None? {
      var sections := SectionPoints(n, chunks);
      SectionCutsAreCuts(n, chunks, sections);
      return Some(sections);
    }
    var sums := TensorPoints(n, chunks, emptyPieces);
    if n > 0 {
      ChunksOfTensor(n, chunks);
      CeilDivIsLeast(n, CeilDiv(n, chunks), chunks);
      SizeCutsAreCuts(n, CeilDiv(n, chunks), chunks);
    }
    if |sums| < chunks + 1 || (|sums| > chunks + 1 && d.others != []) {
      return None;
    }
    return Some(sums[..chunks + 1]);
  }

  /**
   The rows of part `p`. Tensors are cut into pieces of the rounded-up size while
   there are rows; without tensors the first `n % chunks` parts get one row more.
   */
  function PartRows(tensors: bool, n: nat, chunks: nat, p: nat): int
    requires chunks > 0
  {
    if tensors then
      var size := (n + chunks - 1) / chunks;
      if (p + 1) * size <= n then size else if p * size <= n then n - p * size else 0
    else
      n / chunks + if p < n % chunks then 1 else 0
  }

  lemma SectionRows(n: nat, chunks: nat, p: nat)
    requires chunks > 0
    ensures SectionCut(n, chunks, p + 1) - SectionCut(n, chunks, p) == PartRows(false, n, chunks, p)
  {
    DivNat(n, chunks);
    MulPlusOne(p, n / chunks);
  }

  lemma PieceRows(n: nat, chunks: nat, p: nat)
    requires chunks > 0
    ensures SizeCut(n, CeilDiv(n, chunks), p + 1) - SizeCut(n, CeilDiv(n, chunks), p) == PartRows(true, n, chunks, p)
  {
    DivNat(n + chunks - 1, chunks);
    CutBySize(n, CeilDiv(n, chunks), p);
  }

  lemma CutBySize(n: nat, size: nat, p: nat)
    ensures SizeCut(n, size, p + 1) - SizeCut(n, size, p)
         == if (p + 1) * size <= n then size else if p * size <= n then n - p * size else 0
  {
    MulPlusOne(p, size);
  }

  lemma LengthOfRows<R, M>(d: DataProto<R, M>, lo: nat, hi: nat)
    requires Valid(d) && lo <= hi <= Len(d)
    ensures Len(Rows(d, lo, hi)) == hi - lo
  {
  }

  lemma PartLength<R, M>(d: DataProto<R, M>, chunks: nat, points: seq<nat>, p: nat)
    requires Valid(d) && chunks > 0 && PointsOk(d, chunks, points) && p < chunks
    requires d.size.None? ==> forall q :: 0 <= q <= chunks ==> points[q] == SectionCut(Len(d), chunks, q)
    ensures Len(Parts(d, points)[p]) == PartRows(d.size.Some?, Len(d), chunks, p)
  {
    CutsAscend(points, Len(d), p + 1);
    LengthOfRows(d, points[p], points[p + 1]);
    if d.size.None? {
      SectionRows(Len(d), chunks, p);
    } else {
      PieceRows(Len(d), chunks, p);
    }
  }

  /**
   `DataProto.chunk`. Whenever it succeeds the parts are consecutive rows, cut
   at the same points in tensor and non-tensor columns, and join to the batch.
   Without padding it succeeds iff the rows divide equally; with padding it
   fails iff fewer chunks already hold all rows of the tensors. A tensor dict
   without rows falls into as many pieces as its library says.
   */
  method ChunkProto<R, M(==)>(d: DataProto<R, M>, chunks: nat, padding: bool, emptyPieces: nat)
    returns (r: Result<seq<DataProto<R, M>>, Error>)
    requires Valid(d) && chunks > 0
    ensures !padding && Len(d) % chunks != 0 ==> r == Err(UnequalChunk)
    ensures padding || Len(d) % chunks == 0 ==>
              (r.Err? <==> PiecesMissing(d, chunks, emptyPieces)) && (r.Err? ==> r.error == MissingChunk)
    ensures r.Ok? ==> |r.value| == chunks && AllAlike(r.value) && Joined(r.value) == Ok(d)
    ensures r.Ok? ==> forall p: nat :: p < chunks ==> Len(r.value[p]) == PartRows(d.size.Some?, Len(d), chunks, p)
    ensures Len(d) % chunks == 0 && Len(d) > 0 ==> r.Ok?
    ensures Len(d) % chunks == 0 && r.Ok? ==> EqualParts(d, chunks, r.value)
  {
    if !padding && Len(d) % chunks != 0 {
      return Err(UnequalChunk);
    }
    NotTooFew(Len(d), chunks);
    var points := ChunkPoints(d, chunks, emptyPieces);
    if points.None? {
      return Err(MissingChunk);
    }
    var parts := MakeParts(d, chunks, points.value);
    JoinRestoresParts(d, points.value);
    forall p: nat | p < chunks ensures Len(parts[p]) == PartRows(d.size.Some?, Len(d), chunks, p) {
      PartLength(d, chunks, points.value, p);
    }
    if Len(d) % chunks == 0 {
      PartsAreEqual(d, chunks, points.value);
    }
    return Ok(parts);
  }

  /** Part `p` holds the rows from `p * (n / chunks)` on, `n / chunks` of them. */
  ghost predicate EqualParts<R, M>(d: DataProto<R, M>, chunks: nat, parts: seq<DataProto<R, M>>)
    requires chunks > 0
  {
    && |parts| == chunks && 0 <= Len(d) / chunks
    && forall p: nat :: p < chunks ==> Traced(d, parts[p], BlockRange(p, Len(d) / chunks))
  }

  /** An equal division never runs out of rows. */
  lemma NotTooFew(n: nat, chunks: nat)
    requires chunks > 0
    ensures n > 0 && n % chunks == 0 ==> !TooFewChunks(n, chunks)
  {
    if n > 0 && n % chunks == 0 {
      EqualCuts(n, chunks, chunks);
      ChunksOfTensor(n, chunks);
    }
  }

  lemma PartsAreEqual<R, M>(d: DataProto<R, M>, chunks: nat, points: seq<nat>)
    requires Valid(d) && chunks > 0 && Len(d) % chunks == 0 && PointsOk(d, chunks, points)
    requires d.size.None? ==> forall p :: 0 <= p <= chunks ==> points[p] == SectionCut(Len(d), chunks, p)
    ensures EqualParts(d, chunks, Parts(d, points))
  {
    DivNat(Len(d), chunks);
    forall p: nat | p < chunks ensures Traced(d, Parts(d, points)[p], BlockRange(p, Len(d) / chunks)) {
      EqualPoints(d, chunks, points, p);
      RowsAreBlock(d, points[p], points[p + 1], p, Len(d) / chunks);
    }
  }

  lemma RowsAreBlock<R, M>(d: DataProto<R, M>, lo: nat, hi: nat, p: nat, size: nat)
    requires Valid(d) && lo == p * size && hi == lo + size <= Len(d)
    ensures Traced(d, Rows(d, lo, hi), BlockRange(p, size))
  {
    RowsTraced(d, lo, hi);
  }

  lemma EqualPoints<R, M>(d: DataProto<R, M>, chunks: nat, points: seq<nat>, p: nat)
    requires chunks > 0 && Len(d) % chunks == 0 && PointsOk(d, chunks, points) && p < chunks
    requires d.size.None? ==> forall q :: 0 <= q <= chunks ==> points[q] == SectionCut(Len(d), chunks, q)
    ensures 0 <= Len(d) / chunks && points[p] <= points[p + 1] <= Len(d)
    ensures points[p] == p * (Len(d) / chunks) && points[p + 1] == points[p] + Len(d) / chunks
  {
    DivNat(Len(d), chunks);
    EqualCuts(Len(d), chunks, p);
    EqualCuts(Len(d), chunks, p + 1);
    MulPlusOne(p, Len(d) / chunks);
    CutsAscend(points, Len(d), p + 1);
  }
}
