/**
 The meta of joined batches: the entries of all parts, each key once, in the
 order in which the keys first occur, or a conflict between two parts.
 */
module DataMeta {
  import opened Common
  import opened OrderedDict
  import opened DataRows

  // ---- all entries

  /** The meta entries of all parts, one part after the other. */
  function Metas<R, M>(parts: seq<DataProto<R, M>>): Dict<string, M> {
    if parts == [] then [] else Metas(parts[..|parts| - 1]) + parts[|parts| - 1].meta
  }

  predicate Agree<M(==)>(a: Entry<string, M>, b: Entry<string, M>) {
    a.key == b.key ==> a.value == b.value
  }

  ghost predicate Consistent<M>(all: Dict<string, M>) {
    forall i, j :: 0 <= i < |all| && 0 <= j < |all| ==> Agree(all[i], all[j])
  }

  /** `m` has every key of `all` once, with its value, in the order in which the keys first occur in `all`. */
  ghost predicate Collects<M>(all: Dict<string, M>, m: Dict<string, M>) {
    && DistinctKeys(m)
    && (forall i :: 0 <= i < |all| ==> HasKey(m, all[i].key) && Get(m, all[i].key) == all[i].value)
    && (forall i :: 0 <= i < |m| ==> HasKey(all, m[i].key))
    && (forall i, j :: 0 <= i < j < |m| ==> FirstBefore(all, m[i].key, m[j].key))
  }

  predicate FirstBefore<M>(all: Dict<string, M>, a: string, b: string) {
    HasKey(all, a) && HasKey(all, b) && Find(all, a) < Find(all, b)
  }

  lemma CollectsIsConsistent<M>(all: Dict<string, M>, m: Dict<string, M>)
    requires Collects(all, m)
    ensures Consistent(all)
  {
  }

  // ---- one more entry

  lemma {:induction false} FindAppend<M>(all: Dict<string, M>, e: Entry<string, M>, k: string)
    ensures HasKey(all + [e], k) <==> HasKey(all, k) || e.key == k
    ensures HasKey(all + [e], k) ==> Find(all + [e], k) == if HasKey(all, k) then Find(all, k) else |all|
  {
    var r := all + [e];
    assert r[|all|] == e && forall i :: 0 <= i < |all| ==> r[i] == all[i];
    if HasKey(r, k) {
      var i := Find(r, k);
      FindIsFirst(r, k);
      if HasKey(all, k) {
        FindIsFirst(all, k);
        assert r[Find(all, k)].key == k;
      }
    }
  }

  lemma {:induction false} FindIsFirst<M>(d: Dict<string, M>, k: string)
    requires HasKey(d, k)
    ensures forall i :: 0 <= i < Find(d, k) ==> d[i].key != k
    ensures forall i :: 0 <= i < |d| && d[i].key == k ==> Find(d, k) <= i
  {
    if d[0].key != k {
      var i :| 0 <= i < |d| && d[i].key == k;
      assert d[1..][i - 1].key == k;
      FindIsFirst(d[1..], k);
      forall i | 0 <= i < |d| && d[i].key == k ensures Find(d, k) <= i {
        assert d[1..][i - 1].key == k;
      }
      forall i | 0 <= i < Find(d, k) ensures d[i].key != k {
        if i > 0 {
          assert d[1..][i - 1].key != k;
        }
      }
    }
  }

  lemma FirstBeforeMore<M>(all: Dict<string, M>, e: Entry<string, M>, a: string, b: string)
    requires FirstBefore(all, a, b)
    ensures FirstBefore(all + [e], a, b)
  {
    FindAppend(all, e, a);
    FindAppend(all, e, b);
  }

  lemma FirstBeforeLast<M>(all: Dict<string, M>, e: Entry<string, M>, a: string)
    requires HasKey(all, a) && !HasKey(all, e.key)
    ensures FirstBefore(all + [e], a, e.key)
  {
    FindAppend(all, e, a);
    FindAppend(all, e, e.key);
  }

  /** An entry whose key is new comes last. */
  lemma CollectNew<M>(all: Dict<string, M>, m: Dict<string, M>, e: Entry<string, M>)
    requires Collects(all, m) && !HasKey(m, e.key)
    ensures Collects(all + [e], m + [e])
  {
    var all', m' := all + [e], m + [e];
    assert forall i :: 0 <= i < |all| ==> HasKey(m, all[i].key);
    forall i | 0 <= i < |all'| ensures HasKey(m', all'[i].key) && Get(m', all'[i].key) == all'[i].value {
      FindAppend(m, e, all'[i].key);
      assert i < |all| ==> all'[i] == all[i];
    }
    forall i | 0 <= i < |m'| ensures HasKey(all', m'[i].key) {
      FindAppend(all, e, m'[i].key);
      assert i < |m| ==> m'[i] == m[i];
    }
    forall i, j | 0 <= i < j < |m'| ensures FirstBefore(all', m'[i].key, m'[j].key) {
      if j < |m| {
        FirstBeforeMore(all, e, m[i].key, m[j].key);
      } else {
        FirstBeforeLast(all, e, m[i].key);
      }
    }
  }

  /** An entry that is there already, with its value, changes nothing. */
  lemma CollectAgain<M>(all: Dict<string, M>, m: Dict<string, M>, e: Entry<string, M>)
    requires Collects(all, m) && HasKey(m, e.key) && Get(m, e.key) == e.value
    ensures Collects(all + [e], m)
  {
    var all' := all + [e];
    forall i | 0 <= i < |all'| ensures HasKey(m, all'[i].key) && Get(m, all'[i].key) == all'[i].value {
      assert i < |all| ==> all'[i] == all[i];
    }
    forall i | 0 <= i < |m| ensures HasKey(all', m[i].key) {
      FindAppend(all, e, m[i].key);
    }
    forall i, j | 0 <= i < j < |m| ensures FirstBefore(all', m[i].key, m[j].key) {
      FirstBeforeMore(all, e, m[i].key, m[j].key);
    }
  }

  /** An entry with another value than before is a conflict. */
  lemma CollectConflict<M>(all: Dict<string, M>, m: Dict<string, M>, e: Entry<string, M>)
    requires Collects(all, m) && HasKey(m, e.key) && Get(m, e.key) != e.value
    ensures !Consistent(all + [e])
  {
    var all' := all + [e];
    var i := Find(m, e.key);
    assert HasKey(all, m[i].key);
    var j := Find(all, e.key);
    assert Get(m, all[j].key) == all[j].value;
    assert all'[j] == all[j] && all'[|all|] == e;
    assert !Agree(all'[j], all'[|all|]);
  }

  // ---- one more part

  lemma {:induction false} ConsistentPrefix<M>(a: Dict<string, M>, b: Dict<string, M>)
    requires Consistent(a + b)
    ensures Consistent(a)
  {
    forall i, j | 0 <= i < |a| && 0 <= j < |a| ensures Agree(a[i], a[j]) {
      assert (a + b)[i] == a[i] && (a + b)[j] == a[j];
    }
  }

  /** Merging a dict into collected entries collects its entries as well, or finds a conflict. */
  lemma {:induction false} MergeCollects<M>(all: Dict<string, M>, merged: Dict<string, M>, meta: Dict<string, M>)
    requires Collects(all, merged)
    ensures MergeMeta(merged, meta).Ok? <==> Consistent(all + meta)
    ensures MergeMeta(merged, meta).Ok? ==> Collects(all + meta, MergeMeta(merged, meta).value)
    ensures MergeMeta(merged, meta).Err? ==> MergeMeta(merged, meta) == Err(ConflictingMeta)
  {
    if meta == [] {
      assert all + meta == all;
      CollectsIsConsistent(all, merged);
    } else {
      var init, last := meta[..|meta| - 1], meta[|meta| - 1];
      MergeCollects(all, merged, init);
      assert all + meta == (all + init) + [last];
      var m := MergeMeta(merged, init);
      if m.Err? {
        if Consistent(all + meta) {
          ConsistentPrefix(all + init, [last]);
        }
      } else if !HasKey(m.value, last.key) {
        CollectNew(all + init, m.value, last);
        CollectsIsConsistent(all + meta, m.value + [last]);
      } else if Get(m.value, last.key) == last.value {
        CollectAgain(all + init, m.value, last);
        CollectsIsConsistent(all + meta, m.value);
      } else {
        CollectConflict(all + init, m.value, last);
      }
    }
  }

  lemma CollectsItself<M>(meta: Dict<string, M>)
    requires DistinctKeys(meta)
    ensures Collects(meta, meta)
  {
    forall i | 0 <= i < |meta| ensures HasKey(meta, meta[i].key) && Get(meta, meta[i].key) == meta[i].value {
      FindAt(meta, i);
    }
    forall i, j | 0 <= i < j < |meta| ensures FirstBefore(meta, meta[i].key, meta[j].key) {
      FindAt(meta, i);
      FindAt(meta, j);
    }
  }

  /** Joining collects the entries of all parts. */
  lemma {:induction false} JoinedCollects<R, M>(parts: seq<DataProto<R, M>>)
    requires parts != [] && AllAlike(parts) && forall p :: 0 <= p < |parts| ==> DistinctKeys(parts[p].meta)
    ensures Joined(parts).Ok? <==> Consistent(Metas(parts))
    ensures Joined(parts).Ok? ==> Collects(Metas(parts), Joined(parts).value.meta)
    ensures Joined(parts).Err? ==> Joined(parts) == Err(ConflictingMeta)
  {
    var n := |parts| - 1;
    if n == 0 {
      var none: Dict<string, M> := [];
      assert parts[..0] == [] && Metas(parts) == none + parts[0].meta == parts[0].meta;
      CollectsItself(parts[0].meta);
      CollectsIsConsistent(parts[0].meta, parts[0].meta);
    } else {
      JoinedCollects(parts[..n]);
      if Joined(parts[..n]).Ok? {
        MergeCollects(Metas(parts[..n]), Joined(parts[..n]).value.meta, parts[n].meta);
      } else if Consistent(Metas(parts)) {
        ConsistentPrefix(Metas(parts[..n]), parts[n].meta);
      }
    }
  }

  // ---- part by part

  /** Parts `p` and `q` give `k` different values. */
  predicate Conflict<R, M(==)>(parts: seq<DataProto<R, M>>, p: int, q: int, k: string) {
    && 0 <= p < |parts| && 0 <= q < |parts|
    && HasKey(parts[p].meta, k) && HasKey(parts[q].meta, k) && Get(parts[p].meta, k) != Get(parts[q].meta, k)
  }

  /** Entry `i` of all entries is an entry of some part. */
  lemma {:induction false} EntryOfPart<R, M>(parts: seq<DataProto<R, M>>, i: nat) returns (p: nat, e: nat)
    requires i < |Metas(parts)|
    ensures p < |parts| && e < |parts[p].meta| && parts[p].meta[e] == Metas(parts)[i]
  {
    var n := |parts| - 1;
    if i < |Metas(parts[..n])| {
      p, e := EntryOfPart(parts[..n], i);
    } else {
      p, e := n, i - |Metas(parts[..n])|;
    }
  }

  lemma {:induction false} PartOfEntries<R, M>(parts: seq<DataProto<R, M>>, p: nat, e: nat) returns (i: nat)
    requires p < |parts| && e < |parts[p].meta|
    ensures i < |Metas(parts)| && Metas(parts)[i] == parts[p].meta[e]
  {
    var n := |parts| - 1;
    if p < n {
      i := PartOfEntries(parts[..n], p, e);
    } else {
      i := |Metas(parts[..n])| + e;
    }
  }

  /** Entries that disagree are a conflict between their parts. */
  lemma ConflictFound<R, M>(parts: seq<DataProto<R, M>>, i: nat, j: nat)
    requires forall p :: 0 <= p < |parts| ==> DistinctKeys(parts[p].meta)
    requires i < |Metas(parts)| && j < |Metas(parts)| && !Agree(Metas(parts)[i], Metas(parts)[j])
    ensures exists p, q, k :: Conflict(parts, p, q, k)
  {
    var p, e := EntryOfPart(parts, i);
    var q, f := EntryOfPart(parts, j);
    FindAt(parts[p].meta, e);
    FindAt(parts[q].meta, f);
    assert Conflict(parts, p, q, Metas(parts)[i].key);
  }

  lemma NoConflict<R, M>(parts: seq<DataProto<R, M>>, p: int, q: int, k: string)
    requires Consistent(Metas(parts))
    ensures !Conflict(parts, p, q, k)
  {
    if 0 <= p < |parts| && 0 <= q < |parts| && HasKey(parts[p].meta, k) && HasKey(parts[q].meta, k) {
      var i := PartOfEntries(parts, p, Find(parts[p].meta, k));
      var j := PartOfEntries(parts, q, Find(parts[q].meta, k));
      assert Agree(Metas(parts)[i], Metas(parts)[j]);
    }
  }

  lemma {:induction false} ConflictIff<R, M>(parts: seq<DataProto<R, M>>)
    requires forall p :: 0 <= p < |parts| ==> DistinctKeys(parts[p].meta)
    ensures Consistent(Metas(parts)) <==> !exists p, q, k :: Conflict(parts, p, q, k)
  {
    forall i, j | 0 <= i < |Metas(parts)| && 0 <= j < |Metas(parts)|
      ensures Agree(Metas(parts)[i], Metas(parts)[j]) || exists p, q, k :: Conflict(parts, p, q, k)
    {
      if !Agree(Metas(parts)[i], Metas(parts)[j]) {
        ConflictFound(parts, i, j);
      }
    }
    if Consistent(Metas(parts)) {
      forall p, q, k ensures !Conflict(parts, p, q, k) {
        NoConflict(parts, p, q, k);
      }
    }
  }

  ghost predicate OfSomePart<R, M>(parts: seq<DataProto<R, M>>, k: string) {
    exists p :: 0 <= p < |parts| && HasKey(parts[p].meta, k)
  }

  /** `k` has in `meta` the value that part `p` gives it, if it gives it any. */
  predicate AsInPart<R, M(==)>(parts: seq<DataProto<R, M>>, meta: Dict<string, M>, p: int, k: string) {
    0 <= p < |parts| && HasKey(parts[p].meta, k) ==> HasKey(meta, k) && Get(meta, k) == Get(parts[p].meta, k)
  }

  /** The keys of all parts, each once, with the values of the parts, in the order in which the keys first occur. */
  ghost predicate Unites<R, M>(parts: seq<DataProto<R, M>>, meta: Dict<string, M>) {
    && DistinctKeys(meta)
    && (forall i :: 0 <= i < |meta| ==> OfSomePart(parts, meta[i].key))
    && (forall p, k :: AsInPart(parts, meta, p, k))
    && (forall i, j :: 0 <= i < j < |meta| ==> FirstBefore(Metas(parts), meta[i].key, meta[j].key))
  }

  lemma CollectedIsUnited<R, M>(parts: seq<DataProto<R, M>>, meta: Dict<string, M>)
    requires Collects(Metas(parts), meta)
    ensures Unites(parts, meta)
  {
    forall i | 0 <= i < |meta| ensures OfSomePart(parts, meta[i].key) {
      var p, e := EntryOfPart(parts, Find(Metas(parts), meta[i].key));
      assert HasKey(parts[p].meta, meta[i].key);
    }
    forall p, k ensures AsInPart(parts, meta, p, k) {
      if 0 <= p < |parts| && HasKey(parts[p].meta, k) {
        var i := PartOfEntries(parts, p, Find(parts[p].meta, k));
        assert HasKey(meta, Metas(parts)[i].key);
      }
    }
  }

  /**
   Joining parts with any meta fails exactly when two parts give one key
   different values. Otherwise the meta of the result has the keys of all parts,
   each once, with the value of every part that has it, in the order in which
   the keys first occur when the parts are read one after the other.
   */
  lemma JoinedMeta<R, M>(parts: seq<DataProto<R, M>>)
    requires parts != [] && AllAlike(parts) && forall p :: 0 <= p < |parts| ==> DistinctKeys(parts[p].meta)
    ensures Joined(parts) == Err(ConflictingMeta) <==> exists p, q, k :: Conflict(parts, p, q, k)
    ensures Joined(parts).Err? ==> Joined(parts) == Err(ConflictingMeta)
    ensures Joined(parts).Ok? ==> Unites(parts, Joined(parts).value.meta)
  {
    JoinedCollects(parts);
    ConflictIff(parts);
    if Joined(parts).Ok? {
      CollectedIsUnited(parts, Joined(parts).value.meta);
    }
  }
}
