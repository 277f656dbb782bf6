/**
 Ordering the micro-batches of every data-parallel rank for pipeline
 parallelism: sorted by workload, then every second one from the front and the
 others backwards from the end.
 */
module PipelineOrder {
  import opened Common

  // ---- sorting by workload, then index

  predicate InRange(s: seq<nat>, n: nat) {
    forall i :: 0 <= i < |s| ==> s[i] < n
  }

  /** `(work[x], x) <= (work[y], y)` */
  predicate Before(work: seq<real>, x: nat, y: nat)
    requires x < |work| && y < |work|
  {
    work[x] < work[y] || (work[x] == work[y] && x <= y)
  }

  predicate SortedBy(work: seq<real>, s: seq<nat>)
    requires InRange(s, |work|)
  {
    forall i, j :: 0 <= i < j < |s| ==> Before(work, s[i], s[j])
  }

  function Insert(work: seq<real>, s: seq<nat>, x: nat): (r: seq<nat>)
    requires x < |work| && InRange(s, |work|)
    ensures InRange(r, |work|)
  {
    if s == [] || Before(work, s[|s| - 1], x) then s + [x] else Insert(work, s[..|s| - 1], x) + [s[|s| - 1]]
  }

  /** `partition.sort(key=...)`: the key makes the result unique, whatever the algorithm. */
  function Sort(work: seq<real>, s: seq<nat>): (r: seq<nat>)
    requires InRange(s, |work|)
    ensures InRange(r, |work|)
  {
    if s == [] then [] else Insert(work, Sort(work, s[..|s| - 1]), s[|s| - 1])
  }

  lemma {:induction false} InsertMultiset(work: seq<real>, s: seq<nat>, x: nat)
    requires x < |work| && InRange(s, |work|)
    ensures multiset(Insert(work, s, x)) == multiset(s) + multiset{x}
  {
    if s != [] && !Before(work, s[|s| - 1], x) {
      InsertMultiset(work, s[..|s| - 1], x);
      assert s == s[..|s| - 1] + [s[|s| - 1]];
    }
  }

  lemma InsertElements(work: seq<real>, s: seq<nat>, x: nat, i: nat)
    requires x < |work| && InRange(s, |work|) && i < |Insert(work, s, x)|
    ensures Insert(work, s, x)[i] == x || Insert(work, s, x)[i] in s
  {
    InsertMultiset(work, s, x);
    assert Insert(work, s, x)[i] in multiset(s) + multiset{x};
  }

  lemma {:induction false} InsertSorts(work: seq<real>, s: seq<nat>, x: nat)
    requires x < |work| && InRange(s, |work|) && SortedBy(work, s)
    ensures SortedBy(work, Insert(work, s, x))
  {
    if s != [] && !Before(work, s[|s| - 1], x) {
      var init, last := s[..|s| - 1], s[|s| - 1];
      InsertSorts(work, init, x);
      var r := Insert(work, init, x);
      forall i | 0 <= i < |r| ensures Before(work, r[i], last) {
        InsertElements(work, init, x, i);
      }
    }
  }

  lemma {:induction false} SortSorts(work: seq<real>, s: seq<nat>)
    requires InRange(s, |work|)
    ensures SortedBy(work, Sort(work, s)) && multiset(Sort(work, s)) == multiset(s)
  {
    if s != [] {
      var init := s[..|s| - 1];
      SortSorts(work, init);
      InsertSorts(work, Sort(work, init), s[|s| - 1]);
      InsertMultiset(work, Sort(work, init), s[|s| - 1]);
      assert s == init + [s[|s| - 1]];
    }
  }

  /** Sorted permutations of the same indices are equal. */
  lemma {:induction false} SortedIsUnique(work: seq<real>, a: seq<nat>, b: seq<nat>)
    requires InRange(a, |work|) && InRange(b, |work|)
    requires SortedBy(work, a) && SortedBy(work, b) && multiset(a) == multiset(b)
    ensures a == b
  {
    SameLength(a, b);
    if a != [] {
      LastAgrees(work, a, b);
      DropLast(a);
      DropLast(b);
      SortedIsUnique(work, a[..|a| - 1], b[..|a| - 1]);
      assert a == a[..|a| - 1] + [a[|a| - 1]];
      assert b == b[..|a| - 1] + [b[|a| - 1]];
    }
  }

  lemma SameLength(a: seq<nat>, b: seq<nat>)
    requires multiset(a) == multiset(b)
    ensures |a| == |b|
  {
    assert |multiset(a)| == |a| && |multiset(b)| == |b|;
  }

  lemma LastAgrees(work: seq<real>, a: seq<nat>, b: seq<nat>)
    requires InRange(a, |work|) && InRange(b, |work|) && a != [] && b != []
    requires SortedBy(work, a) && SortedBy(work, b) && multiset(a) == multiset(b)
    ensures a[|a| - 1] == b[|b| - 1]
  {
    LastIsLargest(work, a, b);
    LastIsLargest(work, b, a);
  }

  lemma DropLast(a: seq<nat>)
    requires a != []
    ensures multiset(a[..|a| - 1]) == multiset(a) - multiset{a[|a| - 1]}
  {
    assert a == a[..|a| - 1] + [a[|a| - 1]];
  }

  lemma LastIsLargest(work: seq<real>, a: seq<nat>, b: seq<nat>)
    requires InRange(a, |work|) && InRange(b, |work|) && a != [] && b != []
    requires SortedBy(work, b) && multiset(a) == multiset(b)
    ensures Before(work, a[|a| - 1], b[|b| - 1])
  {
    assert a[|a| - 1] in multiset(b);
    assert a[|a| - 1] in b;
  }

  // ---- the two-ended order

  /** `s[::2]` */
  function EverySecond(s: seq<nat>): seq<nat> {
    if |s| <= 1 then s else [s[0]] + EverySecond(s[2..])
  }

  function Reverse(s: seq<nat>): seq<nat> {
    if s == [] then [] else Reverse(s[1..]) + [s[0]]
  }

  /** `s[::2] + s[1::2][::-1]` */
  function TwoEnded(s: seq<nat>): seq<nat> {
    EverySecond(s) + Reverse(EverySecond(if s == [] then [] else s[1..]))
  }

  function Ordered(work: seq<real>, partition: seq<nat>): seq<nat>
    requires InRange(partition, |work|)
  {
    TwoEnded(Sort(work, partition))
  }

  /** The trainer's loop: every partition is sorted and replaced by its two-ended order. */
  method OrderPartitions(lst: seq<seq<nat>>, work: seq<real>) returns (r: seq<seq<nat>>)
    requires forall k :: 0 <= k < |lst| ==> InRange(lst[k], |work|)
    ensures |r| == |lst| && forall k :: 0 <= k < |lst| ==> r[k] == Ordered(work, lst[k])
  {
    r := lst;
    for idx := 0 to |lst|
      invariant |r| == |lst|
      invariant forall k :: 0 <= k < idx ==> r[k] == Ordered(work, lst[k])
      invariant forall k :: idx <= k < |lst| ==> r[k] == lst[k]
    {
      var partition := Sort(work, r[idx]);
      var odd := if partition == [] then [] else partition[1..];
      var ordered := EverySecond(partition) + Reverse(EverySecond(odd));
      r := r[idx := ordered];
    }
  }

  lemma {:induction false} EverySecondAt(s: seq<nat>)
    ensures |EverySecond(s)| == (|s| + 1) / 2
    ensures forall k :: 0 <= k < |EverySecond(s)| ==> EverySecond(s)[k] == s[2 * k]
    decreases |s|
  {
    if |s| > 1 {
      EverySecondAt(s[2..]);
      var rest := EverySecond(s[2..]);
      forall k | 0 < k < |EverySecond(s)| ensures EverySecond(s)[k] == s[2 * k] {
        assert rest[k - 1] == s[2..][2 * (k - 1)];
      }
    }
  }

  lemma {:induction false} ReverseAt(s: seq<nat>)
    ensures |Reverse(s)| == |s| && forall k :: 0 <= k < |s| ==> Reverse(s)[k] == s[|s| - 1 - k]
  {
    if s != [] {
      ReverseAt(s[1..]);
    }
  }

  /** The entry of the sorted list that position `i` holds. */
  function Rank(n: nat, i: nat): int {
    if 2 * i < n then 2 * i else 2 * (n - 1 - i) + 1
  }

  /** Position `k` from the front holds entry `2k`, position `k` from the end entry `2k + 1`. */
  lemma TwoEndedAt(s: seq<nat>, i: nat)
    requires i < |s|
    ensures |TwoEnded(s)| == |s|
    ensures 0 <= Rank(|s|, i) < |s| && TwoEnded(s)[i] == s[Rank(|s|, i)]
  {
    var odd := s[1..];
    EverySecondAt(s);
    EverySecondAt(odd);
    ReverseAt(EverySecond(odd));
    if 2 * i >= |s| {
      var k := |s| - 1 - i;
      assert TwoEnded(s)[i] == Reverse(EverySecond(odd))[i - |EverySecond(s)|] == EverySecond(odd)[k] == odd[2 * k];
    }
  }

  lemma {:induction false} EverySecondMultiset(s: seq<nat>)
    requires s != []
    ensures multiset(EverySecond(s)) + multiset(EverySecond(s[1..])) == multiset(s)
    decreases |s|
  {
    if |s| == 1 {
      assert s[1..] == [];
    } else {
      assert s == [s[0]] + s[1..];
      assert EverySecond(s) == [s[0]] + EverySecond(s[2..]);
      EverySecondMultiset(s[1..]);
      assert s[1..][1..] == s[2..];
    }
  }

  lemma {:induction false} ReverseMultiset(s: seq<nat>)
    ensures multiset(Reverse(s)) == multiset(s)
  {
    if s != [] {
      ReverseMultiset(s[1..]);
      assert s == [s[0]] + s[1..];
    }
  }

  lemma TwoEndedMultiset(s: seq<nat>)
    ensures multiset(TwoEnded(s)) == multiset(s)
  {
    if s != [] {
      EverySecondMultiset(s);
      ReverseMultiset(EverySecond(s[1..]));
    }
  }

  // ---- what the order is good for

  /** The new order is a permutation, and depends only on which indices the partition has. */
  lemma OrderedIsPermutation(work: seq<real>, p: seq<nat>)
    requires InRange(p, |work|)
    ensures multiset(Ordered(work, p)) == multiset(p)
    ensures |Ordered(work, p)| == |p| && InRange(Ordered(work, p), |work|)
  {
    SortSorts(work, p);
    TwoEndedMultiset(Sort(work, p));
    var r := Ordered(work, p);
    assert |multiset(r)| == |r| && |multiset(p)| == |p|;
    forall i | 0 <= i < |r| ensures r[i] < |work| {
      assert r[i] in multiset(p);
      assert r[i] in p;
    }
  }

  lemma OrderIgnoresInputOrder(work: seq<real>, p: seq<nat>, q: seq<nat>)
    requires InRange(p, |work|) && InRange(q, |work|) && multiset(p) == multiset(q)
    ensures Ordered(work, p) == Ordered(work, q)
  {
    SortSorts(work, p);
    SortSorts(work, q);
    SortedIsUnique(work, Sort(work, p), Sort(work, q));
  }

  /** Workloads rise up to the middle position and fall after it. */
  lemma RisesThenFalls(work: seq<real>, p: seq<nat>, i: nat, j: nat)
    requires InRange(p, |work|) && i < j < |p|
    ensures |Ordered(work, p)| == |p| && InRange(Ordered(work, p), |work|)
    ensures j <= |p| / 2 ==> work[Ordered(work, p)[i]] <= work[Ordered(work, p)[j]]
    ensures |p| / 2 <= i ==> work[Ordered(work, p)[i]] >= work[Ordered(work, p)[j]]
  {
    EndEntry(work, p, i, j);
    EndEntry(work, p, j, i);
  }

  /**
   The two sequences of least work stand at the two ends, the least in front, and
   so on inwards. Of two sequences of equal work the one of smaller index counts
   as less.
   */
  lemma EndsInwards(work: seq<real>, p: seq<nat>, k: nat)
    requires InRange(p, |work|) && 2 * k + 1 < |p|
    ensures |Ordered(work, p)| == |p| && InRange(Ordered(work, p), |work|)
    ensures
      var front, back := Ordered(work, p)[k], Ordered(work, p)[|p| - 1 - k];
      && work[front] <= work[back] && (work[front] == work[back] ==> front <= back)
      && forall i :: k < i < |p| - 1 - k ==>
           var x := Ordered(work, p)[i];
           work[back] <= work[x] && (work[back] == work[x] ==> back <= x)
  {
    OrderedIsPermutation(work, p);
    EndEntry(work, p, k, |p| - 1 - k);
    forall i | k < i < |p| - 1 - k ensures Before(work, Ordered(work, p)[|p| - 1 - k], Ordered(work, p)[i]) {
      EndEntry(work, p, |p| - 1 - k, i);
    }
  }

  /** Which of two positions holds the smaller workload: the one that is nearer to an end, the front on a tie. */
  lemma EndEntry(work: seq<real>, p: seq<nat>, i: nat, j: nat)
    requires InRange(p, |work|) && i < |p| && j < |p|
    ensures |Ordered(work, p)| == |p| && InRange(Ordered(work, p), |work|)
    ensures Rank(|p|, i) <= Rank(|p|, j) ==> Before(work, Ordered(work, p)[i], Ordered(work, p)[j])
  {
    OrderedIsPermutation(work, p);
    SortSorts(work, p);
    var s := Sort(work, p);
    assert |multiset(s)| == |s| && |multiset(p)| == |p|;
    TwoEndedAt(s, i);
    TwoEndedAt(s, j);
    if Rank(|s|, i) <= Rank(|s|, j) {
      SortedWork(work, s, Rank(|s|, i), Rank(|s|, j));
    }
  }

  lemma SortedWork(work: seq<real>, s: seq<nat>, i: nat, j: nat)
    requires InRange(s, |work|) && SortedBy(work, s) && i <= j < |s|
    ensures Before(work, s[i], s[j])
  {
    assert i < j ==> Before(work, s[i], s[j]);
  }

  /** The index list of the batch still names every sequence as often as the partitions did. */
  lemma {:induction false} GlobalOrderIsPermutation(work: seq<real>, lst: seq<seq<nat>>, r: seq<seq<nat>>)
    requires forall k :: 0 <= k < |lst| ==> InRange(lst[k], |work|)
    requires |r| == |lst| && forall k :: 0 <= k < |lst| ==> r[k] == Ordered(work, lst[k])
    ensures multiset(Concat(r)) == multiset(Concat(lst))
  {
    if lst != [] {
      OrderedIsPermutation(work, lst[0]);
      GlobalOrderIsPermutation(work, lst[1..], r[1..]);
    }
  }
}
