/**
 A Python `dict` as the sequence of its entries in insertion order.
 Assigning to a key that is present keeps the key's position and replaces its
 value; assigning to a new key appends.
 */
module OrderedDict {

  datatype Entry<+K, +V> = Entry(key: K, value: V)

  type Dict<+K, +V> = seq<Entry<K, V>>

  predicate HasKey<K(==), V>(d: Dict<K, V>, k: K) {
    exists i :: 0 <= i < |d| && d[i].key == k
  }

  predicate DistinctKeys<K(==), V>(d: Dict<K, V>) {
    forall i, j :: 0 <= i < j < |d| ==> d[i].key != d[j].key
  }

  /** The position of a key. */
  function Find<K(==), V>(d: Dict<K, V>, k: K): (i: nat)
    requires HasKey(d, k)
    ensures i < |d| && d[i].key == k
  {
    if d[0].key == k then 0
    else
      assert HasKey(d[1..], k) by {
        var i :| 0 <= i < |d| && d[i].key == k;
        assert d[1..][i - 1].key == k;
      }
      Find(d[1..], k) + 1
  }

  /** `d[k]` */
  function Get<K(==), V>(d: Dict<K, V>, k: K): V
    requires HasKey(d, k)
  {
    d[Find(d, k)].value
  }

  /** `d[k] = v` */
  function Put<K(==), V>(d: Dict<K, V>, k: K, v: V): Dict<K, V> {
    if HasKey(d, k) then
      seq(|d|, i requires 0 <= i < |d| => if d[i].key == k then Entry(k, v) else d[i])
    else
      d + [Entry(k, v)]
  }

  lemma PutKeys<K, V>(d: Dict<K, V>, k: K, v: V, x: K)
    ensures HasKey(Put(d, k, v), x) <==> HasKey(d, x) || x == k
    ensures DistinctKeys(d) ==> DistinctKeys(Put(d, k, v))
  {
    var r := Put(d, k, v);
    assert forall i :: 0 <= i < |d| ==> r[i].key == d[i].key;
    if HasKey(d, x) {
      var i :| 0 <= i < |d| && d[i].key == x;
      assert r[i].key == x;
    }
    if x == k && !HasKey(d, k) {
      assert r[|d|].key == k;
    }
  }

  /** With distinct keys an entry is found where it is. */
  lemma FindAt<K, V>(d: Dict<K, V>, i: nat)
    requires DistinctKeys(d) && i < |d|
    ensures HasKey(d, d[i].key) && Find(d, d[i].key) == i && Get(d, d[i].key) == d[i].value
  {
    assert HasKey(d, d[i].key);
    var j := Find(d, d[i].key);
    assert d[j].key == d[i].key;
  }

  /** Lookups after an assignment. */
  lemma PutGet<K, V>(d: Dict<K, V>, k: K, v: V, x: K)
    requires DistinctKeys(d)
    ensures HasKey(Put(d, k, v), k) && Get(Put(d, k, v), k) == v
    ensures x != k && HasKey(d, x) ==> HasKey(Put(d, k, v), x) && Get(Put(d, k, v), x) == Get(d, x)
  {
    var r := Put(d, k, v);
    PutKeys(d, k, v, k);
    PutKeys(d, k, v, x);
    assert r[Find(r, k)].key == k;
    if x != k && HasKey(d, x) {
      FindAt(r, Find(d, x));
    }
  }

  /** The dict left by executing the assignments `items` in order. */
  function FromItems<K(==), V>(items: seq<Entry<K, V>>): Dict<K, V> {
    if items == [] then []
    else
      var last := items[|items| - 1];
      Put(FromItems(items[..|items| - 1]), last.key, last.value)
  }

  lemma {:induction false} FromItemsKeys<K, V>(items: seq<Entry<K, V>>, k: K)
    ensures DistinctKeys(FromItems(items))
    ensures HasKey(FromItems(items), k) <==> HasKey(items, k)
  {
    if items != [] {
      var init, last := items[..|items| - 1], items[|items| - 1];
      FromItemsKeys(init, k);
      FromItemsKeys(init, last.key);
      assert items == init + [last];
      PutKeys(FromItems(init), last.key, last.value, k);
      if HasKey(init, k) {
        var i :| 0 <= i < |init| && init[i].key == k;
        assert items[i].key == k;
      }
      assert items[|items| - 1].key == last.key;
    }
  }

  /** A dict built from assignments repeats them exactly when no key was assigned twice. */
  lemma {:induction false} FromItemsIsIdentity<K, V>(items: seq<Entry<K, V>>)
    ensures FromItems(items) == items <==> DistinctKeys(items)
    ensures |FromItems(items)| <= |items|
    ensures FromItems(items) != items ==> |FromItems(items)| < |items|
  {
    if items != [] {
      var init, last := items[..|items| - 1], items[|items| - 1];
      FromItemsIsIdentity(init);
      FromItemsKeys(init, last.key);
      assert items == init + [last];
      assert DistinctKeys(items) <==> DistinctKeys(init) && !HasKey(init, last.key) by {
        if HasKey(init, last.key) {
          var i :| 0 <= i < |init| && init[i].key == last.key;
          assert items[i].key == items[|items| - 1].key;
        }
      }
    }
  }
}
