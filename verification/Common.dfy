/**
 Definitions shared by the models: optional values, results that carry the
 exception the source raises instead, concatenation of a list of lists, and the
 elementary facts about parts of sequences that the models use. The facts are
 generic in the element type, so that a model of bytes, rows or cells can refer
 to them without the solver looking into the elements. A field is a string up
 to its first separator, as in dotted parameter names and numbered file names.
 */
module Common {

  datatype Option<+T> = None | Some(value: T)

  /** A value, or the exception the source raises instead. */
  datatype Result<+T, +E> = Ok(value: T) | Err(error: E)

  function Concat<T>(ss: seq<seq<T>>): seq<T> {
    if ss == [] then [] else ss[0] + Concat(ss[1..])
  }

  lemma {:induction false} ConcatAppend<T>(ss: seq<seq<T>>, s: seq<T>)
    ensures Concat(ss + [s]) == Concat(ss) + s
  {
    if ss != [] {
      ConcatAppend(ss[1..], s);
      assert (ss + [s])[1..] == ss[1..] + [s];
    }
  }

  lemma {:induction false} ConcatSum<T>(a: seq<seq<T>>, b: seq<seq<T>>)
    ensures Concat(a + b) == Concat(a) + Concat(b)
  {
    if a == [] {
      assert a + b == b;
    } else {
      ConcatSum(a[1..], b);
      assert (a + b)[1..] == a[1..] + b && (a + b)[0] == a[0];
      SumAssoc(a[0], Concat(a[1..]), Concat(b));
    }
  }

  lemma ConcatHead<T>(ss: seq<seq<T>>)
    requires ss != []
    ensures ss[0] <= Concat(ss)
  {
  }

  lemma {:induction false} ConcatMember<T>(ss: seq<seq<T>>, k: nat, i: nat)
    requires k < |ss| && i < |ss[k]|
    ensures ss[k][i] in Concat(ss)
  {
    if k > 0 {
      ConcatMember(ss[1..], k - 1, i);
    }
  }

  // ---- parts of sequences

  /** A part of a whole that lies inside a prefix of it is a part of the prefix. */
  lemma PartOfPrefix<T>(pre: seq<T>, mid: seq<T>, rest: seq<T>, first: seq<T>)
    requires first <= pre + mid + rest && |first| >= |pre| + |mid|
    ensures exists tail :: first == pre + mid + tail
  {
    var tail := first[|pre| + |mid|..];
    assert first == (pre + mid + rest)[..|first|];
    assert first == pre + mid + tail;
  }

  lemma PrefixOfSum<T>(a: seq<T>, b: seq<T>, whole: seq<T>)
    requires a + b <= whole
    ensures a <= whole
  {
    assert whole[..|a|] == (a + b)[..|a|];
  }

  lemma PartOfSum<T>(a: seq<T>, n: nat, b: seq<T>, whole: seq<T>)
    requires |a| == n && a + b <= whole
    ensures n + |b| <= |whole| && whole[n..n + |b|] == b
  {
    assert whole[n..n + |b|] == (a + b)[n..];
  }

  /** Overwriting what follows a prefix extends the prefix. */
  lemma OverwriteExtends<T>(a: seq<T>, b: seq<T>, whole: seq<T>, whole': seq<T>)
    requires a <= whole && |a| + |b| <= |whole|
    requires whole' == whole[..|a|] + b + whole[|a| + |b|..]
    ensures a + b <= whole'
  {
    assert whole[..|a|] == a;
    assert whole'[..|a| + |b|] == a + b;
  }

  /** Taking the same prefix off both sides. */
  lemma CancelPrefix<T>(a: seq<T>, more: seq<T>, rest: seq<T>, b: seq<T>)
    requires (a + more) + rest == a + b
    ensures b == more + rest
  {
    assert b == (a + b)[|a|..];
    assert more + rest == ((a + more) + rest)[|a|..];
  }

  /** Taking the same suffix off both sides. */
  lemma CancelSuffix<T>(shipped: seq<T>, cur: seq<T>, rest: seq<T>, all: seq<T>, i: nat)
    requires i <= |all| && rest == all[i..] && shipped + (cur + rest) == all
    ensures shipped + cur == all[..i]
  {
    SumAssoc(shipped, cur, rest);
    assert |shipped + cur| == i;
    assert all[..i] == ((shipped + cur) + rest)[..i];
  }

  lemma TakeStep<T>(s: seq<T>, k: nat)
    requires k < |s|
    ensures s[..k + 1] == s[..k] + [s[k]]
  {
  }

  lemma DropStep<T>(s: seq<T>, k: nat)
    requires k < |s|
    ensures s[k..] != [] && s[k..][0] == s[k] && s[k..][1..] == s[k + 1..]
  {
  }

  /** Taking a head off both sides that lies inside the first part. */
  lemma DropHead<T>(head: seq<T>, tail: seq<T>, pre: seq<T>, rest: seq<T>)
    requires head + tail == pre + rest && |head| <= |pre|
    ensures tail == pre[|head|..] + rest
  {
    assert tail == (head + tail)[|head|..];
    assert (pre + rest)[|head|..] == pre[|head|..] + rest;
  }

  lemma RestOfSum<T>(head: seq<T>, tail: seq<T>, pre: seq<T>, rest: seq<T>)
    requires head + tail == pre + rest && |head| <= |pre| && rest != []
    ensures tail == pre[|head|..] + ([rest[0]] + rest[1..])
  {
    DropHead(head, tail, pre, rest);
    assert [rest[0]] + rest[1..] == rest;
  }

  lemma SumAssoc<T>(a: seq<T>, b: seq<T>, c: seq<T>)
    ensures a + b + c == a + (b + c)
  {
  }

  lemma MoveFirst<T>(a: seq<T>, b: seq<T>)
    requires b != []
    ensures a + [b[0]] + b[1..] == a + b
  {
  }

  lemma DropPrefix<T>(prefix: seq<T>, x: seq<T>, y: seq<T>)
    requires prefix + x == prefix + y
    ensures x == y
  {
    assert x == (prefix + x)[|prefix|..] && y == (prefix + y)[|prefix|..];
  }

  // ---- the first separator of a string

  function Field(head: string, c: char, rest: string): string { head + [c] + rest }

  lemma FirstSeparator(a: string, x: string, b: string, y: string, c: char)
    requires c !in b
    ensures Field(a, c, x) == Field(b, c, y) ==> |a| >= |b|
  {
    if |a| < |b| {
      assert Field(a, c, x)[|a|] == c && Field(b, c, y)[|a|] == b[|a|];
    }
  }

  lemma FieldInjective(a: string, x: string, b: string, y: string, c: char)
    requires c !in a && c !in b && Field(a, c, x) == Field(b, c, y)
    ensures a == b && x == y
  {
    FirstSeparator(a, x, b, y, c);
    FirstSeparator(b, y, a, x, c);
    var s := Field(a, c, x);
    assert a == s[..|a|] && x == s[|a| + 1..] && b == s[..|b|] && y == s[|b| + 1..];
  }

  lemma {:induction false} MemberOfConcat<T>(ss: seq<seq<T>>, x: T)
    requires x in Concat(ss)
    ensures exists k :: 0 <= k < |ss| && x in ss[k]
  {
    if x !in ss[0] {
      MemberOfConcat(ss[1..], x);
      var k :| 0 <= k < |ss[1..]| && x in ss[1..][k];
      assert ss[1..][k] == ss[k + 1];
    }
  }
}
