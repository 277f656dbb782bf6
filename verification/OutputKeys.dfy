/**
 The transfer-queue key of an agent-loop output, `{uid}_{session_id}_{index}`:
 how it is printed and how it is taken apart again from the right.
 */
module OutputKeys {
  import opened Common

  // ---- decimal numbers

  function Digit(d: nat): char
    requires d < 10
  {
    '0' + d as char
  }

  function Decimal(n: nat): (s: string)
    ensures |s| > 0 && forall i :: 0 <= i < |s| ==> '0' <= s[i] <= '9'
  {
    if n < 10 then [Digit(n)] else Decimal(n / 10) + [Digit(n % 10)]
  }

  predicate AllDigits(s: string) {
    |s| > 0 && forall i :: 0 <= i < |s| ==> '0' <= s[i] <= '9'
  }

  function DigitsValue(s: string): nat
    requires forall i :: 0 <= i < |s| ==> '0' <= s[i] <= '9'
  {
    if s == [] then 0 else DigitsValue(s[..|s| - 1]) * 10 + (s[|s| - 1] - '0') as nat
  }

  /** `int(s)` for ASCII digits with an optional sign; None is the ValueError. */
  function ParseInt(s: string): Option<int> {
    if AllDigits(s) then Some(DigitsValue(s))
    else if |s| > 1 && s[0] == '+' && AllDigits(s[1..]) then Some(DigitsValue(s[1..]))
    else if |s| > 1 && s[0] == '-' && AllDigits(s[1..]) then (var v: int := DigitsValue(s[1..]); Some(-v))
    else None
  }

  lemma {:induction false} DecimalValue(n: nat)
    ensures DigitsValue(Decimal(n)) == n
  {
    if n < 10 {
      assert Decimal(n)[..0] == [];
    } else {
      DecimalValue(n / 10);
      assert Decimal(n)[..|Decimal(n)| - 1] == Decimal(n / 10);
    }
  }

  /** The printer and the parser are inverse. */
  lemma ParseDecimal(n: nat)
    ensures ParseInt(Decimal(n)) == Some(n)
  {
    DecimalValue(n);
  }

  // ---- splitting from the right

  /** The position of the last `c`, or -1. */
  function LastIndex(s: string, c: char): (i: int)
    ensures -1 <= i < |s|
    ensures i >= 0 ==> s[i] == c
    ensures forall j :: i < j < |s| ==> s[j] != c
  {
    if s == [] then -1
    else if s[|s| - 1] == c then |s| - 1
    else LastIndex(s[..|s| - 1], c)
  }

  /** `s.rsplit(c, n)` */
  function RSplit(s: string, c: char, n: nat): (fields: seq<string>)
    ensures 1 <= |fields| <= n + 1
    decreases n
  {
    var i := LastIndex(s, c);
    if n == 0 || i < 0 then [s]
    else RSplit(s[..i], c, n - 1) + [s[i + 1..]]
  }

  lemma {:induction false} LastIndexOfAppend(a: string, b: string, c: char)
    requires c !in b
    ensures LastIndex(a + [c] + b, c) == |a|
    decreases |b|
  {
    var s := a + [c] + b;
    if b == [] {
      assert s[|s| - 1] == c;
    } else {
      var init := b[..|b| - 1];
      assert s[..|s| - 1] == a + [c] + init;
      assert s[|s| - 1] == b[|b| - 1];
      LastIndexOfAppend(a, init, c);
    }
  }

  /** Splitting off a field that was joined with the separator. */
  lemma RSplitJoin(a: string, b: string, c: char, n: nat)
    requires c !in b && n > 0
    ensures RSplit(a + [c] + b, c, n) == RSplit(a, c, n - 1) + [b]
  {
    LastIndexOfAppend(a, b, c);
    var s := a + [c] + b;
    assert s[..|a|] == a && s[|a| + 1..] == b;
  }

  // ---- output keys

  function SessionKey(uid: string, session: string): string {
    uid + ['_'] + session
  }

  function OutputKey(uid: string, session: nat, index: nat): string {
    SessionKey(uid, Decimal(session)) + ['_'] + Decimal(index)
  }

  /** What the advantage code reads off a key: the session key and the output's index. */
  datatype Parsed = Parsed(session: string, index: int)

  datatype KeyError = UnexpectedKeyFormat | InvalidIndex

  function ParseKey(key: string): Result<Parsed, KeyError> {
    var fields := RSplit(key, '_', 2);
    if |fields| != 3 then Err(UnexpectedKeyFormat)
    else
      var index := ParseInt(fields[2]);
      if index.None? then Err(InvalidIndex)
      else Ok(Parsed(SessionKey(fields[0], fields[1]), index.value))
  }

  lemma SplitOutputKey(uid: string, s: string, i: string)
    requires '_' !in s && '_' !in i
    ensures RSplit(SessionKey(uid, s) + ['_'] + i, '_', 2) == [uid, s, i]
  {
    RSplitJoin(SessionKey(uid, s), i, '_', 2);
    RSplitJoin(uid, s, '_', 1);
  }

  /** The parser recovers session and index for every uid, including ones with underscores. */
  lemma ParseOutputKey(uid: string, session: nat, index: nat)
    ensures ParseKey(OutputKey(uid, session, index)) == Ok(Parsed(SessionKey(uid, Decimal(session)), index))
  {
    SplitOutputKey(uid, Decimal(session), Decimal(index));
    ParseDecimal(index);
  }

  /** Signs are accepted in front of digits. */
  lemma ParseSigned(n: nat)
    ensures ParseInt("-" + Decimal(n)) == (var v: int := n; Some(-v))
    ensures ParseInt("+" + Decimal(n)) == Some(n)
  {
    DecimalValue(n);
    var m, p := "-" + Decimal(n), "+" + Decimal(n);
    assert m[0] == '-' && m[1..] == Decimal(n) && p[0] == '+' && p[1..] == Decimal(n);
  }

  /** Nothing else than digits, perhaps behind one sign, is a number. */
  lemma ParseIntIff(s: string)
    ensures ParseInt(s).Some? <==>
              && |s| > 0 && '0' <= s[|s| - 1] <= '9'
              && (forall i :: 0 < i < |s| ==> '0' <= s[i] <= '9')
              && ('0' <= s[0] <= '9' || s[0] == '+' || s[0] == '-')
  {
    if |s| > 1 {
      assert forall i :: 0 < i < |s| ==> s[1..][i - 1] == s[i];
    }
  }

  /** `key` is `uid`, `session` and `index` joined by underscores, and the last two hold none. */
  predicate IsJoined(key: string, uid: string, session: string, index: string) {
    '_' !in session && '_' !in index && key == uid + "_" + session + "_" + index
  }

  lemma LastIndexSplits(s: string, c: char)
    requires LastIndex(s, c) >= 0
    ensures var i := LastIndex(s, c); s == s[..i] + [c] + s[i + 1..] && c !in s[i + 1..]
  {
  }

  /** The parts around the last two separators. */
  lemma SplitTwice(key: string)
    requires LastIndex(key, '_') >= 0 && LastIndex(key[..LastIndex(key, '_')], '_') >= 0
    ensures
      var i := LastIndex(key, '_');
      var j := LastIndex(key[..i], '_');
      && RSplit(key, '_', 2) == [key[..i][..j], key[..i][j + 1..], key[i + 1..]]
      && IsJoined(key, key[..i][..j], key[..i][j + 1..], key[i + 1..])
  {
    var i := LastIndex(key, '_');
    LastIndexSplits(key, '_');
    LastIndexSplits(key[..i], '_');
    var j := LastIndex(key[..i], '_');
    assert RSplit(key[..i][..j], '_', 0) == [key[..i][..j]];
    assert RSplit(key[..i], '_', 1) == [key[..i][..j]] + [key[..i][j + 1..]];
  }

  lemma SplitFields(key: string)
    ensures |RSplit(key, '_', 2)| == 3 ==>
              var f := RSplit(key, '_', 2);
              IsJoined(key, f[0], f[1], f[2])
  {
    var i := LastIndex(key, '_');
    if i >= 0 && LastIndex(key[..i], '_') >= 0 {
      SplitTwice(key);
    } else if i >= 0 {
      assert RSplit(key[..i], '_', 1) == [key[..i]];
    }
  }

  lemma JoinedFields(key: string, uid: string, session: string, index: string)
    requires IsJoined(key, uid, session, index)
    ensures RSplit(key, '_', 2) == [uid, session, index]
  {
    assert key == SessionKey(uid, session) + ['_'] + index;
    SplitOutputKey(uid, session, index);
  }

  /**
   Which keys are accepted: those that end in a session and an index, each after
   an underscore, where the index is a number. Without two underscores the
   format is unexpected, otherwise the index is invalid.
   */
  lemma ParseKeyIff(key: string, uid: string, session: string, index: string)
    ensures ParseKey(key) == Err(UnexpectedKeyFormat) <==> !exists u, t, i :: IsJoined(key, u, t, i)
    ensures IsJoined(key, uid, session, index) ==>
              ParseKey(key) == if ParseInt(index).None? then Err(InvalidIndex)
                               else Ok(Parsed(uid + "_" + session, ParseInt(index).value))
  {
    SplitFields(key);
    forall u, t, i | IsJoined(key, u, t, i) ensures RSplit(key, '_', 2) == [u, t, i] {
      JoinedFields(key, u, t, i);
    }
    if |RSplit(key, '_', 2)| == 3 {
      var f := RSplit(key, '_', 2);
      assert IsJoined(key, f[0], f[1], f[2]);
    }
    assert SessionKey(uid, session) == uid + "_" + session;
  }

  /** How a key is spelled. */
  lemma KeyOfOutputTwelve()
    ensures OutputKey("u", 3, 12) == "u_3_12"
  {
    assert Decimal(12) == "12" && Decimal(3) == "3";
  }

  lemma SessionKeyInjective(uid: string, uid': string, session: string, session': string)
    requires '_' !in session && '_' !in session'
    requires SessionKey(uid, session) == SessionKey(uid', session')
    ensures uid == uid' && session == session'
  {
    LastIndexOfAppend(uid, session, '_');
    LastIndexOfAppend(uid', session', '_');
    var k := SessionKey(uid, session);
    assert uid == k[..|uid|] && session == k[|uid| + 1..];
    assert uid' == k[..|uid'|] && session' == k[|uid'| + 1..];
  }

  /** Different outputs have different keys, and only outputs of one session share a session key. */
  lemma OutputKeyInjective(uid: string, session: nat, index: nat, uid': string, session': nat, index': nat)
    ensures OutputKey(uid, session, index) == OutputKey(uid', session', index')
            <==> uid == uid' && session == session' && index == index'
    ensures SessionKey(uid, Decimal(session)) == SessionKey(uid', Decimal(session'))
            <==> uid == uid' && session == session'
  {
    ParseOutputKey(uid, session, index);
    ParseOutputKey(uid', session', index');
    if SessionKey(uid, Decimal(session)) == SessionKey(uid', Decimal(session')) {
      SessionKeyInjective(uid, uid', Decimal(session), Decimal(session'));
      DecimalValue(session);
      DecimalValue(session');
    }
  }

  /** A prompt key without underscores, such as a UUID, is never an output key. */
  lemma PromptKeysAreNotOutputKeys(prompt: string, uid: string, session: nat, index: nat)
    requires '_' !in prompt
    ensures prompt != OutputKey(uid, session, index)
  {
    assert OutputKey(uid, session, index)[|uid|] == '_';
  }
}
