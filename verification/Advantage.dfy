/**
 GRPO advantages when a session has several outputs: only each session's final
 output is scored, and its score is spread over all rows of the session.
 */
module Advantage {
  import opened Common
  import opened OrderedDict
  import opened OutputKeys

  /** A row of the batch: its response mask, and whatever else the estimator reads. */
  datatype Row<T> = Row(mask: seq<int>, rest: T)

  /** A row's final row: the first one with the largest output index of the session. */
  predicate IsFinalRow(ps: seq<Parsed>, i: nat, f: nat) {
    && i < |ps| && f < |ps| && ps[f].session == ps[i].session
    && (forall r :: 0 <= r < |ps| && ps[r].session == ps[i].session ==> ps[r].index <= ps[f].index)
    && (forall r :: 0 <= r < f && ps[r].session == ps[i].session ==> ps[r].index < ps[f].index)
  }

  lemma FinalRowIsUnique(ps: seq<Parsed>, i: nat, f: nat, g: nat)
    requires IsFinalRow(ps, i, f) && IsFinalRow(ps, i, g)
    ensures f == g
  {
  }

  // ---- parsing all keys

  predicate AllParse(keys: seq<string>) {
    forall i :: 0 <= i < |keys| ==> ParseKey(keys[i]).Ok?
  }

  function ParseKeys(keys: seq<string>): seq<Parsed>
    requires AllParse(keys)
  {
    seq(|keys|, i requires 0 <= i < |keys| => ParseKey(keys[i]).value)
  }

  /** The loop stops at the first key that cannot be parsed, with that key's error. */
  predicate ErrorAt(keys: seq<string>, i: nat, error: KeyError) {
    i < |keys| && ParseKey(keys[i]) == Err(error) && forall j :: 0 <= j < i ==> ParseKey(keys[j]).Ok?
  }

  ghost predicate FirstError(keys: seq<string>, error: KeyError) {
    exists i: nat :: ErrorAt(keys, i, error)
  }

  // ---- choosing the final rows

  /** A session's entry is its index and its row. */
  ghost predicate EntryOk(e: Entry<string, (int, nat)>, ps: seq<Parsed>) {
    var f := e.value.1;
    IsFinalRow(ps, f, f) && ps[f].session == e.key && ps[f].index == e.value.0
  }

  /** Session `a` has a row before the first one of session `b`. */
  ghost predicate AppearsBefore(ps: seq<Parsed>, a: string, b: string) {
    exists i :: 0 <= i < |ps| && ps[i].session == a && forall r :: 0 <= r <= i ==> ps[r].session != b
  }

  ghost predicate InOrderOfAppearance(sessions: Dict<string, (int, nat)>, ps: seq<Parsed>) {
    forall e, f :: 0 <= e < f < |sessions| ==> AppearsBefore(ps, sessions[e].key, sessions[f].key)
  }

  /** After the rows `ps`: every session seen has one entry, its final row so far, by order of appearance. */
  ghost predicate SessionsOk(sessions: Dict<string, (int, nat)>, ps: seq<Parsed>) {
    && DistinctKeys(sessions) && InOrderOfAppearance(sessions, ps)
    && (forall e :: 0 <= e < |sessions| ==> EntryOk(sessions[e], ps))
    && (forall i :: 0 <= i < |ps| ==> HasKey(sessions, ps[i].session))
  }

  /** The sessions after one more row. */
  function See(sessions: Dict<string, (int, nat)>, p: Parsed, row: nat): Dict<string, (int, nat)> {
    if !HasKey(sessions, p.session) || Get(sessions, p.session).0 < p.index
    then Put(sessions, p.session, (p.index, row))
    else sessions
  }

  /** A new row leaves a final row final if it belongs to another session or has no larger index. */
  lemma FinalRowKept(ps: seq<Parsed>, p: Parsed, f: nat)
    requires IsFinalRow(ps, f, f) && (ps[f].session != p.session || p.index <= ps[f].index)
    ensures IsFinalRow(ps + [p], f, f)
  {
  }

  lemma FinalRowReplaced(ps: seq<Parsed>, p: Parsed)
    requires forall r :: 0 <= r < |ps| && ps[r].session == p.session ==> ps[r].index < p.index
    ensures IsFinalRow(ps + [p], |ps|, |ps|)
  {
  }

  lemma SessionSeen(sessions: Dict<string, (int, nat)>, ps: seq<Parsed>, p: Parsed)
    requires SessionsOk(sessions, ps)
    ensures SessionsOk(See(sessions, p, |ps|), ps + [p])
  {
    var ps', sessions' := ps + [p], See(sessions, p, |ps|);
    PutKeys(sessions, p.session, (p.index, |ps|), p.session);
    forall e | 0 <= e < |sessions'| ensures EntryOk(sessions'[e], ps') {
      SeenEntry(sessions, ps, p, e);
    }
    SeenInOrder(sessions, ps, p);
    forall i | 0 <= i < |ps'| ensures HasKey(sessions', ps'[i].session) {
      if i < |ps| {
        assert HasKey(sessions, ps[i].session);
        PutKeys(sessions, p.session, (p.index, |ps|), ps[i].session);
      }
    }
  }

  lemma AppearsBeforeMore(ps: seq<Parsed>, p: Parsed, a: string, b: string)
    requires AppearsBefore(ps, a, b)
    ensures AppearsBefore(ps + [p], a, b)
  {
    var i :| 0 <= i < |ps| && ps[i].session == a && forall r :: 0 <= r <= i ==> ps[r].session != b;
    var ps' := ps + [p];
    assert ps'[i].session == a && forall r :: 0 <= r <= i ==> ps'[r] == ps[r];
  }

  lemma NewSessionIsLast(ps: seq<Parsed>, p: Parsed, i: nat)
    requires i < |ps| && forall r :: 0 <= r < |ps| ==> ps[r].session != p.session
    ensures AppearsBefore(ps + [p], ps[i].session, p.session)
  {
    var ps' := ps + [p];
    assert ps'[i].session == ps[i].session && forall r :: 0 <= r <= i ==> ps'[r] == ps[r];
  }

  lemma SeenInOrder(sessions: Dict<string, (int, nat)>, ps: seq<Parsed>, p: Parsed)
    requires SessionsOk(sessions, ps)
    ensures InOrderOfAppearance(See(sessions, p, |ps|), ps + [p])
  {
    var sessions' := See(sessions, p, |ps|);
    forall e, f | 0 <= e < f < |sessions'| ensures AppearsBefore(ps + [p], sessions'[e].key, sessions'[f].key) {
      if f < |sessions| {
        AppearsBeforeMore(ps, p, sessions[e].key, sessions[f].key);
      } else {
        assert EntryOk(sessions[e], ps);
        NewSessionIsLast(ps, p, sessions[e].value.1);
      }
    }
  }

  lemma SeenEntry(sessions: Dict<string, (int, nat)>, ps: seq<Parsed>, p: Parsed, e: nat)
    requires SessionsOk(sessions, ps) && e < |See(sessions, p, |ps|)|
    ensures EntryOk(See(sessions, p, |ps|)[e], ps + [p])
  {
    var entry := See(sessions, p, |ps|)[e];
    if !HasKey(sessions, p.session) {
      assert forall i :: 0 <= i < |ps| ==> ps[i].session != p.session;
      FinalRowReplaced(ps, p);
    } else if Get(sessions, p.session).0 < p.index {
      assert EntryOk(sessions[Find(sessions, p.session)], ps);
      FinalRowReplaced(ps, p);
    } else {
      assert EntryOk(sessions[Find(sessions, p.session)], ps);
    }
    if e < |sessions| && entry == sessions[e] {
      assert EntryOk(sessions[e], ps);
      assert sessions[e].key == p.session ==> e == Find(sessions, p.session);
      FinalRowKept(ps, p, entry.value.1);
    }
  }

  /** The loop after the first `|ps|` keys. */
  ghost predicate SeenSoFar(keys: seq<string>, ps: seq<Parsed>, sessions: Dict<string, (int, nat)>,
                            rowSessionKeys: seq<string>)
  {
    RowsSeen(keys, ps, rowSessionKeys) && SessionsOk(sessions, ps)
  }

  predicate RowsSeen(keys: seq<string>, ps: seq<Parsed>, rowSessionKeys: seq<string>) {
    && |ps| == |rowSessionKeys| <= |keys|
    && (forall j :: 0 <= j < |ps| ==> ParseKey(keys[j]) == Ok(ps[j]) && rowSessionKeys[j] == ps[j].session)
  }

  lemma RowsSeenMore(keys: seq<string>, ps: seq<Parsed>, rowSessionKeys: seq<string>, p: Parsed)
    requires RowsSeen(keys, ps, rowSessionKeys) && |ps| < |keys| && ParseKey(keys[|ps|]) == Ok(p)
    ensures RowsSeen(keys, ps + [p], rowSessionKeys + [p.session])
  {
  }

  lemma SeenMore(sessions: Dict<string, (int, nat)>, p: Parsed,
                 rowSessionKeys: seq<string>, keys: seq<string>, ps: seq<Parsed>)
    requires SeenSoFar(keys, ps, sessions, rowSessionKeys) && |ps| < |keys| && ParseKey(keys[|ps|]) == Ok(p)
    ensures SeenSoFar(keys, ps + [p], See(sessions, p, |ps|), rowSessionKeys + [p.session])
  {
    SessionSeen(sessions, ps, p);
    RowsSeenMore(keys, ps, rowSessionKeys, p);
  }

  /** Keep the row if its session is new or its index is the largest so far. */
  method Record(sessions: Dict<string, (int, nat)>, p: Parsed, row: nat, rowSessionKeys: seq<string>,
                ghost keys: seq<string>, ghost ps: seq<Parsed>)
    returns (sessions': Dict<string, (int, nat)>, rowSessionKeys': seq<string>)
    requires SeenSoFar(keys, ps, sessions, rowSessionKeys) && row == |ps| < |keys| && ParseKey(keys[row]) == Ok(p)
    ensures SeenSoFar(keys, ps + [p], sessions', rowSessionKeys')
  {
    SeenMore(sessions, p, rowSessionKeys, keys, ps);
    rowSessionKeys' := rowSessionKeys + [p.session];
    if !HasKey(sessions, p.session) || Get(sessions, p.session).0 < p.index {
      sessions' := Put(sessions, p.session, (p.index, row));
    } else {
      sessions' := sessions;
    }
  }

  /** The loop over the batch keys: the sessions with their final rows, and every row's session key. */
  method FinalSessions(batchKeys: seq<string>)
    returns (r: Result<(Dict<string, (int, nat)>, seq<string>), KeyError>)
    ensures r.Ok? <==> AllParse(batchKeys)
    ensures r.Err? ==> FirstError(batchKeys, r.error)
    ensures r.Ok? ==> SeenSoFar(batchKeys, ParseKeys(batchKeys), r.value.0, r.value.1)
  {
    var sessions: Dict<string, (int, nat)> := [];
    var rowSessionKeys: seq<string> := [];
    ghost var ps: seq<Parsed> := [];
    for i := 0 to |batchKeys|
      invariant |ps| == i && SeenSoFar(batchKeys, ps, sessions, rowSessionKeys)
    {
      var p := ParseKey(batchKeys[i]);
      if p.Err? {
        assert ErrorAt(batchKeys, i, p.error);
        return Err(p.error);
      }
      sessions, rowSessionKeys := Record(sessions, p.value, i, rowSessionKeys, batchKeys, ps);
      ps := ps + [p.value];
    }
    assert ps == ParseKeys(batchKeys);
    return Ok((sessions, rowSessionKeys));
  }

  /** One final row per session, and every row's position in that list. */
  method FinalIndices(sessions: Dict<string, (int, nat)>, rowSessionKeys: seq<string>)
    returns (finalIndices: seq<nat>, rowToLocal: seq<nat>)
    requires DistinctKeys(sessions)
    requires forall i :: 0 <= i < |rowSessionKeys| ==> HasKey(sessions, rowSessionKeys[i])
    ensures |finalIndices| == |sessions| && |rowToLocal| == |rowSessionKeys|
    ensures forall j :: 0 <= j < |sessions| ==> finalIndices[j] == sessions[j].value.1
    ensures forall i :: 0 <= i < |rowToLocal| ==>
              rowToLocal[i] < |sessions| && sessions[rowToLocal[i]].key == rowSessionKeys[i]
  {
    finalIndices := [];
    var keyToLocal: Dict<string, nat> := [];
    for j := 0 to |sessions|
      invariant |finalIndices| == |keyToLocal| == j
      invariant forall k :: 0 <= k < j ==> finalIndices[k] == sessions[k].value.1
      invariant forall k :: 0 <= k < j ==> keyToLocal[k] == Entry(sessions[k].key, k)
    {
      finalIndices := finalIndices + [sessions[j].value.1];
      assert !HasKey(keyToLocal, sessions[j].key);
      keyToLocal := Put(keyToLocal, sessions[j].key, |finalIndices| - 1);
    }
    rowToLocal := [];
    for i := 0 to |rowSessionKeys|
      invariant |rowToLocal| == i
      invariant forall k :: 0 <= k < i ==>
                  rowToLocal[k] < |sessions| && sessions[rowToLocal[k]].key == rowSessionKeys[k]
    {
      var e := Find(sessions, rowSessionKeys[i]);
      assert keyToLocal[e].key == rowSessionKeys[i];
      rowToLocal := rowToLocal + [Get(keyToLocal, rowSessionKeys[i])];
    }
  }

  // ---- the scores

  /** The first position of the largest entry. */
  predicate IsArgMax(xs: seq<int>, m: nat) {
    m < |xs| && forall i :: 0 <= i < |xs| ==> xs[i] <= xs[m] && (i < m ==> xs[i] < xs[m])
  }

  /** `argmax` */
  method ArgMax(xs: seq<int>) returns (m: nat)
    requires xs != []
    ensures IsArgMax(xs, m)
  {
    m := 0;
    for i := 1 to |xs|
      invariant m < i && forall j :: 0 <= j < i ==> xs[j] <= xs[m] && (j < m ==> xs[j] < xs[m])
    {
      if xs[m] < xs[i] {
        m := i;
      }
    }
  }

  /** `score.unsqueeze(-1) * mask` */
  function Masked(score: real, mask: seq<int>): seq<real> {
    seq(|mask|, i requires 0 <= i < |mask| => score * mask[i] as real)
  }

  function Select<T>(rows: seq<Row<T>>, indices: seq<nat>): seq<Row<T>>
    requires forall j :: 0 <= j < |indices| ==> indices[j] < |rows|
  {
    seq(|indices|, j requires 0 <= j < |indices| => rows[indices[j]])
  }

  /** The advantage estimator: any function with one output row per input row, as long as its mask. */
  ghost predicate Estimator<T(!new)>(compute: seq<Row<T>> -> seq<seq<real>>) {
    forall rows: seq<Row<T>> :: |compute(rows)| == |rows|
      && forall j :: 0 <= j < |rows| ==> |compute(rows)[j]| == |rows[j].mask|
  }

  /**
   The scattered advantages. `finals` are the rows that were scored: exactly one
   per session, its final one, in the order in which the sessions appear. Row `i`
   carries the score its session's final row got at that row's first response
   token, spread over row `i`'s own mask.
   */
  ghost predicate Scattered<T>(compute: seq<Row<T>> -> seq<seq<real>>, rows: seq<Row<T>>, ps: seq<Parsed>,
                               finals: seq<nat>, out: seq<seq<real>>)
  {
    && |out| == |rows| == |ps|
    && (forall j :: 0 <= j < |finals| ==> finals[j] < |rows| && IsFinalRow(ps, finals[j], finals[j]))
    && (forall j, k :: 0 <= j < k < |finals| ==> ps[finals[j]].session != ps[finals[k]].session)
    && (forall j, k :: 0 <= j < k < |finals| ==> AppearsBefore(ps, ps[finals[j]].session, ps[finals[k]].session))
    && (forall i :: 0 <= i < |rows| ==> ScatteredRow(compute, rows, ps, finals, out, i))
  }

  ghost predicate ScatteredRow<T>(compute: seq<Row<T>> -> seq<seq<real>>, rows: seq<Row<T>>, ps: seq<Parsed>,
                                  finals: seq<nat>, out: seq<seq<real>>, i: nat)
    requires |out| == |rows| == |ps| && i < |rows|
    requires forall j :: 0 <= j < |finals| ==> finals[j] < |rows|
  {
    exists j: nat, m: nat ::
      && j < |finals| && IsFinalRow(ps, i, finals[j])
      && IsArgMax(rows[finals[j]].mask, m)
      && var advantages := compute(Select(rows, finals));
         j < |advantages| && m < |advantages[j]| && out[i] == Masked(advantages[j][m], rows[i].mask)
  }

  /** Each final row's advantage at its first response token. */
  method FinalScores<T>(finalData: seq<Row<T>>, advantages: seq<seq<real>>)
    returns (scores: seq<real>, ghost firsts: seq<nat>)
    requires |advantages| == |finalData|
    requires forall j :: 0 <= j < |finalData| ==> finalData[j].mask != [] && |advantages[j]| == |finalData[j].mask|
    ensures |scores| == |firsts| == |finalData|
    ensures forall j :: 0 <= j < |finalData| ==>
              IsArgMax(finalData[j].mask, firsts[j]) && scores[j] == advantages[j][firsts[j]]
  {
    scores, firsts := [], [];
    for j := 0 to |finalData|
      invariant |scores| == |firsts| == j
      invariant forall k :: 0 <= k < j ==>
                  IsArgMax(finalData[k].mask, firsts[k]) && scores[k] == advantages[k][firsts[k]]
    {
      var m := ArgMax(finalData[j].mask);
      firsts := firsts + [m];
      scores := scores + [advantages[j][m]];
    }
  }

  /** Every row gets its session's score under its own mask. */
  method Scatter<T>(finalScores: seq<real>, rowToLocal: seq<nat>, rows: seq<Row<T>>) returns (out: seq<seq<real>>)
    requires |rowToLocal| == |rows| && forall i :: 0 <= i < |rows| ==> rowToLocal[i] < |finalScores|
    ensures |out| == |rows|
    ensures forall i :: 0 <= i < |rows| ==> out[i] == Masked(finalScores[rowToLocal[i]], rows[i].mask)
  {
    out := [];
    for i := 0 to |rows|
      invariant |out| == i
      invariant forall k :: 0 <= k < i ==> out[k] == Masked(finalScores[rowToLocal[k]], rows[k].mask)
    {
      out := out + [Masked(finalScores[rowToLocal[i]], rows[i].mask)];
    }
  }

  lemma ScoreFound<T>(compute: seq<Row<T>> -> seq<seq<real>>, rows: seq<Row<T>>, ps: seq<Parsed>,
                      finals: seq<nat>, out: seq<seq<real>>, i: nat, j: nat, m: nat)
    requires |out| == |rows| == |ps| && i < |rows| && j < |finals|
    requires forall k :: 0 <= k < |finals| ==> finals[k] < |rows|
    requires IsFinalRow(ps, finals[j], finals[j]) && ps[finals[j]].session == ps[i].session
    requires IsArgMax(rows[finals[j]].mask, m)
    requires
      var advantages := compute(Select(rows, finals));
      j < |advantages| && m < |advantages[j]| && out[i] == Masked(advantages[j][m], rows[i].mask)
    ensures ScatteredRow(compute, rows, ps, finals, out, i)
  {
    assert IsFinalRow(ps, i, finals[j]);
  }

  lemma FinalsAreFinal(sessions: Dict<string, (int, nat)>, ps: seq<Parsed>, finals: seq<nat>)
    requires SessionsOk(sessions, ps) && |finals| == |sessions|
    requires forall j :: 0 <= j < |finals| ==> finals[j] == sessions[j].value.1
    ensures forall j :: 0 <= j < |finals| ==>
              IsFinalRow(ps, finals[j], finals[j]) && ps[finals[j]].session == sessions[j].key
    ensures forall j, k :: 0 <= j < k < |finals| ==> ps[finals[j]].session != ps[finals[k]].session
    ensures forall j, k :: 0 <= j < k < |finals| ==> AppearsBefore(ps, ps[finals[j]].session, ps[finals[k]].session)
  {
    forall j | 0 <= j < |finals|
      ensures IsFinalRow(ps, finals[j], finals[j]) && ps[finals[j]].session == sessions[j].key
    {
      assert EntryOk(sessions[j], ps);
    }
  }

  /** The GRPO branch of `compute_advantage_for_multi_trajectories`. */
  method ComputeAdvantage<T(!new)>(compute: seq<Row<T>> -> seq<seq<real>>, rows: seq<Row<T>>, batchKeys: seq<string>)
    returns (r: Result<seq<seq<real>>, KeyError>, ghost finals: seq<nat>)
    requires Estimator(compute) && |batchKeys| == |rows| && forall i :: 0 <= i < |rows| ==> rows[i].mask != []
    ensures r.Ok? <==> AllParse(batchKeys)
    ensures r.Err? ==> FirstError(batchKeys, r.error)
    ensures r.Ok? ==> Scattered(compute, rows, ParseKeys(batchKeys), finals, r.value)
  {
    finals := [];
    var found := FinalSessions(batchKeys);
    if found.Err? {
      return Err(found.error), finals;
    }
    ghost var ps := ParseKeys(batchKeys);
    var sessions, rowSessionKeys := found.value.0, found.value.1;
    var finalIndices, rowToLocal := FinalIndices(sessions, rowSessionKeys);
    finals := finalIndices;
    FinalsAreFinal(sessions, ps, finals);
    var finalData := Select(rows, finalIndices);
    var advantages := compute(finalData);
    var finalScores, firsts := FinalScores(finalData, advantages);
    var out := Scatter(finalScores, rowToLocal, rows);
    forall i | 0 <= i < |rows| ensures ScatteredRow(compute, rows, ps, finals, out, i) {
      var j := rowToLocal[i];
      ScoreFound(compute, rows, ps, finals, out, i, j, firsts[j]);
    }
    r := Ok(out);
  }

  // ---- position by position

  /** Response masks hold zeros and ones. */
  predicate IsResponseMask(mask: seq<int>) {
    forall t :: 0 <= t < |mask| ==> mask[t] == 0 || mask[t] == 1
  }

  /** The first response token; position 0 of a mask without any. */
  predicate FirstResponse(mask: seq<int>, m: nat) {
    && m < |mask| && (forall t :: 0 <= t < m ==> mask[t] == 0)
    && (mask[m] == 1 || (m == 0 && forall t :: 0 <= t < |mask| ==> mask[t] == 0))
  }

  /**
   Outside a row's own response the advantage is zero. Inside, it is what the
   estimator, given the final row of every session in the order in which the
   sessions appear, assigned to the final row of this row's session at that
   row's first response token.
   */
  lemma AdvantageAt<T(!new)>(compute: seq<Row<T>> -> seq<seq<real>>, rows: seq<Row<T>>, ps: seq<Parsed>,
                             finals: seq<nat>, out: seq<seq<real>>, selected: seq<Row<T>>, i: nat)
    requires Estimator(compute) && Scattered(compute, rows, ps, finals, out) && i < |rows|
    requires forall r :: 0 <= r < |rows| ==> IsResponseMask(rows[r].mask)
    requires |selected| == |finals| && forall j :: 0 <= j < |finals| ==> selected[j] == rows[finals[j]]
    ensures |out[i]| == |rows[i].mask|
    ensures forall t :: 0 <= t < |out[i]| && rows[i].mask[t] == 0 ==> out[i][t] == 0.0
    ensures exists j: nat, m: nat ::
              && j < |finals| && IsFinalRow(ps, i, finals[j]) && FirstResponse(rows[finals[j]].mask, m)
              && |compute(selected)| == |finals| && m < |compute(selected)[j]|
              && forall t :: 0 <= t < |out[i]| && rows[i].mask[t] == 1 ==> out[i][t] == compute(selected)[j][m]
  {
    assert ScatteredRow(compute, rows, ps, finals, out, i);
    assert selected == Select(rows, finals);
    var j: nat, m: nat :|
      && j < |finals| && IsFinalRow(ps, i, finals[j])
      && IsArgMax(rows[finals[j]].mask, m)
      && var advantages := compute(Select(rows, finals));
         j < |advantages| && m < |advantages[j]| && out[i] == Masked(advantages[j][m], rows[i].mask);
    FirstOfMask(rows[finals[j]].mask, m);
  }

  lemma FirstOfMask(mask: seq<int>, m: nat)
    requires IsResponseMask(mask) && IsArgMax(mask, m)
    ensures FirstResponse(mask, m)
  {
    assert mask[0] <= mask[m];
  }
}
