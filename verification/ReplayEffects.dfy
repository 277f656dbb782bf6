/**
 What becomes of a key over a whole run of the replay protocol: when it enters
 the transfer queue and the replay buffer, which tags it has there, and when it
 leaves them again.
 */
module ReplayEffects {
  import opened Common
  import opened OutputKeys
  import opened ReplayBuffer
  import opened ReplayProtocol

  // ---- steps of a run

  /** The step that a run takes at moment `n`, from a state that meets the invariant. */
  lemma StepAt(run: seq<State>, first: int, n: nat) returns (act: Action)
    requires IsRun(run, first) && n + 1 < |run|
    ensures Inv(run[n]) && Enabled(run[n], act) && run[n + 1] == Next(run[n], act)
  {
    RunKeepsInv(run, first, n);
    assert StepOk(run, n);
    act :| Enabled(run[n], act) && run[n + 1] == Next(run[n], act);
  }

  /**
   Who waits for what. A session that has not published may publish any number of
   outputs at any time, a prompt that is generating may fail at any time and
   finish when all its sessions have published, the poller never waits, and the
   trainer waits only for keys of its step that are shown as running.
   */
  lemma NobodyElseWaits(s: State)
    ensures forall uid, i, lengths ::
              (uid in s.prompts && 0 <= i < |s.prompts[uid].sessions| && s.prompts[uid].sessions[i].None?) ==>
                Enabled(s, Publish(uid, i, |lengths|, lengths))
    ensures forall uid :: uid in s.prompts && s.prompts[uid].outcome == Generating ==>
              && Enabled(s, Fail(uid))
              && (Enabled(s, Finish(uid)) <==> forall i :: 0 <= i < |s.prompts[uid].sessions| ==>
                                                 s.prompts[uid].sessions[i].Some?)
    ensures Enabled(s, if s.snapshot.None? then Poll else ApplyPoll)
    ensures forall counts :: s.phase == Idle && (forall uid :: uid in counts ==> '_' !in uid && uid !in s.prompts) ==>
              Enabled(s, Register(counts))
    ensures s.phase == Waiting ==>
              (Enabled(s, TakeSample) <==> forall k :: k in s.buffer && s.buffer[k].globalSteps == Some(s.step) ==>
                                             s.buffer[k].status != Some(Running))
    ensures s.phase.Sampled? ==> Enabled(s, Clear)
    ensures s.phase.Cleared? ==> Enabled(s, Remove)
  {
  }

  // ---- published outputs

  /** The output keys of a session that has published are known outputs. */
  lemma PublishedIsOutput(prompts: map<string, Prompt>, uid: string, i: nat, j: nat)
    requires uid in prompts && PublishedAt(prompts[uid], uid, OutputKey(uid, i, j), i, j)
    ensures OutputOf(prompts, uid, OutputKey(uid, i, j))
  {
  }

  /** A session publishes once, so no output is published again. */
  lemma NotPublishedAgain(s: State, uid: string, k: string,
                          uid': string, session: nat, n: nat, lengths: seq<map<string, int>>)
    requires OutputOf(s.prompts, uid, k) && Enabled(s, Publish(uid', session, n, lengths))
    ensures k !in SessionKeys(uid', session, n)
  {
    var i: nat, j: nat :| PublishedAt(s.prompts[uid], uid, k, i, j);
    if k in SessionKeys(uid', session, n) {
      var j': nat :| j' < n && k == OutputKey(uid', session, j');
      OutputKeyInjective(uid, i, j, uid', session, j');
    }
  }

  /** Keys of the transfer queue and of samples are not among the outputs about to be published. */
  lemma QueuedIsNotPublished(s: State, k: string, uid: string, session: nat, n: nat, lengths: seq<map<string, int>>)
    requires Inv(s) && k in s.queue && Enabled(s, Publish(uid, session, n, lengths))
    ensures k !in SessionKeys(uid, session, n)
  {
    assert QueueEntry(s.prompts, k, s.queue[k]);
    if k in s.prompts {
      PromptIsNoSessionKey(k, uid, session, n);
    } else {
      var u :| OutputOf(s.prompts, u, k);
      NotPublishedAgain(s, u, k, uid, session, n, lengths);
    }
  }

  // ---- the transfer queue

  /** An entry of the transfer queue does not change, and leaves it only when the trainer clears its sample. */
  lemma StepKeepsQueue(s: State, act: Action, k: string)
    requires Inv(s) && Enabled(s, act) && k in s.queue && !(act == Clear && k in s.phase.keys)
    ensures k in Next(s, act).queue && Next(s, act).queue[k] == s.queue[k]
  {
    assert QueueEntry(s.prompts, k, s.queue[k]);
    match act
    case Publish(uid, session, n, lengths) => QueuedIsNotPublished(s, k, uid, session, n, lengths);
    case Finish(uid) => PromptIsNoOutput(s.prompts, uid);
    case Fail(uid) => PromptIsNoOutput(s.prompts, uid);
    case _ =>
  }

  predicate InNoSample(s: State, k: string) {
    forall n :: 0 <= n < |s.samples| ==> k !in s.samples[n].keys
  }

  lemma SamplesOnlyGrow(s: State, act: Action)
    requires Enabled(s, act)
    ensures s.samples <= Next(s, act).samples
  {
  }

  lemma EarlierInNoSample(s: State, s': State, k: string)
    requires s.samples <= s'.samples && InNoSample(s', k)
    ensures InNoSample(s, k)
  {
    forall n | 0 <= n < |s.samples| ensures k !in s.samples[n].keys {
      assert s'.samples[n] == s.samples[n];
    }
  }

  lemma QueueEntryStays(run: seq<State>, first: int, n: nat, k: string)
    requires IsRun(run, first) && n + 1 < |run| && k in run[n].queue && InNoSample(run[n + 1], k)
    ensures k in run[n + 1].queue && run[n + 1].queue[k] == run[n].queue[k]
  {
    var act := StepAt(run, first, n);
    StepKeepsQueue(run[n], act, k);
  }

  lemma NotSampledEarlier(run: seq<State>, first: int, n: nat, k: string)
    requires IsRun(run, first) && n + 1 < |run| && InNoSample(run[n + 1], k)
    ensures InNoSample(run[n], k)
  {
    var act := StepAt(run, first, n);
    SamplesOnlyGrow(run[n], act);
    EarlierInNoSample(run[n], run[n + 1], k);
  }

  /** Over a run, an entry of the transfer queue that was never sampled is still there, with the same tags. */
  lemma {:induction false} QueueEntriesLast(run: seq<State>, first: int, a: nat, b: nat, k: string)
    requires IsRun(run, first) && a <= b < |run| && k in run[a].queue && InNoSample(run[b], k)
    ensures k in run[b].queue && run[b].queue[k] == run[a].queue[k]
    decreases b
  {
    if a < b {
      NotSampledEarlier(run, first, b - 1, k);
      QueueEntriesLast(run, first, a, b - 1, k);
      QueueEntryStays(run, first, b - 1, k);
    }
  }

  // ---- the replay buffer

  /** A key of the buffer stays there until the trainer removes its sample. */
  lemma StepKeepsBuffered(s: State, act: Action, k: string)
    requires Inv(s) && Enabled(s, act) && k in s.buffer && !(act == Remove && k in s.phase.keys)
    ensures k in Next(s, act).buffer
  {
  }

  lemma BufferedKeyStays(run: seq<State>, first: int, n: nat, k: string)
    requires IsRun(run, first) && n + 1 < |run| && k in run[n].buffer && InNoSample(run[n + 1], k)
    ensures k in run[n + 1].buffer
  {
    var act := StepAt(run, first, n);
    StepKeepsBuffered(run[n], act, k);
  }

  /** Over a run, a key of the buffer that was never sampled is still there. */
  lemma {:induction false} BufferedKeysLast(run: seq<State>, first: int, a: nat, b: nat, k: string)
    requires IsRun(run, first) && a <= b < |run| && k in run[a].buffer && InNoSample(run[b], k)
    ensures k in run[b].buffer
    decreases b
  {
    if a < b {
      NotSampledEarlier(run, first, b - 1, k);
      BufferedKeysLast(run, first, a, b - 1, k);
      BufferedKeyStays(run, first, b - 1, k);
    }
  }

  lemma SnapshotIsKeptOrRead(run: seq<State>, first: int, n: nat)
    requires IsRun(run, first) && n + 1 < |run| && run[n + 1].snapshot.Some?
    ensures run[n + 1].snapshot == run[n].snapshot || run[n + 1].snapshot == Some(run[n].queue)
  {
    var act := StepAt(run, first, n);
  }

  /** What the poller has read but not yet applied was the whole transfer queue at some moment. */
  lemma {:induction false} SnapshotWasTheQueue(run: seq<State>, first: int, n: nat)
    requires IsRun(run, first) && n < |run| && run[n].snapshot.Some?
    ensures exists a :: 0 <= a < n && run[a].queue == run[n].snapshot.value
  {
    if n > 0 {
      SnapshotIsKeptOrRead(run, first, n - 1);
      if run[n].snapshot == run[n - 1].snapshot {
        SnapshotWasTheQueue(run, first, n - 1);
      }
    }
  }

  // ---- the tags of an output

  /** Wherever the output `k` is stored, it has the tags `t`. */
  predicate TaggedAs(s: State, k: string, t: Tags) {
    && (k in s.queue ==> s.queue[k] == t)
    && (s.snapshot.Some? && k in s.snapshot.value ==> s.snapshot.value[k] == t)
    && (k in s.buffer ==> s.buffer[k] == t)
  }

  lemma UpdateWithItself(t: Tags)
    ensures Update(NO_TAGS, t) == t && Update(t, t) == t
  {
    assert t.lengths + t.lengths == t.lengths && map[] + t.lengths == t.lengths;
  }

  lemma StepKeepsTags(s: State, act: Action, uid: string, k: string, t: Tags)
    requires Inv(s) && Enabled(s, act) && OutputOf(s.prompts, uid, k) && TaggedAs(s, k, t)
    ensures OutputOf(Next(s, act).prompts, uid, k) && TaggedAs(Next(s, act), k, t)
  {
    OutputIsNoPrompt(s.prompts, uid, k);
    StepGrowsPrompts(s, act);
    OutputOfGrows(s.prompts, Next(s, act).prompts, uid, k);
    UpdateWithItself(t);
    match act
    case Publish(uid', session, n, lengths) => NotPublishedAgain(s, uid, k, uid', session, n, lengths);
    case _ =>
  }

  lemma StepGrowsPrompts(s: State, act: Action)
    requires PromptsOk(s) && Enabled(s, act)
    ensures Grows(s.prompts, Next(s, act).prompts)
  {
  }

  lemma {:induction false} LengthsOfOutput(uid: string, session: nat, lengths: seq<map<string, int>>, j: nat)
    requires j < |lengths|
    ensures LengthsOf(uid, session, lengths, OutputKey(uid, session, j)) == lengths[j]
  {
    var last := |lengths| - 1;
    if j < last {
      OutputKeyInjective(uid, session, j, uid, session, last);
      LengthsOfOutput(uid, session, lengths[..last], j);
    }
  }

  /** The moment at which a session publishes: its outputs are new everywhere, and then in the queue with their tags. */
  lemma PublishedOutputsAreTagged(s: State, uid: string, session: nat, n: nat, lengths: seq<map<string, int>>, j: nat)
    requires Inv(s) && Enabled(s, Publish(uid, session, n, lengths)) && j < n
    ensures
      var s', k := Next(s, Publish(uid, session, n, lengths)), OutputKey(uid, session, j);
      var t := Tags(Some(s.prompts[uid].step), Some(Success), lengths[j]);
      && OutputOf(s'.prompts, uid, k) && k in s'.queue && TaggedAs(s', k, t)
  {
    var s', k := Next(s, Publish(uid, session, n, lengths)), OutputKey(uid, session, j);
    assert k in SessionKeys(uid, session, n);
    assert PublishedAt(s'.prompts[uid], uid, k, session, j);
    LengthsOfOutput(uid, session, lengths, j);
    NowhereBefore(s, uid, session, j);
  }

  /** An output that has not been published is in no store. */
  lemma NowhereBefore(s: State, uid: string, session: nat, j: nat)
    requires Inv(s) && uid in s.prompts && session < |s.prompts[uid].sessions| && s.prompts[uid].sessions[session].None?
    ensures
      var k := OutputKey(uid, session, j);
      k !in s.queue && k !in s.buffer && (s.snapshot.Some? ==> k !in s.snapshot.value)
  {
    var k := OutputKey(uid, session, j);
    assert k[|uid|] == '_';
    assert k !in s.prompts;
    forall u ensures !OutputOf(s.prompts, u, k) {
      if OutputOf(s.prompts, u, k) {
        var i: nat, l: nat :| PublishedAt(s.prompts[u], u, k, i, l);
        OutputKeyInjective(u, i, l, uid, session, j);
      }
    }
    assert k in s.queue ==> QueueEntry(s.prompts, k, s.queue[k]);
    assert k in s.buffer ==> BufferEntry(s.prompts, k, s.buffer[k]);
    assert s.snapshot.Some? && k in s.snapshot.value ==> QueueEntry(s.prompts, k, s.snapshot.value[k]);
  }

  lemma TagsStay(run: seq<State>, first: int, n: nat, uid: string, k: string, t: Tags)
    requires IsRun(run, first) && n + 1 < |run| && OutputOf(run[n].prompts, uid, k) && TaggedAs(run[n], k, t)
    ensures OutputOf(run[n + 1].prompts, uid, k) && TaggedAs(run[n + 1], k, t)
  {
    var act := StepAt(run, first, n);
    StepKeepsTags(run[n], act, uid, k, t);
  }

  lemma {:induction false} TagsLast(run: seq<State>, first: int, a: nat, b: nat, uid: string, k: string, t: Tags)
    requires IsRun(run, first) && a <= b < |run| && OutputOf(run[a].prompts, uid, k) && TaggedAs(run[a], k, t)
    ensures OutputOf(run[b].prompts, uid, k) && TaggedAs(run[b], k, t)
    decreases b
  {
    if a < b {
      TagsLast(run, first, a, b - 1, uid, k, t);
      TagsStay(run, first, b - 1, uid, k, t);
    }
  }

  /** At moment `a` a session publishes. */
  ghost predicate PublishesAt(run: seq<State>, a: nat,
                              uid: string, session: nat, n: nat, lengths: seq<map<string, int>>) {
    && a + 1 < |run| && Enabled(run[a], Publish(uid, session, n, lengths))
    && run[a + 1] == Next(run[a], Publish(uid, session, n, lengths))
  }

  lemma PublishedAtMoment(run: seq<State>, first: int, a: nat,
                          uid: string, session: nat, n: nat, lengths: seq<map<string, int>>, j: nat)
    requires IsRun(run, first) && PublishesAt(run, a, uid, session, n, lengths) && j < n
    ensures
      var k, t := OutputKey(uid, session, j), Tags(Some(run[a].prompts[uid].step), Some(Success), lengths[j]);
      OutputOf(run[a + 1].prompts, uid, k) && k in run[a + 1].queue && TaggedAs(run[a + 1], k, t)
  {
    RunKeepsInv(run, first, a);
    PublishedOutputsAreTagged(run[a], uid, session, n, lengths, j);
  }

  /**
   From its publication on an output has, in the queue and in the buffer, the
   tags it was published with, and it is in the queue unless it was sampled.
   */
  lemma OutputsKeepTheirTags(run: seq<State>, first: int, a: nat, b: nat,
                             uid: string, session: nat, n: nat, lengths: seq<map<string, int>>, j: nat)
    requires IsRun(run, first) && a < b < |run| && PublishesAt(run, a, uid, session, n, lengths) && j < n
    ensures
      var k, t := OutputKey(uid, session, j), Tags(Some(run[a].prompts[uid].step), Some(Success), lengths[j]);
      && OutputOf(run[b].prompts, uid, k) && TaggedAs(run[b], k, t)
      && (InNoSample(run[b], k) ==> k in run[b].queue)
  {
    var k, t := OutputKey(uid, session, j), Tags(Some(run[a].prompts[uid].step), Some(Success), lengths[j]);
    PublishedAtMoment(run, first, a, uid, session, n, lengths, j);
    TagsLast(run, first, a + 1, b, uid, k, t);
    if InNoSample(run[b], k) {
      QueueEntriesLast(run, first, a + 1, b, k);
    }
  }

  // ---- sampling

  /** The step with which the trainer samples hands over and records exactly what the step has to offer. */
  lemma SampleIsRecorded(run: seq<State>, first: int, n: nat)
    requires IsRun(run, first) && n + 1 < |run| && run[n].phase == Waiting && run[n + 1].phase != Waiting
    ensures run[n + 1].phase.Sampled? && SampledExactly(run[n], run[n + 1].phase.keys)
    ensures run[n + 1].samples == run[n].samples + [Sample(run[n].step, run[n + 1].phase.keys)]
  {
    var act := StepAt(run, first, n);
    assert act == TakeSample;
    SampleIsExact(run, first, n);
  }

  /** The number of samples that the trainer has removed. */
  function Removed(s: State): int {
    |s.samples| - if s.phase.Sampled? || s.phase.Cleared? then 1 else 0
  }

  lemma StepCountsSamples(s: State, act: Action)
    requires Enabled(s, act)
    ensures
      var s' := Next(s, act);
      && s'.step - Removed(s') == s.step - Removed(s)
      && (s'.samples == s.samples
          || (s.phase == Waiting && exists keys :: s'.samples == s.samples + [Sample(s.step, keys)]))
  {
  }

  /** One sample per training step: sample `i` is that of step `first + i`. */
  lemma {:induction false} SamplesAreConsecutive(run: seq<State>, first: int, n: nat)
    requires IsRun(run, first) && n < |run|
    ensures run[n].step == first + Removed(run[n])
    ensures forall i :: 0 <= i < |run[n].samples| ==> run[n].samples[i].step == first + i
  {
    if n > 0 {
      SamplesAreConsecutive(run, first, n - 1);
      CountedSoFar(run, first, n - 1);
    }
  }

  lemma CountedSoFar(run: seq<State>, first: int, n: nat)
    requires IsRun(run, first) && n + 1 < |run|
    ensures
      var s, s' := run[n], run[n + 1];
      && s'.step - Removed(s') == s.step - Removed(s)
      && (s'.samples == s.samples
          || (s.phase == Waiting && exists keys :: s'.samples == s.samples + [Sample(s.step, keys)]))
  {
    var act := StepAt(run, first, n);
    StepCountsSamples(run[n], act);
  }

  // ---- clearing and removing

  /** `k` is gone from the queue, and survives elsewhere only if the snapshot `old'` brings it back. */
  predicate Gone(s: State, k: string, step: int, old': Option<map<string, Tags>>) {
    && k !in s.queue
    && (s.snapshot.Some? && k in s.snapshot.value ==> old'.Some? && k in old'.value)
    && (s.step > step && k in s.buffer ==> old'.Some? && k in old'.value)
  }

  lemma StepKeepsGone(s: State, act: Action, uid: string, k: string, step: int, old': Option<map<string, Tags>>)
    requires Inv(s) && Enabled(s, act) && OutputOf(s.prompts, uid, k) && Gone(s, k, step, old') && s.step >= step
    requires s.step == step ==> s.phase.Cleared? && k in s.phase.keys
    ensures
      var s' := Next(s, act);
      && OutputOf(s'.prompts, uid, k) && Gone(s', k, step, old') && s'.step >= step
      && (s'.step == step ==> s'.phase.Cleared? && k in s'.phase.keys)
  {
    OutputIsNoPrompt(s.prompts, uid, k);
    StepGrowsPrompts(s, act);
    OutputOfGrows(s.prompts, Next(s, act).prompts, uid, k);
    match act
    case Publish(uid', session, n, lengths) => NotPublishedAgain(s, uid, k, uid', session, n, lengths);
    case _ =>
  }

  lemma KeyStaysGone(run: seq<State>, first: int, n: nat, uid: string, k: string, step: int,
                     old': Option<map<string, Tags>>)
    requires IsRun(run, first) && n + 1 < |run| && OutputOf(run[n].prompts, uid, k)
    requires Gone(run[n], k, step, old') && run[n].step >= step
    requires run[n].step == step ==> run[n].phase.Cleared? && k in run[n].phase.keys
    ensures OutputOf(run[n + 1].prompts, uid, k)
    ensures Gone(run[n + 1], k, step, old') && run[n + 1].step >= step
    ensures run[n + 1].step == step ==> run[n + 1].phase.Cleared? && k in run[n + 1].phase.keys
  {
    var act := StepAt(run, first, n);
    StepKeepsGone(run[n], act, uid, k, step, old');
  }

  lemma KeyIsCleared(run: seq<State>, first: int, c: nat, k: string) returns (uid: string)
    requires IsRun(run, first) && c + 1 < |run| && run[c].phase.Sampled? && run[c + 1].phase.Cleared?
    requires k in run[c].phase.keys
    ensures OutputOf(run[c + 1].prompts, uid, k) && run[c + 1].step == run[c].step
    ensures Gone(run[c + 1], k, run[c].step, run[c].snapshot) && k in run[c + 1].phase.keys
  {
    var act := StepAt(run, first, c);
    assert act == Clear;
    uid :| OutputOf(run[c].prompts, uid, k);
  }

  lemma {:induction false} GoneLasts(run: seq<State>, first: int, a: nat, n: nat, uid: string, k: string, step: int,
                                     old': Option<map<string, Tags>>)
    requires IsRun(run, first) && a <= n < |run| && OutputOf(run[a].prompts, uid, k)
    requires Gone(run[a], k, step, old') && run[a].step >= step
    requires run[a].step == step ==> run[a].phase.Cleared? && k in run[a].phase.keys
    ensures OutputOf(run[n].prompts, uid, k)
    ensures Gone(run[n], k, step, old') && run[n].step >= step
    ensures run[n].step == step ==> run[n].phase.Cleared? && k in run[n].phase.keys
    decreases n
  {
    if a < n {
      GoneLasts(run, first, a, n - 1, uid, k, step, old');
      KeyStaysGone(run, first, n - 1, uid, k, step, old');
    }
  }

  /**
   From the moment at which the trainer clears a sample, no key of it is in the
   transfer queue. Once the trainer has removed the sample as well, a key of it
   is in the buffer only if a snapshot read before the clearing held it.
   */
  lemma ClearedKeysStayAway(run: seq<State>, first: int, c: nat, n: nat, k: string)
    requires IsRun(run, first) && c < n < |run| && run[c].phase.Sampled? && run[c + 1].phase.Cleared?
    requires k in run[c].phase.keys
    ensures k !in run[n].queue
    ensures run[n].step > run[c].step && k in run[n].buffer ==>
              run[c].snapshot.Some? && k in run[c].snapshot.value
  {
    var uid := KeyIsCleared(run, first, c, k);
    GoneLasts(run, first, c + 1, n, uid, k, run[c].step, run[c].snapshot);
  }

  // ---- registering

  /** At moment `a` the manager registers prompts. */
  ghost predicate RegistersAt(run: seq<State>, a: nat, counts: map<string, nat>) {
    a + 1 < |run| && Enabled(run[a], Register(counts)) && run[a + 1] == Next(run[a], Register(counts))
  }

  lemma PromptStays(run: seq<State>, first: int, n: nat, uid: string)
    requires IsRun(run, first) && n + 1 < |run| && uid in run[n].prompts
    ensures uid in run[n + 1].prompts && PromptGrows(run[n].prompts[uid], run[n + 1].prompts[uid])
  {
    var act := StepAt(run, first, n);
    StepGrowsPrompts(run[n], act);
  }

  /** A prompt keeps its step and its number of sessions. */
  lemma {:induction false} PromptsLast(run: seq<State>, first: int, a: nat, b: nat, uid: string)
    requires IsRun(run, first) && a <= b < |run| && uid in run[a].prompts
    ensures uid in run[b].prompts && run[b].prompts[uid].step == run[a].prompts[uid].step
    ensures |run[b].prompts[uid].sessions| == |run[a].prompts[uid].sessions|
    decreases b
  {
    if a < b {
      PromptsLast(run, first, a, b - 1, uid);
      PromptStays(run, first, b - 1, uid);
    }
  }

  /** Registered prompts belong to the step in which they were registered, with the sessions they were given. */
  lemma RegisteredPromptsLast(run: seq<State>, first: int, a: nat, b: nat, counts: map<string, nat>, uid: string)
    requires IsRun(run, first) && a < b < |run| && RegistersAt(run, a, counts) && uid in counts
    ensures uid in run[b].prompts && run[b].prompts[uid].step == run[a].step
    ensures |run[b].prompts[uid].sessions| == counts[uid]
  {
    PromptsLast(run, first, a + 1, b, uid);
  }
}
