/** Manager, workers, poller and trainer around the replay buffer's train partition. */
module ReplayProtocol {
  import opened Common
  import opened OutputKeys
  import opened ReplayBuffer

  // The manager registers prompts, workers publish outputs and then a final
  // status, a poller copies the transfer queue into the buffer, and the trainer
  // samples, clears and removes. Every step is atomic; they interleave freely.

  datatype Outcome = Generating | Done | Failed

  /** A prompt: per session, the number of outputs it published, once it has. */
  datatype Prompt = Prompt(step: int, sessions: seq<Option<nat>>, outcome: Outcome)

  datatype Phase = Idle | Waiting | Sampled(keys: set<string>) | Cleared(keys: set<string>)

  datatype Sample = Sample(step: int, keys: set<string>)

  datatype State = State(
    step: int, phase: Phase,                        // trainer
    prompts: map<string, Prompt>,                   // workers: every prompt registered so far
    queue: map<string, Tags>,                       // transfer queue
    buffer: map<string, Tags>,                      // replay buffer
    snapshot: Option<map<string, Tags>>,            // poller: read but not yet applied
    samples: seq<Sample>)                           // history

  datatype Action =
    | Register(sessionCounts: map<string, nat>)     // uid to number of sessions
    | Publish(uid: string, session: nat, outputs: nat, lengths: seq<map<string, int>>)
    | Finish(uid: string)
    | Fail(uid: string)
    | Poll
    | ApplyPoll
    | TakeSample
    | Clear
    | Remove

  function Init(step: int): State {
    State(step, Idle, map[], map[], map[], None, [])
  }

  predicate AllPublished(p: Prompt) {
    forall i :: 0 <= i < |p.sessions| ==> p.sessions[i].Some?
  }

  // ---- the steps

  ghost predicate Enabled(s: State, act: Action) {
    match act
    case Register(counts) =>
      s.phase == Idle && forall uid :: uid in counts ==> '_' !in uid && uid !in s.prompts
    case Publish(uid, session, n, lengths) =>
      && |lengths| == n && uid in s.prompts
      && session < |s.prompts[uid].sessions| && s.prompts[uid].sessions[session].None?
    case Finish(uid) =>
      uid in s.prompts && s.prompts[uid].outcome == Generating && AllPublished(s.prompts[uid])
    case Fail(uid) => uid in s.prompts && s.prompts[uid].outcome == Generating
    case Poll => s.snapshot.None?
    case ApplyPoll => s.snapshot.Some?
    case TakeSample => s.phase == Waiting && Ready(s.buffer, s.step)
    case Clear => s.phase.Sampled?
    case Remove => s.phase.Cleared?
  }

  /** The output keys `{uid}_{session}_0 ..` of a session with `n` outputs. */
  function SessionKeys(uid: string, session: nat, n: nat): set<string> {
    set j: nat | j < n :: OutputKey(uid, session, j)
  }

  /** The further tags of the output with key `k`: those at its place in the list. */
  function LengthsOf(uid: string, session: nat, lengths: seq<map<string, int>>, k: string): map<string, int> {
    if lengths == [] then map[]
    else if k == OutputKey(uid, session, |lengths| - 1) then lengths[|lengths| - 1]
    else LengthsOf(uid, session, lengths[..|lengths| - 1], k)
  }

  function PutStatus(m: map<string, Tags>, uid: string, status: Status): map<string, Tags> {
    m[uid := Update(TagsIn(m, uid), Tags(None, Some(status), map[]))]
  }

  ghost function Next(s: State, act: Action): State
    requires Enabled(s, act)
  {
    match act
    case Register(counts) =>
      s.(phase := Waiting,
         buffer := Merge(s.buffer, map uid | uid in counts :: Tags(Some(s.step), Some(Running), map[])),
         prompts := s.prompts + map uid | uid in counts :: Prompt(s.step, seq(counts[uid], _ => None), Generating))
    case Publish(uid, session, n, lengths) =>
      var p := s.prompts[uid];
      s.(queue := s.queue + map k | k in SessionKeys(uid, session, n) ::
                    Tags(Some(p.step), Some(Success), LengthsOf(uid, session, lengths, k)),
         prompts := s.prompts[uid := p.(sessions := p.sessions[session := Some(n)])])
    case Finish(uid) =>
      s.(queue := PutStatus(s.queue, uid, DoneStatus),
         prompts := s.prompts[uid := s.prompts[uid].(outcome := Done)])
    case Fail(uid) =>
      s.(queue := PutStatus(s.queue, uid, Failure),
         prompts := s.prompts[uid := s.prompts[uid].(outcome := Failed)])
    case Poll => s.(snapshot := Some(s.queue))
    case ApplyPoll => s.(buffer := Merge(s.buffer, s.snapshot.value), snapshot := None)
    case TakeSample =>
      var keys := SampleKeys(s.buffer, s.step);
      s.(phase := Sampled(keys), samples := s.samples + [Sample(s.step, keys)])
    case Clear => s.(queue := s.queue - s.phase.keys, phase := Cleared(s.phase.keys))
    case Remove => s.(buffer := s.buffer - s.phase.keys, phase := Idle, step := s.step + 1)
  }

  ghost predicate CanFollow(s: State, s': State) {
    exists act :: Enabled(s, act) && s' == Next(s, act)
  }

  ghost predicate IsRun(run: seq<State>, first: int) {
    |run| > 0 && run[0] == Init(first) && forall n: nat :: StepOk(run, n)
  }

  ghost predicate StepOk(run: seq<State>, n: nat) {
    n + 1 < |run| ==> CanFollow(run[n], run[n + 1])
  }

  // ---- the invariant

  /** `k` is an output that a session of prompt `uid` has published. */
  ghost predicate OutputOf(prompts: map<string, Prompt>, uid: string, k: string) {
    uid in prompts && exists i: nat, j: nat :: PublishedAt(prompts[uid], uid, k, i, j)
  }

  predicate PublishedAt(p: Prompt, uid: string, k: string, i: nat, j: nat) {
    i < |p.sessions| && p.sessions[i].Some? && j < p.sessions[i].value && k == OutputKey(uid, i, j)
  }

  ghost predicate OutputTags(prompts: map<string, Prompt>, k: string, t: Tags) {
    exists uid :: OutputOf(prompts, uid, k) && OfStep(t, prompts[uid].step) && t.status == Some(Success)
  }

  predicate FinalStatus(p: Prompt, status: Option<Status>) {
    (status == Some(DoneStatus) && p.outcome == Done) || (status == Some(Failure) && p.outcome == Failed)
  }

  /** An entry of the transfer queue, or of a snapshot of it. */
  ghost predicate QueueEntry(prompts: map<string, Prompt>, k: string, t: Tags) {
    || (k in prompts && t.globalSteps.None? && FinalStatus(prompts[k], t.status) && t.lengths == map[])
    || OutputTags(prompts, k, t)
  }

  /** An entry of the replay buffer. */
  ghost predicate BufferEntry(prompts: map<string, Prompt>, k: string, t: Tags) {
    || (k in prompts && OfStep(t, prompts[k].step) && t.lengths == map[]
          && (t.status == Some(Running) || FinalStatus(prompts[k], t.status)))
    || OutputTags(prompts, k, t)
  }

  /** Prompts of step `step` that the store shows as finished have all their outputs in it. */
  ghost predicate Complete(prompts: map<string, Prompt>, m: map<string, Tags>, step: int) {
    forall uid, k :: OutputOf(prompts, uid, k) && ShownDone(prompts, m, uid, step) ==> k in m
  }

  predicate ShownDone(prompts: map<string, Prompt>, m: map<string, Tags>, uid: string, step: int) {
    uid in prompts && prompts[uid].step == step && uid in m && m[uid].status == Some(DoneStatus)
  }

  /** Every output published by prompts of the step is in the queue. */
  ghost predicate HoldsAll(prompts: map<string, Prompt>, m: map<string, Tags>, step: int) {
    forall uid, k :: OutputOf(prompts, uid, k) && prompts[uid].step == step ==> k in m
  }

  ghost predicate QueueOk(prompts: map<string, Prompt>, m: map<string, Tags>) {
    forall k :: k in m ==> QueueEntry(prompts, k, m[k])
  }

  ghost predicate BufferOk(prompts: map<string, Prompt>, m: map<string, Tags>) {
    && (forall k :: k in m ==> BufferEntry(prompts, k, m[k]))
    && (forall uid :: uid in prompts ==> uid in m)
  }

  predicate PromptsOk(s: State) {
    forall uid :: uid in s.prompts ==>
      && '_' !in uid && s.prompts[uid].step <= s.step
      && (s.phase == Idle ==> s.prompts[uid].step < s.step)
      && (s.prompts[uid].outcome == Done ==> AllPublished(s.prompts[uid]))
  }

  /** A sample holds outputs of its own step's prompts. */
  ghost predicate KeysOfStep(prompts: map<string, Prompt>, keys: set<string>, step: int) {
    forall k :: k in keys ==> exists uid :: OutputOf(prompts, uid, k) && prompts[uid].step == step
  }

  ghost predicate SamplesOk(s: State) {
    && (forall n :: 0 <= n < |s.samples| ==>
          s.samples[n].step <= s.step && KeysOfStep(s.prompts, s.samples[n].keys, s.samples[n].step))
    && (forall n :: 0 <= n < |s.samples| && (s.phase == Idle || s.phase == Waiting) ==> s.samples[n].step < s.step)
    && (forall m, n :: 0 <= m < n < |s.samples| ==> s.samples[m].step < s.samples[n].step)
  }

  /** The keys that the trainer clears and removes are those of its last sample. */
  predicate LastSampled(s: State)
    requires s.phase.Sampled? || s.phase.Cleared?
  {
    s.samples != [] && s.samples[|s.samples| - 1] == Sample(s.step, s.phase.keys)
  }

  /** Every prompt that is over has its final status in the transfer queue. */
  predicate OverInQueue(prompts: map<string, Prompt>, m: map<string, Tags>) {
    forall uid :: uid in prompts && prompts[uid].outcome != Generating ==> ShownOver(prompts, m, uid)
  }

  predicate ShownOver(prompts: map<string, Prompt>, m: map<string, Tags>, uid: string)
    requires uid in prompts
  {
    uid in m && FinalStatus(prompts[uid], m[uid].status)
  }

  ghost predicate Inv(s: State) {
    && PromptsOk(s) && OverInQueue(s.prompts, s.queue)
    && QueueOk(s.prompts, s.queue) && BufferOk(s.prompts, s.buffer)
    && (s.snapshot.Some? ==> QueueOk(s.prompts, s.snapshot.value))
    && SamplesOk(s)
    && (s.phase.Sampled? || s.phase.Cleared? ==> KeysOfStep(s.prompts, s.phase.keys, s.step) && LastSampled(s))
    && (s.phase == Waiting ==>
          && HoldsAll(s.prompts, s.queue, s.step) && Complete(s.prompts, s.buffer, s.step)
          && (s.snapshot.Some? ==> Complete(s.prompts, s.snapshot.value, s.step)))
  }

  // ---- keys

  lemma OutputIsNoPrompt(prompts: map<string, Prompt>, uid: string, k: string)
    requires OutputOf(prompts, uid, k)
    ensures '_' in k
  {
    var i: nat, j: nat :| PublishedAt(prompts[uid], uid, k, i, j);
    assert OutputKey(uid, i, j)[|uid|] == '_';
  }

  /** Prompt keys are UUIDs, without underscores, and so never output keys. */
  lemma PromptIsNoOutput(prompts: map<string, Prompt>, k: string)
    requires '_' !in k
    ensures forall t :: !OutputTags(prompts, k, t)
    ensures forall uid :: !OutputOf(prompts, uid, k)
  {
    forall uid ensures OutputOf(prompts, uid, k) ==> '_' in k {
      if OutputOf(prompts, uid, k) {
        OutputIsNoPrompt(prompts, uid, k);
      }
    }
  }

  /** An output key belongs to one prompt. */
  lemma OutputHasOnePrompt(prompts: map<string, Prompt>, uid: string, uid': string, k: string)
    requires OutputOf(prompts, uid, k) && OutputOf(prompts, uid', k)
    ensures uid == uid'
  {
    var i: nat, j: nat :| PublishedAt(prompts[uid], uid, k, i, j);
    var i': nat, j': nat :| PublishedAt(prompts[uid'], uid', k, i', j');
    OutputKeyInjective(uid, i, j, uid', i', j');
  }

  /** A prompt that a store shows as finished is finished. */
  lemma ShownDoneIsDone(s: State, m: map<string, Tags>, uid: string, step: int)
    requires PromptsOk(s) && ShownDone(s.prompts, m, uid, step)
    requires QueueOk(s.prompts, m) || BufferOk(s.prompts, m)
    ensures s.prompts[uid].outcome == Done
  {
    PromptIsNoOutput(s.prompts, uid);
  }

  // ---- prompts only make progress

  predicate PromptGrows(p: Prompt, p': Prompt) {
    && p'.step == p.step && |p'.sessions| == |p.sessions|
    && (p.outcome != Generating ==> p'.outcome == p.outcome)
    && forall i :: 0 <= i < |p.sessions| && p.sessions[i].Some? ==> p'.sessions[i] == p.sessions[i]
  }

  ghost predicate Grows(prompts: map<string, Prompt>, prompts': map<string, Prompt>) {
    forall uid :: uid in prompts ==> uid in prompts' && PromptGrows(prompts[uid], prompts'[uid])
  }

  lemma OutputOfGrows(prompts: map<string, Prompt>, prompts': map<string, Prompt>, uid: string, k: string)
    requires Grows(prompts, prompts') && OutputOf(prompts, uid, k)
    ensures OutputOf(prompts', uid, k)
  {
    var i: nat, j: nat :| PublishedAt(prompts[uid], uid, k, i, j);
    assert PublishedAt(prompts'[uid], uid, k, i, j);
  }

  lemma OutputTagsGrows(prompts: map<string, Prompt>, prompts': map<string, Prompt>, k: string, t: Tags)
    requires Grows(prompts, prompts') && OutputTags(prompts, k, t)
    ensures OutputTags(prompts', k, t)
  {
    var uid :| OutputOf(prompts, uid, k) && OfStep(t, prompts[uid].step) && t.status == Some(Success);
    OutputOfGrows(prompts, prompts', uid, k);
  }

  lemma QueueOkGrows(prompts: map<string, Prompt>, prompts': map<string, Prompt>, m: map<string, Tags>)
    requires Grows(prompts, prompts') && QueueOk(prompts, m)
    ensures QueueOk(prompts', m)
  {
    forall k | k in m ensures QueueEntry(prompts', k, m[k]) {
      if OutputTags(prompts, k, m[k]) {
        OutputTagsGrows(prompts, prompts', k, m[k]);
      }
    }
  }

  lemma BufferEntriesGrow(prompts: map<string, Prompt>, prompts': map<string, Prompt>, m: map<string, Tags>)
    requires Grows(prompts, prompts') && forall k :: k in m ==> BufferEntry(prompts, k, m[k])
    ensures forall k :: k in m ==> BufferEntry(prompts', k, m[k])
  {
    forall k | k in m ensures BufferEntry(prompts', k, m[k]) {
      if OutputTags(prompts, k, m[k]) {
        OutputTagsGrows(prompts, prompts', k, m[k]);
      }
    }
  }

  lemma KeysOfStepGrows(prompts: map<string, Prompt>, prompts': map<string, Prompt>, keys: set<string>, step: int)
    requires Grows(prompts, prompts') && KeysOfStep(prompts, keys, step)
    ensures KeysOfStep(prompts', keys, step)
  {
    forall k | k in keys ensures exists uid :: OutputOf(prompts', uid, k) && prompts'[uid].step == step {
      var uid :| OutputOf(prompts, uid, k) && prompts[uid].step == step;
      OutputOfGrows(prompts, prompts', uid, k);
    }
  }

  lemma SamplesGrow(prompts: map<string, Prompt>, prompts': map<string, Prompt>, samples: seq<Sample>)
    requires Grows(prompts, prompts')
    requires forall n :: 0 <= n < |samples| ==> KeysOfStep(prompts, samples[n].keys, samples[n].step)
    ensures forall n :: 0 <= n < |samples| ==> KeysOfStep(prompts', samples[n].keys, samples[n].step)
  {
    forall n | 0 <= n < |samples| ensures KeysOfStep(prompts', samples[n].keys, samples[n].step) {
      KeysOfStepGrows(prompts, prompts', samples[n].keys, samples[n].step);
    }
  }

  /** What a finished prompt has published does not change any more. */
  lemma DoneIsFrozen(prompts: map<string, Prompt>, prompts': map<string, Prompt>, uid: string, k: string)
    requires Grows(prompts, prompts') && uid in prompts && AllPublished(prompts[uid]) && OutputOf(prompts', uid, k)
    ensures OutputOf(prompts, uid, k)
  {
    var i: nat, j: nat :| PublishedAt(prompts'[uid], uid, k, i, j);
    assert PublishedAt(prompts[uid], uid, k, i, j);
  }

  /** A store that was complete stays so while prompts of the step make progress elsewhere. */
  lemma CompleteGrows(s: State, prompts': map<string, Prompt>, m: map<string, Tags>)
    requires PromptsOk(s) && Grows(s.prompts, prompts') && prompts'.Keys == s.prompts.Keys
    requires (QueueOk(s.prompts, m) || BufferOk(s.prompts, m)) && Complete(s.prompts, m, s.step)
    ensures Complete(prompts', m, s.step)
  {
    forall uid, k | OutputOf(prompts', uid, k) && ShownDone(prompts', m, uid, s.step) ensures k in m {
      assert ShownDone(s.prompts, m, uid, s.step);
      ShownDoneIsDone(s, m, uid, s.step);
      DoneIsFrozen(s.prompts, prompts', uid, k);
    }
  }

  // ---- every step keeps the invariant

  /** The parts that only depend on prompts making progress. */
  lemma ProgressKeepsInv(s: State, s': State)
    requires Inv(s) && Grows(s.prompts, s'.prompts) && s'.prompts.Keys == s.prompts.Keys && PromptsOk(s')
    requires s' == s.(queue := s'.queue, prompts := s'.prompts)
    requires QueueOk(s'.prompts, s'.queue) && OverInQueue(s'.prompts, s'.queue)
    requires s.phase == Waiting ==> HoldsAll(s'.prompts, s'.queue, s.step)
    ensures Inv(s')
  {
    BufferEntriesGrow(s.prompts, s'.prompts, s.buffer);
    if s.snapshot.Some? {
      QueueOkGrows(s.prompts, s'.prompts, s.snapshot.value);
    }
    SamplesGrow(s.prompts, s'.prompts, s.samples);
    if s.phase.Sampled? || s.phase.Cleared? {
      KeysOfStepGrows(s.prompts, s'.prompts, s.phase.keys, s.step);
    }
    if s.phase == Waiting {
      CompleteGrows(s, s'.prompts, s.buffer);
      if s.snapshot.Some? {
        CompleteGrows(s, s'.prompts, s.snapshot.value);
      }
    }
  }

  lemma PublishGrows(s: State, uid: string, session: nat, n: nat, lengths: seq<map<string, int>>)
    requires PromptsOk(s) && Enabled(s, Publish(uid, session, n, lengths))
    ensures
      var s' := Next(s, Publish(uid, session, n, lengths));
      Grows(s.prompts, s'.prompts) && PromptsOk(s')
  {
  }

  lemma PublishKeepsInv(s: State, uid: string, session: nat, n: nat, lengths: seq<map<string, int>>)
    requires Inv(s) && Enabled(s, Publish(uid, session, n, lengths))
    ensures Inv(Next(s, Publish(uid, session, n, lengths)))
  {
    var s' := Next(s, Publish(uid, session, n, lengths));
    PublishGrows(s, uid, session, n, lengths);
    PublishKeepsQueue(s, uid, session, n, lengths);
    PublishKeepsOver(s, uid, session, n, lengths);
    if s.phase == Waiting {
      PublishHoldsAll(s, uid, session, n, lengths);
    }
    ProgressKeepsInv(s, s');
  }

  lemma PublishKeepsQueue(s: State, uid: string, session: nat, n: nat, lengths: seq<map<string, int>>)
    requires QueueOk(s.prompts, s.queue) && Enabled(s, Publish(uid, session, n, lengths))
    ensures var s' := Next(s, Publish(uid, session, n, lengths)); QueueOk(s'.prompts, s'.queue)
  {
    var s' := Next(s, Publish(uid, session, n, lengths));
    assert Grows(s.prompts, s'.prompts);
    QueueOkGrows(s.prompts, s'.prompts, s.queue);
    forall k | k in s'.queue ensures QueueEntry(s'.prompts, k, s'.queue[k]) {
      if k in SessionKeys(uid, session, n) {
        var j: nat :| j < n && k == OutputKey(uid, session, j);
        assert PublishedAt(s'.prompts[uid], uid, k, session, j);
        assert OutputOf(s'.prompts, uid, k);
      }
    }
  }

  /** Outputs do not overwrite the status of a prompt. */
  lemma PublishKeepsOver(s: State, uid: string, session: nat, n: nat, lengths: seq<map<string, int>>)
    requires PromptsOk(s) && OverInQueue(s.prompts, s.queue) && Enabled(s, Publish(uid, session, n, lengths))
    ensures var s' := Next(s, Publish(uid, session, n, lengths)); OverInQueue(s'.prompts, s'.queue)
  {
    var s' := Next(s, Publish(uid, session, n, lengths));
    forall u | u in s'.prompts && s'.prompts[u].outcome != Generating ensures ShownOver(s'.prompts, s'.queue, u) {
      assert ShownOver(s.prompts, s.queue, u);
      PromptIsNoSessionKey(u, uid, session, n);
    }
  }

  lemma PromptIsNoSessionKey(u: string, uid: string, session: nat, n: nat)
    requires '_' !in u
    ensures u !in SessionKeys(uid, session, n)
  {
    forall j: nat ensures u != OutputKey(uid, session, j) {
      PromptKeysAreNotOutputKeys(u, uid, session, j);
    }
  }

  lemma PublishHoldsAll(s: State, uid: string, session: nat, n: nat, lengths: seq<map<string, int>>)
    requires HoldsAll(s.prompts, s.queue, s.step) && Enabled(s, Publish(uid, session, n, lengths))
    ensures var s' := Next(s, Publish(uid, session, n, lengths)); HoldsAll(s'.prompts, s'.queue, s.step)
  {
    var s' := Next(s, Publish(uid, session, n, lengths));
    forall u, k | OutputOf(s'.prompts, u, k) && s'.prompts[u].step == s.step ensures k in s'.queue {
      var i: nat, j: nat :| PublishedAt(s'.prompts[u], u, k, i, j);
      if u == uid && i == session {
        assert k in SessionKeys(uid, session, n);
      } else {
        assert PublishedAt(s.prompts[u], u, k, i, j);
        assert OutputOf(s.prompts, u, k);
      }
    }
  }

  /** Prompts that keep their sessions have the same outputs. */
  lemma SameOutputs(prompts: map<string, Prompt>, prompts': map<string, Prompt>, m: map<string, Tags>, step: int)
    requires prompts'.Keys == prompts.Keys && HoldsAll(prompts, m, step)
    requires forall uid :: uid in prompts ==>
      prompts'[uid].sessions == prompts[uid].sessions && prompts'[uid].step == prompts[uid].step
    ensures HoldsAll(prompts', m, step)
  {
    forall uid, k | OutputOf(prompts', uid, k) && prompts'[uid].step == step ensures k in m {
      var i: nat, j: nat :| PublishedAt(prompts'[uid], uid, k, i, j);
      assert PublishedAt(prompts[uid], uid, k, i, j);
      assert OutputOf(prompts, uid, k);
    }
  }

  /** Finishing or failing a prompt. */
  lemma OutcomeKeepsInv(s: State, uid: string, status: Status, outcome: Outcome)
    requires Inv(s) && uid in s.prompts && s.prompts[uid].outcome == Generating
    requires (status == DoneStatus && outcome == Done && AllPublished(s.prompts[uid]))
             || (status == Failure && outcome == Failed)
    ensures Inv(s.(queue := PutStatus(s.queue, uid, status),
                   prompts := s.prompts[uid := s.prompts[uid].(outcome := outcome)]))
  {
    var prompts' := s.prompts[uid := s.prompts[uid].(outcome := outcome)];
    var queue' := PutStatus(s.queue, uid, status);
    OutcomeKeepsQueue(s, uid, status, outcome);
    OutcomeKeepsPrompts(s, uid, outcome);
    if s.phase == Waiting {
      SameOutputs(s.prompts, prompts', s.queue, s.step);
      assert HoldsAll(prompts', queue', s.step);
    }
    ProgressKeepsInv(s, s.(queue := queue', prompts := prompts'));
  }

  lemma OutcomeKeepsPrompts(s: State, uid: string, outcome: Outcome)
    requires PromptsOk(s) && uid in s.prompts && (outcome == Done ==> AllPublished(s.prompts[uid]))
    ensures PromptsOk(s.(prompts := s.prompts[uid := s.prompts[uid].(outcome := outcome)]))
  {
  }

  lemma OutcomeKeepsQueue(s: State, uid: string, status: Status, outcome: Outcome)
    requires PromptsOk(s) && QueueOk(s.prompts, s.queue) && uid in s.prompts && s.prompts[uid].outcome == Generating
    requires (status == DoneStatus && outcome == Done) || (status == Failure && outcome == Failed)
    requires OverInQueue(s.prompts, s.queue)
    ensures QueueOk(s.prompts[uid := s.prompts[uid].(outcome := outcome)], PutStatus(s.queue, uid, status))
    ensures OverInQueue(s.prompts[uid := s.prompts[uid].(outcome := outcome)], PutStatus(s.queue, uid, status))
    ensures Grows(s.prompts, s.prompts[uid := s.prompts[uid].(outcome := outcome)])
  {
    var prompts' := s.prompts[uid := s.prompts[uid].(outcome := outcome)];
    QueueOkGrows(s.prompts, prompts', s.queue);
    PromptIsNoOutput(s.prompts, uid);
    assert QueueEntry(prompts', uid, PutStatus(s.queue, uid, status)[uid]);
    forall u | u in prompts' && prompts'[u].outcome != Generating
      ensures ShownOver(prompts', PutStatus(s.queue, uid, status), u)
    {
      assert u != uid ==> ShownOver(s.prompts, s.queue, u);
    }
  }

  /** New prompts enter the buffer as running. */
  lemma RegisterKeepsBuffer(s: State, counts: map<string, nat>)
    requires BufferOk(s.prompts, s.buffer) && Enabled(s, Register(counts))
    ensures
      var s' := Next(s, Register(counts));
      Grows(s.prompts, s'.prompts) && BufferOk(s'.prompts, s'.buffer)
  {
    var s' := Next(s, Register(counts));
    BufferEntriesGrow(s.prompts, s'.prompts, s.buffer);
    forall uid | uid in counts ensures BufferEntry(s'.prompts, uid, s'.buffer[uid]) {
      NewEntry(s, counts, uid);
    }
  }

  /** A new key has no older tags in the buffer that merging could keep. */
  lemma NewEntry(s: State, counts: map<string, nat>, uid: string)
    requires BufferOk(s.prompts, s.buffer) && Enabled(s, Register(counts)) && uid in counts
    ensures uid !in s.buffer
    ensures BufferEntry(Next(s, Register(counts)).prompts, uid, Next(s, Register(counts)).buffer[uid])
  {
    PromptIsNoOutput(s.prompts, uid);
    assert uid in s.buffer ==> BufferEntry(s.prompts, uid, s.buffer[uid]);
  }

  /** No prompt of the new step has published anything. */
  lemma RegisteredHaveNoOutputs(s: State, counts: map<string, nat>, uid: string, k: string)
    requires PromptsOk(s) && Enabled(s, Register(counts)) && OutputOf(Next(s, Register(counts)).prompts, uid, k)
    ensures Next(s, Register(counts)).prompts[uid].step != s.step
  {
    var i: nat, j: nat :| PublishedAt(Next(s, Register(counts)).prompts[uid], uid, k, i, j);
    assert uid !in counts;
  }

  /** New prompts are running, and of the current step. */
  lemma RegisterKeepsPrompts(s: State, counts: map<string, nat>)
    requires PromptsOk(s) && OverInQueue(s.prompts, s.queue) && Enabled(s, Register(counts))
    ensures
      var s' := Next(s, Register(counts));
      PromptsOk(s') && OverInQueue(s'.prompts, s'.queue)
  {
    var s' := Next(s, Register(counts));
    forall u | u in s'.prompts && s'.prompts[u].outcome != Generating ensures ShownOver(s'.prompts, s'.queue, u) {
      assert u !in counts && ShownOver(s.prompts, s.queue, u);
    }
  }

  /** Without outputs of the new step, every store is complete for it. */
  lemma RegisterStartsStep(s: State, counts: map<string, nat>)
    requires PromptsOk(s) && Enabled(s, Register(counts))
    ensures
      var s' := Next(s, Register(counts));
      && HoldsAll(s'.prompts, s'.queue, s.step) && Complete(s'.prompts, s'.buffer, s.step)
      && (s.snapshot.Some? ==> Complete(s'.prompts, s.snapshot.value, s.step))
  {
    var s' := Next(s, Register(counts));
    forall uid, k | OutputOf(s'.prompts, uid, k) ensures s'.prompts[uid].step != s.step {
      RegisteredHaveNoOutputs(s, counts, uid, k);
    }
  }

  lemma RegisterKeepsInv(s: State, counts: map<string, nat>)
    requires Inv(s) && Enabled(s, Register(counts))
    ensures Inv(Next(s, Register(counts)))
  {
    var s' := Next(s, Register(counts));
    RegisterKeepsPrompts(s, counts);
    RegisterKeepsBuffer(s, counts);
    RegisterStartsStep(s, counts);
    QueueOkGrows(s.prompts, s'.prompts, s.queue);
    if s.snapshot.Some? {
      QueueOkGrows(s.prompts, s'.prompts, s.snapshot.value);
    }
    SamplesGrow(s.prompts, s'.prompts, s.samples);
  }

  /** A merged snapshot keeps every buffer entry in step with the prompts. */
  lemma ApplyPollKeepsBuffer(s: State)
    requires PromptsOk(s) && QueueOk(s.prompts, s.queue) && BufferOk(s.prompts, s.buffer)
    requires Enabled(s, ApplyPoll) && QueueOk(s.prompts, s.snapshot.value)
    ensures BufferOk(s.prompts, Next(s, ApplyPoll).buffer)
  {
    var s', snap := Next(s, ApplyPoll), s.snapshot.value;
    forall k | k in s'.buffer ensures BufferEntry(s.prompts, k, s'.buffer[k]) {
      if k in snap {
        assert QueueEntry(s.prompts, k, snap[k]);
        if OutputTags(s.prompts, k, snap[k]) {
          assert OutputTags(s.prompts, k, s'.buffer[k]);
        } else {
          assert BufferEntry(s.prompts, k, s.buffer[k]);
          PromptIsNoOutput(s.prompts, k);
        }
      }
    }
  }

  lemma ApplyPollIsComplete(s: State)
    requires PromptsOk(s) && Enabled(s, ApplyPoll) && QueueOk(s.prompts, s.snapshot.value)
    requires Complete(s.prompts, s.buffer, s.step) && Complete(s.prompts, s.snapshot.value, s.step)
    ensures Complete(s.prompts, Next(s, ApplyPoll).buffer, s.step)
  {
    var s', snap := Next(s, ApplyPoll), s.snapshot.value;
    forall uid, k | OutputOf(s.prompts, uid, k) && ShownDone(s.prompts, s'.buffer, uid, s.step)
      ensures k in s'.buffer
    {
      if uid in snap {
        assert QueueEntry(s.prompts, uid, snap[uid]);
        PromptIsNoOutput(s.prompts, uid);
        assert ShownDone(s.prompts, snap, uid, s.step);
      } else {
        assert ShownDone(s.prompts, s.buffer, uid, s.step);
      }
    }
  }

  lemma ApplyPollKeepsInv(s: State)
    requires Inv(s) && Enabled(s, ApplyPoll)
    ensures Inv(Next(s, ApplyPoll))
  {
    ApplyPollKeepsBuffer(s);
    if s.phase == Waiting {
      ApplyPollIsComplete(s);
    }
  }

  lemma PollKeepsInv(s: State)
    requires Inv(s) && Enabled(s, Poll)
    ensures Inv(Next(s, Poll))
  {
  }

  /** Sampled keys are outputs of the step's own prompts. */
  lemma SampleIsOfStep(s: State)
    requires Inv(s)
    ensures KeysOfStep(s.prompts, SampleKeys(s.buffer, s.step), s.step)
  {
    forall k | k in SampleKeys(s.buffer, s.step)
      ensures exists uid :: OutputOf(s.prompts, uid, k) && s.prompts[uid].step == s.step
    {
      assert BufferEntry(s.prompts, k, s.buffer[k]);
      var uid :| OutputOf(s.prompts, uid, k) && OfStep(s.buffer[k], s.prompts[uid].step);
      assert s.prompts[uid].step == s.step;
    }
  }

  lemma TakeSampleKeepsInv(s: State)
    requires Inv(s) && Enabled(s, TakeSample)
    ensures Inv(Next(s, TakeSample))
  {
    SampleIsOfStep(s);
  }

  lemma ClearKeepsInv(s: State)
    requires Inv(s) && Enabled(s, Clear)
    ensures Inv(Next(s, Clear))
  {
    var s' := Next(s, Clear);
    forall uid | uid in s.prompts && s.prompts[uid].outcome != Generating ensures ShownOver(s.prompts, s'.queue, uid) {
      assert ShownOver(s.prompts, s.queue, uid);
      PromptIsNoOutput(s.prompts, uid);
    }
  }

  lemma RemoveKeepsInv(s: State)
    requires Inv(s) && Enabled(s, Remove)
    ensures Inv(Next(s, Remove))
  {
    forall uid | uid in s.prompts ensures uid !in s.phase.keys {
      PromptIsNoOutput(s.prompts, uid);
    }
  }

  lemma StepKeepsInv(s: State, act: Action)
    requires Inv(s) && Enabled(s, act)
    ensures Inv(Next(s, act))
  {
    match act
    case Register(counts) => RegisterKeepsInv(s, counts);
    case Publish(uid, session, n, lengths) => PublishKeepsInv(s, uid, session, n, lengths);
    case Finish(uid) => OutcomeKeepsInv(s, uid, DoneStatus, Done);
    case Fail(uid) => OutcomeKeepsInv(s, uid, Failure, Failed);
    case Poll => PollKeepsInv(s);
    case ApplyPoll => ApplyPollKeepsInv(s);
    case TakeSample => TakeSampleKeepsInv(s);
    case Clear => ClearKeepsInv(s);
    case Remove => RemoveKeepsInv(s);
  }

  lemma {:induction false} RunKeepsInv(run: seq<State>, first: int, n: nat)
    requires IsRun(run, first) && n < |run|
    ensures Inv(run[n])
  {
    if n > 0 {
      RunKeepsInv(run, first, n - 1);
      assert StepOk(run, n - 1);
      var act :| Enabled(run[n - 1], act) && run[n] == Next(run[n - 1], act);
      StepKeepsInv(run[n - 1], act);
    }
  }

  // ---- what sampling guarantees

  /** The lookups in `sample` never fail: every buffered key has a step and a status. */
  lemma SampleNeverFails(run: seq<State>, first: int, n: nat)
    requires IsRun(run, first) && n < |run|
    ensures Sampleable(run[n].buffer)
  {
    RunKeepsInv(run, first, n);
    forall k | k in run[n].buffer ensures run[n].buffer[k].globalSteps.Some? && run[n].buffer[k].status.Some? {
      assert BufferEntry(run[n].prompts, k, run[n].buffer[k]);
    }
  }

  ghost predicate SampledExactly(s: State, keys: set<string>) {
    && (forall uid :: uid in s.prompts && s.prompts[uid].step == s.step ==> s.prompts[uid].outcome != Generating)
    && KeysOfStep(s.prompts, keys, s.step)
    && (forall uid, k :: OutputOf(s.prompts, uid, k) && DoneInStep(s, uid) ==> k in keys)
  }

  predicate DoneInStep(s: State, uid: string) {
    uid in s.prompts && s.prompts[uid].step == s.step && s.prompts[uid].outcome == Done
  }

  /**
   When `sample` returns for a step: every prompt of the step has finished or
   failed, every returned key is an output of a prompt of the step, and every
   output of every finished prompt of the step is returned.
   */
  lemma SampleIsExact(run: seq<State>, first: int, n: nat)
    requires IsRun(run, first) && n < |run| && Enabled(run[n], TakeSample)
    ensures SampledExactly(run[n], SampleKeys(run[n].buffer, run[n].step))
  {
    RunKeepsInv(run, first, n);
    var s, keys := run[n], SampleKeys(run[n].buffer, run[n].step);
    SampleIsOfStep(s);
    forall uid | uid in s.prompts && s.prompts[uid].step == s.step
      ensures FinalStatus(s.prompts[uid], s.buffer[uid].status)
    {
      assert BufferEntry(s.prompts, uid, s.buffer[uid]);
      PromptIsNoOutput(s.prompts, uid);
    }
    forall uid, k | OutputOf(s.prompts, uid, k) && DoneInStep(s, uid)
      ensures k in keys
    {
      assert ShownDone(s.prompts, s.buffer, uid, s.step);
      assert k in s.buffer && BufferEntry(s.prompts, k, s.buffer[k]);
      OutputIsNoPrompt(s.prompts, uid, k);
      var u :|
        OutputOf(s.prompts, u, k) && OfStep(s.buffer[k], s.prompts[u].step) && s.buffer[k].status == Some(Success);
      OutputHasOnePrompt(s.prompts, uid, u, k);
    }
  }

  /**
   Over a whole run no key is sampled twice, even when a snapshot taken before
   the queue was cleared is applied after the buffer was.
   */
  lemma NoKeyIsSampledTwice(run: seq<State>, first: int, n: nat, a: nat, b: nat)
    requires IsRun(run, first) && n < |run| && a < b < |run[n].samples|
    ensures run[n].samples[a].keys !! run[n].samples[b].keys
  {
    RunKeepsInv(run, first, n);
    var s := run[n];
    forall k | k in s.samples[a].keys && k in s.samples[b].keys ensures false {
      var u :| OutputOf(s.prompts, u, k) && s.prompts[u].step == s.samples[a].step;
      var u' :| OutputOf(s.prompts, u', k) && s.prompts[u'].step == s.samples[b].step;
      OutputHasOnePrompt(s.prompts, u, u', k);
    }
  }

  /** All prompts of the current step are over. */
  predicate StepIsOver(s: State) {
    forall uid :: uid in s.prompts && s.prompts[uid].step == s.step ==> s.prompts[uid].outcome != Generating
  }

  /** Applying a snapshot that shows every prompt of the step makes the sample ready. */
  lemma SnapshotMakesReady(s: State)
    requires Inv(s) && s.snapshot.Some?
    requires forall uid :: uid in s.prompts && s.prompts[uid].step == s.step ==> uid in s.snapshot.value
    ensures Ready(Next(s, ApplyPoll).buffer, s.step)
  {
    var s' := Next(s, ApplyPoll);
    ApplyPollKeepsInv(s);
    forall k | k in s'.buffer && OfStep(s'.buffer[k], s.step) ensures s'.buffer[k].status != Some(Running) {
      assert BufferEntry(s'.prompts, k, s'.buffer[k]);
      if k in s.prompts {
        assert QueueEntry(s.prompts, k, s.snapshot.value[k]);
      }
    }
  }

  /** The poller's next two steps, after it has applied what it may have read already. */
  ghost function PolledOnce(s: State): State {
    var s0 := if s.snapshot.Some? then Next(s, ApplyPoll) else s;
    Next(Next(s0, Poll), ApplyPoll)
  }

  /**
   `sample` does not wait for ever: at any moment of any run at which the trainer
   waits and every prompt of the step is over, one more poll enables the sample.
   */
  lemma PollMakesReady(run: seq<State>, first: int, n: nat)
    requires IsRun(run, first) && n < |run| && run[n].phase == Waiting && StepIsOver(run[n])
    ensures Enabled(PolledOnce(run[n]), TakeSample)
  {
    RunKeepsInv(run, first, n);
    var s := run[n];
    if s.snapshot.Some? {
      ApplyPollKeepsInv(s);
    }
    var s0 := if s.snapshot.Some? then Next(s, ApplyPoll) else s;
    PollKeepsInv(s0);
    var s1 := Next(s0, Poll);
    forall uid | uid in s1.prompts && s1.prompts[uid].step == s1.step ensures uid in s1.snapshot.value {
      assert ShownOver(s1.prompts, s1.queue, uid);
    }
    SnapshotMakesReady(s1);
  }
}
