/**
 The audit trail over whole runs: what a record says is what its attempt did, and
 once it says so it never changes.
 */
module Audit {
  import opened Prelude
  import opened Clock
  import opened Api
  import opened Provider
  import opened Machine
  import opened Frames
  import Coherence
  import Secrets
  import Webhook

  predicate Terminal(phase: RecordPhase) {
    phase.Succeeded? || phase.Failed?
  }

  /** The attempt's record is still to be given its phase. */
  predicate Unfinished(pc: Pc) {
    BeforeWrite(pc) || pc.FailingRecord? || pc.RemovingAnnotation? || pc.Restarting? || pc.FinishingRecord?
  }

  predicate Uncreated(pc: Pc) {
    pc.MarkingRotating? || pc.CreatingRecord?
  }

  predicate KeepsKeys(pc: Pc) {
    pc.WritingSecret? || pc.RemovingAnnotation? || pc.Restarting? || pc.FinishingRecord?
  }

  ghost predicate RecordTrue(c: Config, r: Record, a: Attempt) {
    && Matches(c, r) && r.trigger == (if a.decision.manual then Manual else Schedule)
    && !r.phase.Running?
    && (r.phase.Succeeded? ==>
          a.write.Succeeded() && r.rotatedKeys == SecretKeys(a.keys) && r.restarts == a.restarted)
    && (r.phase.Failed? ==> !a.write.Succeeded() && r.rotatedKeys == [] && r.restarts == [])
  }

  ghost predicate RecordsTrue(c: Config, s: State) {
    forall n: nat :: Own(n) in s.api.records ==>
      n < |s.log.ledger| && RecordTrue(c, s.api.records[Own(n)], s.log.ledger[n])
  }

  /** Where the current attempt stands with its record. */
  ghost predicate InProgress(s: State) {
    && (Unfinished(s.pc) ==>
          && s.log.ledger != []
          && (Own(AttemptId(s)) in s.api.records ==> s.api.records[Own(AttemptId(s))].phase.Unrecorded?))
    && (Uncreated(s.pc) ==> Own(AttemptId(s)) !in s.api.records)
    && (s.pc.FailingRecord? ==> !Last(s.log.ledger).write.Succeeded())
    && (KeepsKeys(s.pc) ==> Last(s.log.ledger).keys == s.mem.obj.spec.keys)
  }

  ghost predicate Truthful(c: Config, s: State) {
    RecordsTrue(c, s) && InProgress(s)
  }

  // ---------- one step ----------

  /** A step that leaves the records alone. */
  lemma QuietRecords(c: Config, s: State, i: Input, t: State)
    requires Truthful(c, s) && Effects(s, i, t) && t.api.records == s.api.records
    ensures RecordsTrue(c, t)
  {
    forall n: nat | Own(n) in t.api.records
      ensures n < |t.log.ledger| && RecordTrue(c, t.api.records[Own(n)], t.log.ledger[n])
    {
      assert RecordTrue(c, s.api.records[Own(n)], s.log.ledger[n]);
      assert s.log.ledger[n].decision == t.log.ledger[n].decision;
    }
  }

  lemma TouchKeeps(c: Config, s: State, i: Input)
    requires Truthful(c, s) && (i.TouchRecord? || i.ForeignRecord?)
    ensures Truthful(c, EnvironmentStep(c, s, i))
  {
    var t := EnvironmentStep(c, s, i);
    forall n: nat | Own(n) in t.api.records
      ensures n < |t.log.ledger| && RecordTrue(c, t.api.records[Own(n)], t.log.ledger[n])
    {
      assert RecordTrue(c, s.api.records[Own(n)], s.log.ledger[n]);
    }
  }

  lemma CreateKeeps(c: Config, s: State, reply: Reply, created: Instant)
    requires Truthful(c, s) && s.pc.CreatingRecord?
    ensures Truthful(c, StepCreateRecord(c, s, reply, created))
  {
    var t := StepCreateRecord(c, s, reply, created);
    forall n: nat | Own(n) in t.api.records
      ensures n < |t.log.ledger| && RecordTrue(c, t.api.records[Own(n)], t.log.ledger[n])
    {
      if n != AttemptId(s) {
        assert RecordTrue(c, s.api.records[Own(n)], s.log.ledger[n]);
      }
    }
  }

  lemma FailKeeps(c: Config, s: State, reply: Reply)
    requires Truthful(c, s) && s.pc.FailingRecord?
    ensures Truthful(c, StepFailRecord(s, reply))
  {
    var t := StepFailRecord(s, reply);
    forall n: nat | Own(n) in t.api.records
      ensures n < |t.log.ledger| && RecordTrue(c, t.api.records[Own(n)], t.log.ledger[n])
    {
      assert RecordTrue(c, s.api.records[Own(n)], s.log.ledger[n]);
    }
  }

  lemma FinishKeeps(c: Config, s: State, reply: Reply)
    requires Truthful(c, s) && Coherence.Coherent(c, s) && s.pc.FinishingRecord?
    ensures Truthful(c, StepFinishRecord(s, reply))
  {
    var t := StepFinishRecord(s, reply);
    forall n: nat | Own(n) in t.api.records
      ensures n < |t.log.ledger| && RecordTrue(c, t.api.records[Own(n)], t.log.ledger[n])
    {
      assert RecordTrue(c, s.api.records[Own(n)], s.log.ledger[n]);
    }
  }

  // ---------- the worker's progress ----------

  lemma BeginProgress(c: Config, s: State)
    requires Truthful(c, s) && s.pc.Deciding?
    ensures InProgress(StepDecide(c, s))
  {
    assert Own(|s.log.ledger|) !in s.api.records;
  }

  lemma ProviderProgress(c: Config, s: State, output: Result<Secret, ProviderError>)
    requires Truthful(c, s) && Secrets.Pending(s) && s.pc.CallingProvider?
    ensures InProgress(StepCallProvider(c, s, output))
  {
  }

  lemma SecretProgress(c: Config, s: State, seen: nat, reply: Reply)
    requires Truthful(c, s) && s.pc.WritingSecret?
    ensures InProgress(StepPutSecret(c, s, seen, reply))
  {
  }

  lemma RemovalProgress(c: Config, s: State, w: Write)
    requires Truthful(c, s) && s.pc.RemovingAnnotation?
    ensures InProgress(StepRemoveAnnotation(s, w))
  {
    Webhook.DefaultKeeps(s.mem.obj.spec);
  }

  lemma RestartProgress(c: Config, s: State, updated: seq<bool>)
    requires Truthful(c, s) && s.pc.Restarting?
    ensures InProgress(StepRestart(s, updated))
  {
  }

  lemma MarkProgress(c: Config, s: State, w: Write)
    requires Truthful(c, s) && s.pc.MarkingRotating?
    ensures InProgress(StepMarkRotating(s, w))
  {
  }

  /** Every step that leads to, or stays in, an unfinished attempt. */
  predicate Advances(pc: Pc, i: Input) {
    || (i.ReadClock? && pc.Deciding?)
    || (i.PutPolicy? && (pc.MarkingRotating? || pc.RemovingAnnotation?))
    || (i.CreateRecord? && pc.CreatingRecord?)
    || (i.CallProvider? && pc.CallingProvider?)
    || (i.PutSecret? && pc.WritingSecret?)
    || (i.PutRecord? && (pc.FailingRecord? || pc.FinishingRecord?))
    || (i.RestartWorkloads? && pc.Restarting?)
  }

  lemma AdvanceIsTheStep(c: Config, s: State, i: Input)
    requires Advances(s.pc, i)
    ensures i.ReadClock? ==> Step(c, s, i) == StepDecide(c, s)
    ensures i.PutPolicy? && s.pc.MarkingRotating? ==> Step(c, s, i) == StepMarkRotating(s, i.write)
    ensures i.PutPolicy? && s.pc.RemovingAnnotation? ==> Step(c, s, i) == StepRemoveAnnotation(s, i.write)
    ensures i.CreateRecord? ==> Step(c, s, i) == StepCreateRecord(c, s, i.reply, i.created)
    ensures i.CallProvider? ==> Step(c, s, i) == StepCallProvider(c, s, i.output)
    ensures i.PutSecret? ==> Step(c, s, i) == StepPutSecret(c, s, i.seen, i.reply)
    ensures i.PutRecord? && s.pc.FailingRecord? ==> Step(c, s, i) == StepFailRecord(s, i.reply)
    ensures i.PutRecord? && s.pc.FinishingRecord? ==> Step(c, s, i) == StepFinishRecord(s, i.reply)
    ensures i.RestartWorkloads? ==> Step(c, s, i) == StepRestart(s, i.updated)
  {
  }

  lemma OtherStepsAreFinished(c: Config, s: State, i: Input)
    requires Expected(s.pc, i) && !Advances(s.pc, i)
    ensures !Unfinished(Step(c, s, i).pc)
  {
  }

  lemma AdvanceProgress(c: Config, s: State, i: Input)
    requires Truthful(c, s) && Coherence.Coherent(c, s) && Secrets.Pending(s) && Advances(s.pc, i)
    ensures InProgress(Step(c, s, i))
  {
    AdvanceIsTheStep(c, s, i);
    if s.pc.Deciding? { BeginProgress(c, s); }
    else if s.pc.MarkingRotating? { MarkProgress(c, s, i.write); }
    else if s.pc.RemovingAnnotation? { RemovalProgress(c, s, i.write); }
    else if s.pc.CreatingRecord? { CreateKeeps(c, s, i.reply, i.created); }
    else if s.pc.CallingProvider? { ProviderProgress(c, s, i.output); }
    else if s.pc.WritingSecret? { SecretProgress(c, s, i.seen, i.reply); }
    else if s.pc.FailingRecord? { FailKeeps(c, s, i.reply); }
    else if s.pc.FinishingRecord? { FinishKeeps(c, s, i.reply); }
    else { RestartProgress(c, s, i.updated); }
  }

  lemma StepKeepsRecords(c: Config, s: State, i: Input)
    requires Truthful(c, s) && Coherence.Coherent(c, s)
    ensures RecordsTrue(c, Step(c, s, i))
  {
    StepEffects(c, s, i);
    if i.TouchRecord? || i.ForeignRecord? {
      TouchKeeps(c, s, i);
      Secrets.EnvironmentIsTheStep(c, s, i);
    } else if Advances(s.pc, i) && (i.CreateRecord? || i.PutRecord?) {
      AdvanceIsTheStep(c, s, i);
      if i.CreateRecord? { CreateKeeps(c, s, i.reply, i.created); }
      else if s.pc.FailingRecord? { FailKeeps(c, s, i.reply); }
      else { FinishKeeps(c, s, i.reply); }
    } else {
      QuietRecords(c, s, i, Step(c, s, i));
    }
  }

  lemma QuietProgress(s: State, i: Input, t: State)
    requires InProgress(s) && Effects(s, i, t) && FromEnvironment(i) && t.api.records == s.api.records
    ensures InProgress(t)
  {
  }

  lemma WorkerProgress(c: Config, s: State, i: Input)
    requires Truthful(c, s) && Coherence.Coherent(c, s) && Secrets.Pending(s) && Expected(s.pc, i)
    ensures InProgress(Step(c, s, i))
  {
    if Advances(s.pc, i) {
      AdvanceProgress(c, s, i);
    } else {
      OtherStepsAreFinished(c, s, i);
    }
  }

  lemma StepKeepsProgress(c: Config, s: State, i: Input)
    requires Truthful(c, s) && Coherence.Coherent(c, s) && Secrets.Pending(s)
    ensures InProgress(Step(c, s, i))
  {
    if i.TouchRecord? || i.ForeignRecord? {
      TouchKeeps(c, s, i);
      Secrets.EnvironmentIsTheStep(c, s, i);
    } else if FromEnvironment(i) {
      StepEffects(c, s, i);
      QuietProgress(s, i, Step(c, s, i));
    } else if Expected(s.pc, i) {
      WorkerProgress(c, s, i);
    }
  }

  lemma {:induction false} RunKeeps(c: Config, start: State, inputs: seq<Input>)
    requires Truthful(c, start) && Coherence.Coherent(c, start) && Secrets.SecretsTrue(c, start)
    ensures Truthful(c, Run(c, start, inputs))
  {
    if inputs != [] {
      var n := |inputs| - 1;
      RunKeeps(c, start, inputs[..n]);
      Coherence.RunIsCoherent(c, start, inputs[..n]);
      Secrets.RunKeeps(c, start, inputs[..n]);
      var before := Run(c, start, inputs[..n]);
      assert Secrets.Pending(before);
      StepKeepsRecords(c, before, inputs[n]);
      StepKeepsProgress(c, before, inputs[n]);
    }
  }

  lemma ReachableIsTruthful(c: Config, s: State)
    requires Reachable(c, s)
    ensures Truthful(c, s)
  {
    var spec, rotate, clock, inputs :| UNIX_EPOCH <= clock && s == Run(c, Init(spec, rotate, clock), inputs);
    Coherence.InitIsCoherent(c, spec, rotate, clock);
    RunKeeps(c, Init(spec, rotate, clock), inputs);
  }

  // ---------- the theorems ----------

  /**
   By its fields, every record of an attempt names the policy and its namespace, and says
   that the rotation was manual exactly if the revision read asked for a rotation now.
   */
  lemma RecordSaysWhoAndWhy(c: Config, s: State, n: nat)
    requires Reachable(c, s) && Own(n) in s.api.records
    ensures n < |s.log.ledger| && s.log.ledger[n].decision.read < |s.api.hist|
    ensures var r, read := s.api.records[Own(n)], s.api.hist[s.log.ledger[n].decision.read];
            && r.policy == c.name && r.namespace == c.namespace
            && (r.trigger == Manual <==> read.rotate == Some("now"))
            && (r.trigger == Schedule <==> read.rotate != Some("now"))
  {
    ReachableIsTruthful(c, s);
    Coherence.ReachableIsCoherent(c, s);
    assert RecordTrue(c, s.api.records[Own(n)], s.log.ledger[n]);
    assert Coherence.Justified(c, s.api.hist, s.log.ledger[n].decision);
  }

  /**
   A Succeeded record: its attempt's provider answered, the answer mapped, the rotated
   keys are exactly the keys of the mapped data, and the Secret was either written with
   that data or left alone because the cached copy had that very data. So the Secret
   then held the data, unless it was left alone on an outdated copy.
   */
  lemma SucceededRecordIsTrue(c: Config, s: State, n: nat)
    requires Reachable(c, s) && Own(n) in s.api.records && s.api.records[Own(n)].phase.Succeeded?
    ensures n < |s.log.ledger|
    ensures var a, r := s.log.ledger[n], s.api.records[Own(n)];
            var h := SecretsAt(s.api, a.target);
            && a.output.Ok? && Mapped(a.output.value, a.keys) == Ok(a.data)
            && Elements(r.rotatedKeys) == a.data.Keys && r.restarts == a.restarted
            && (a.write.Written? || a.write.Kept?)
            && (a.write.Written? ==>
                  a.revision < |h| && Secrets.WrittenBy(h[a.revision], n) && h[a.revision].data == a.data)
            && (a.write.Kept? ==>
                  && a.copy < a.revision <= |h| && h[a.copy].Present? && h[a.copy].data == a.data
                  && (a.copy == a.revision - 1 ==> h[a.revision - 1].Present? && h[a.revision - 1].data == a.data))
  {
    ReachableIsTruthful(c, s);
    Secrets.ReachableSecretsTrue(c, s);
    var a := s.log.ledger[n];
    assert RecordTrue(c, s.api.records[Own(n)], a);
    assert Secrets.WriteTrue(c, n, a, SecretsAt(s.api, a.target));
    MappedContents(a.output.value, a.keys);
    if a.write.Written? {
      var h := SecretsAt(s.api, a.target);
      assert Secrets.HistoryTrue(c, s.log.ledger, a.target, h);
      assert Secrets.RevisionTrue(c, s.log.ledger, a.target, h, a.revision);
    }
  }

  /** The call `i` writes the Secret for attempt `n` although it is answered with an error. */
  ghost predicate WritesUnreported(c: Config, s: State, i: Input, n: nat) {
    && i.PutSecret? && s.pc.WritingSecret? && s.log.ledger != [] && n == AttemptId(s)
    && var a := CurrentAttempt(s);
    && var h := SecretsAt(s.api, a.target);
    && i.seen < |h| && Secrets.WritesUnreported(h, i.seen, a.data, c.name, i.reply)
  }

  ghost predicate UnreportedAt(c: Config, start: State, inputs: seq<Input>, j: nat, n: nat) {
    j < |inputs| && WritesUnreported(c, Run(c, start, inputs[..j]), inputs[j], n)
  }

  /** Some call of the run does. */
  ghost predicate WroteUnreported(c: Config, start: State, inputs: seq<Input>, n: nat) {
    exists j: nat :: UnreportedAt(c, start, inputs, j, n)
  }

  ghost predicate LoggedUnreported(s: State, n: nat) {
    n < |s.log.ledger| && s.log.ledger[n].write == Unwritten(true)
  }

  lemma PutLogsUnreported(c: Config, s: State, i: Input, n: nat)
    requires Secrets.Pending(s) && i.PutSecret? && s.pc.WritingSecret?
    ensures LoggedUnreported(StepPutSecret(c, s, i.seen, i.reply), n)
      <==> LoggedUnreported(s, n) || WritesUnreported(c, s, i, n)
  {
    var a := CurrentAttempt(s);
    var h := SecretsAt(s.api, a.target);
    if i.seen < |h| && !CreateOrUpdate(h, i.seen, a.data, c.name, AttemptId(s), i.reply).1.Succeeded() {
      Secrets.FailureWritesIff(h, i.seen, a.data, c.name, AttemptId(s), i.reply);
    }
  }

  lemma QuietLogsNothing(s: State, i: Input, t: State, n: nat)
    requires Effects(s, i, t) && !(i.PutSecret? && s.pc.WritingSecret?)
    ensures LoggedUnreported(t, n) <==> LoggedUnreported(s, n)
  {
  }

  lemma StepLogsUnreported(c: Config, s: State, i: Input, n: nat)
    requires Secrets.Pending(s)
    ensures LoggedUnreported(Step(c, s, i), n) <==> LoggedUnreported(s, n) || WritesUnreported(c, s, i, n)
  {
    if i.PutSecret? && s.pc.WritingSecret? {
      Secrets.SecretIsTheStep(c, s, i.seen, i.reply);
      PutLogsUnreported(c, s, i, n);
    } else {
      StepEffects(c, s, i);
      QuietLogsNothing(s, i, Step(c, s, i), n);
    }
  }

  lemma UnreportedInFront(c: Config, start: State, inputs: seq<Input>, j: nat, n: nat)
    requires j + 1 < |inputs|
    ensures UnreportedAt(c, start, inputs[..|inputs| - 1], j, n) <==> UnreportedAt(c, start, inputs, j, n)
  {
    assert inputs[..|inputs| - 1][..j] == inputs[..j];
  }

  lemma UnreportedInPrefix(c: Config, start: State, inputs: seq<Input>, n: nat)
    requires inputs != []
    ensures WroteUnreported(c, start, inputs, n)
      <==> WroteUnreported(c, start, inputs[..|inputs| - 1], n) || UnreportedAt(c, start, inputs, |inputs| - 1, n)
  {
    forall j: nat | j + 1 < |inputs|
      ensures UnreportedAt(c, start, inputs[..|inputs| - 1], j, n) <==> UnreportedAt(c, start, inputs, j, n)
    {
      UnreportedInFront(c, start, inputs, j, n);
    }
    var front := inputs[..|inputs| - 1];
    if WroteUnreported(c, start, inputs, n) {
      var j: nat :| UnreportedAt(c, start, inputs, j, n);
      assert j < |inputs|;
      assert j + 1 < |inputs| ==> UnreportedAt(c, start, front, j, n);
    }
    if WroteUnreported(c, start, front, n) {
      var j: nat :| UnreportedAt(c, start, front, j, n);
      assert j < |front| && UnreportedAt(c, start, inputs, j, n);
    }
  }

  lemma {:induction false} RunLogsUnreported(c: Config, start: State, inputs: seq<Input>, n: nat)
    requires Secrets.SecretsTrue(c, start) && start.log.ledger == []
    ensures LoggedUnreported(Run(c, start, inputs), n) <==> WroteUnreported(c, start, inputs, n)
  {
    if inputs != [] {
      var front := inputs[..|inputs| - 1];
      RunLogsUnreported(c, start, front, n);
      Secrets.RunKeeps(c, start, front);
      assert Secrets.Pending(Run(c, start, front));
      StepLogsUnreported(c, Run(c, start, front), Last(inputs), n);
      UnreportedInPrefix(c, start, inputs, n);
    }
  }

  /** Some revision of some Secret was written by attempt `n`. */
  ghost predicate LeftRevision(s: State, n: nat) {
    exists key, k ::
      key in s.api.secrets && 0 <= k < |s.api.secrets[key]| && Secrets.WrittenBy(s.api.secrets[key][k], n)
  }

  lemma FailedRecordLogs(c: Config, s: State, n: nat)
    requires Reachable(c, s) && Own(n) in s.api.records && s.api.records[Own(n)].phase.Failed?
    ensures n < |s.log.ledger| && (LeftRevision(s, n) <==> LoggedUnreported(s, n))
    ensures s.api.records[Own(n)].rotatedKeys == [] && s.api.records[Own(n)].restarts == []
  {
    ReachableIsTruthful(c, s);
    Secrets.ReachableSecretsTrue(c, s);
    var a := s.log.ledger[n];
    assert RecordTrue(c, s.api.records[Own(n)], a);
    assert Secrets.WriteTrue(c, n, a, SecretsAt(s.api, a.target));
    forall key, k | key in s.api.secrets && 0 <= k < |s.api.secrets[key]| && Secrets.WrittenBy(s.api.secrets[key][k], n)
      ensures LoggedUnreported(s, n)
    {
      assert Secrets.HistoryTrue(c, s.log.ledger, key, s.api.secrets[key]);
      assert Secrets.RevisionTrue(c, s.log.ledger, key, s.api.secrets[key], k);
    }
  }

  /**
   A Failed record: its attempt left a revision of a Secret exactly if the run lost the
   answer to the attempt's create-or-update while the cached copy was current and not
   yet the wanted Secret. In particular none, if no such answer is ever lost.
   */
  lemma FailedRecordIsTrue(c: Config, spec: Spec, rotate: Option<string>, clock: Instant, inputs: seq<Input>, s: State,
                           n: nat)
    requires UNIX_EPOCH <= clock && s == Run(c, Init(spec, rotate, clock), inputs)
    requires Own(n) in s.api.records && s.api.records[Own(n)].phase.Failed?
    ensures n < |s.log.ledger| && (LeftRevision(s, n) <==> WroteUnreported(c, Init(spec, rotate, clock), inputs, n))
    ensures (forall i :: i in inputs && i.PutSecret? ==> !i.reply.Lost?) ==> !LeftRevision(s, n)
    ensures s.api.records[Own(n)].rotatedKeys == [] && s.api.records[Own(n)].restarts == []
  {
    assert Reachable(c, s);
    FailedRecordLogs(c, s, n);
    RunLogsUnreported(c, Init(spec, rotate, clock), inputs, n);
  }

  /** The phase `Running` that every new record is given is never stored. */
  lemma RunningIsNeverStored(c: Config, s: State, n: nat)
    requires Reachable(c, s) && Own(n) in s.api.records
    ensures !s.api.records[Own(n)].phase.Running?
  {
    ReachableIsTruthful(c, s);
  }

  ghost predicate SameOutcome(s: map<RecordId, Record>, t: map<RecordId, Record>, id: RecordId) {
    id in s && id in t && t[id] == s[id].(version := t[id].version)
  }

  lemma RecordCallsKeepOutcomes(c: Config, s: State, i: Input, id: RecordId)
    requires Truthful(c, s) && id in s.api.records && (Terminal(s.api.records[id].phase) || id.Other?)
    requires Advances(s.pc, i) && (i.CreateRecord? || i.PutRecord?)
    ensures i.CreateRecord? ==> SameOutcome(s.api.records, StepCreateRecord(c, s, i.reply, i.created).api.records, id)
    ensures i.PutRecord? && s.pc.FailingRecord? ==>
      SameOutcome(s.api.records, StepFailRecord(s, i.reply).api.records, id)
    ensures i.PutRecord? && s.pc.FinishingRecord? ==>
      SameOutcome(s.api.records, StepFinishRecord(s, i.reply).api.records, id)
  {
  }

  /** A record that has its outcome keeps it, whatever happens next; only its version can change. */
  lemma OutcomeIsFinal(c: Config, s: State, i: Input, id: RecordId)
    requires Reachable(c, s) && id in s.api.records && (Terminal(s.api.records[id].phase) || id.Other?)
    ensures SameOutcome(s.api.records, Step(c, s, i).api.records, id)
  {
    if i.TouchRecord? || i.ForeignRecord? {
      Secrets.EnvironmentIsTheStep(c, s, i);
    } else if Advances(s.pc, i) && (i.CreateRecord? || i.PutRecord?) {
      ReachableIsTruthful(c, s);
      RecordCallsKeepOutcomes(c, s, i, id);
      AdvanceIsTheStep(c, s, i);
    } else {
      StepEffects(c, s, i);
    }
  }

  lemma {:induction false} OutcomeIsFinalInEveryRun(c: Config, s: State, inputs: seq<Input>, id: RecordId)
    requires Reachable(c, s) && id in s.api.records && Terminal(s.api.records[id].phase)
    ensures var t := Run(c, s, inputs);
            Reachable(c, t) && SameOutcome(s.api.records, t.api.records, id)
  {
    if inputs != [] {
      var n := |inputs| - 1;
      OutcomeIsFinalInEveryRun(c, s, inputs[..n], id);
      OutcomeIsFinal(c, Run(c, s, inputs[..n]), inputs[n], id);
      ReachableStep(c, Run(c, s, inputs[..n]), inputs[n]);
    }
  }
}
