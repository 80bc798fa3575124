/**
 What ties the worker's memory to the server in every reachable state: the object
 in memory is a stored revision plus the change about to be written, and an attempt
 remembers a revision it was right to act on.
 */
module Coherence {
  import opened Prelude
  import opened Clock
  import opened Api
  import opened Provider
  import opened Machine
  import opened Frames
  import Webhook

  /** Equal up to what the defaulting webhook fills in. */
  ghost predicate SameIntent(p: Policy, q: Policy) {
    Webhook.Default(p.spec) == Webhook.Default(q.spec) && p.deleting == q.deleting && p.edits == q.edits
  }

  /** After the Secret write of a manual attempt the annotation is gone from memory. */
  predicate AfterSecret(pc: Pc) {
    pc.RemovingAnnotation? || pc.Restarting? || pc.FinishingRecord? || pc.Stamping? || pc.Committing? || AfterCommit(pc)
  }

  /** The object in memory is revision `base`, but for what is about to be written. */
  ghost predicate Remembers(base: Policy, pc: Pc, p: Policy) {
    && p.spec == base.spec && p.deleting == base.deleting && p.edits == base.edits
    && (!pc.DroppingFinalizer? && !pc.AddingFinalizer? ==> p.finalizer == base.finalizer)
    && (!AfterSecret(pc) ==> p.rotate == base.rotate)
    && (!pc.Committing? && !AfterCommit(pc) ==> p.status.lastRotationTime == base.status.lastRotationTime)
    && (!pc.DroppingFinalizer? ==> !base.deleting)
    && (pc.Deciding? || pc.Waiting? || InAttempt(pc) ==> !base.spec.suspend && base.finalizer)
    && (pc.Deciding? ==> p == base)
  }

  ghost predicate MemoryCoherent(c: Config, s: State) {
    && s.mem.version < |s.api.hist|
    && var base := s.api.hist[s.mem.version];
    && Remembers(base, s.pc, s.mem.obj)
    && (s.pc.Deciding? || s.pc.Waiting? ==> c.healthy(base.spec.provider, base.spec.params))
  }

  /** The revision an attempt read justified it. */
  ghost predicate Justified(c: Config, h: History, d: Decision) {
    && d.read < |h|
    && var p := h[d.read];
    && !p.deleting && p.finalizer && !p.spec.suspend && c.healthy(p.spec.provider, p.spec.params)
    && d.manual == IsManual(p) && d.seen == p.status.lastRotationTime
    && Due(c, p, d.at).Ok?
    && (Due(c, p, d.at) == Ok(true) || d.manual)
  }

  /** The current attempt still works on what it read. */
  ghost predicate AttemptCoherent(s: State) {
    && s.log.ledger != []
    && var a := Last(s.log.ledger);
    && a.decision.read <= s.mem.version < |s.api.hist|
    && SameIntent(s.api.hist[a.decision.read], s.api.hist[s.mem.version])
    && (!AfterCommit(s.pc) ==> s.api.hist[s.mem.version].status.lastRotationTime == a.decision.seen)
    && (AfterSecret(s.pc) ==> a.write.Succeeded())
    && (s.pc.RemovingAnnotation? ==> a.decision.manual && s.mem.obj.rotate.None?)
    && (s.pc.Committing? ==>
          s.mem.obj.status.lastRotationTime == StoredTime(a.stamp) && a.decision.at <= a.stamp <= s.clock)
  }

  ghost predicate LedgerCoherent(c: Config, s: State) {
    forall k :: 0 <= k < |s.log.ledger| ==>
      Justified(c, s.api.hist, s.log.ledger[k].decision) && UNIX_EPOCH <= s.log.ledger[k].decision.at <= s.clock
  }

  ghost predicate Coherent(c: Config, s: State) {
    && UNIX_EPOCH <= s.clock
    && (!s.pc.Idle? ==> MemoryCoherent(c, s))
    && (InAttempt(s.pc) ==> AttemptCoherent(s))
    && LedgerCoherent(c, s)
  }

  // ---------- revisions and attempts only accumulate ----------

  lemma LongerHistoryKeepsLedger(c: Config, s: State, t: State)
    requires LedgerCoherent(c, s) && s.api.hist <= t.api.hist && s.log.ledger == t.log.ledger && s.clock <= t.clock
    ensures LedgerCoherent(c, t)
  {
    forall k | 0 <= k < |s.log.ledger| ensures Justified(c, t.api.hist, s.log.ledger[k].decision) {
      assert Justified(c, s.api.hist, s.log.ledger[k].decision);
    }
  }

  /** A new revision by anyone leaves the worker's memory as coherent as it was. */
  lemma LongerHistoryKeeps(c: Config, s: State, t: State)
    requires Coherent(c, s) && s.api.hist <= t.api.hist && t == s.(api := t.api)
    ensures Coherent(c, t)
  {
    LongerHistoryKeepsLedger(c, s, t);
  }

  /** Filling in what the current attempt did changes no decision. */
  lemma WithAttemptKeeps(c: Config, s: State, t: State, a: Attempt)
    requires LedgerCoherent(c, s) && a.decision == CurrentAttempt(s).decision
    requires t.api.hist == s.api.hist && t.clock == s.clock && t.log == WithAttempt(s.log, a)
    ensures LedgerCoherent(c, t)
    ensures s.log.ledger != [] ==> t.log.ledger != [] && Last(t.log.ledger) == a
  {
  }

  // ---------- writes of the policy ----------

  /** Writing the status stores the memory's status on top of the revision in memory. */
  lemma StatusStoredOnTop(c: Config, s: State, w: Write)
    requires MemoryCoherent(c, s)
    ensures var api := StatusStored(s, w);
            && s.api.hist <= api.hist
            && (Applies(s, w) ==> Last(api.hist) == s.api.hist[s.mem.version].(status := s.mem.obj.status))
            && (!Applies(s, w) ==> api == s.api)
  {
  }

  /** Writing the object stores the memory's object, perhaps defaulted, with the stored status. */
  lemma ObjectStoredOnTop(c: Config, s: State, w: Write)
    requires MemoryCoherent(c, s)
    ensures var api := ObjectStored(s, w);
            && s.api.hist <= api.hist
            && (Applies(s, w) ==>
                  && api.hist == s.api.hist + [WithStoredObject(s, w)]
                  && SameIntent(Last(api.hist), s.api.hist[s.mem.version])
                  && Last(api.hist).status == s.api.hist[s.mem.version].status
                  && Last(api.hist).spec.suspend == s.mem.obj.spec.suspend)
            && (!Applies(s, w) ==> api == s.api)
  {
    Webhook.DefaultKeeps(s.mem.obj.spec);
  }

  lemma DropFinalizerKeeps(c: Config, s: State, w: Write)
    requires Coherent(c, s) && s.pc.DroppingFinalizer?
    ensures Coherent(c, StepDropFinalizer(s, w))
  {
    ObjectStoredOnTop(c, s, w);
    LongerHistoryKeepsLedger(c, s, StepDropFinalizer(s, w));
  }

  lemma AddFinalizerKeeps(c: Config, s: State, w: Write)
    requires Coherent(c, s) && s.pc.AddingFinalizer?
    ensures Coherent(c, StepAddFinalizer(s, w))
  {
    ObjectStoredOnTop(c, s, w);
    LongerHistoryKeepsLedger(c, s, StepAddFinalizer(s, w));
  }

  lemma ReportKeeps(c: Config, s: State, w: Write)
    requires Coherent(c, s) && s.pc.Reporting?
    ensures Coherent(c, StepReport(s, w))
  {
    StatusStoredOnTop(c, s, w);
    LongerHistoryKeepsLedger(c, s, StepReport(s, w));
  }

  lemma ReportFailureKeeps(c: Config, s: State, w: Write)
    requires Coherent(c, s) && s.pc.ReportingFailure?
    ensures Coherent(c, StepReportFailure(s, w))
  {
    StatusStoredOnTop(c, s, w);
    LongerHistoryKeepsLedger(c, s, StepReportFailure(s, w));
  }

  lemma MarkRotatingKeeps(c: Config, s: State, w: Write)
    requires Coherent(c, s) && s.pc.MarkingRotating?
    ensures Coherent(c, StepMarkRotating(s, w))
  {
    StatusStoredOnTop(c, s, w);
    LongerHistoryKeepsLedger(c, s, StepMarkRotating(s, w));
  }

  lemma RemoveAnnotationKeeps(c: Config, s: State, w: Write)
    requires Coherent(c, s) && s.pc.RemovingAnnotation?
    ensures Coherent(c, StepRemoveAnnotation(s, w))
  {
    ObjectStoredOnTop(c, s, w);
    LongerHistoryKeepsLedger(c, s, StepRemoveAnnotation(s, w));
  }

  lemma CommitKeeps(c: Config, s: State, w: Write)
    requires Coherent(c, s) && s.pc.Committing?
    ensures Coherent(c, StepCommit(s, w))
  {
    StatusStoredOnTop(c, s, w);
    LongerHistoryKeepsLedger(c, s, StepCommit(s, w));
  }

  // ---------- the other calls ----------

  lemma FetchKeeps(c: Config, s: State, got: Got)
    requires Coherent(c, s) && s.pc.Idle?
    ensures Coherent(c, StepFetch(c, s, got))
  {
  }

  lemma DecideKeeps(c: Config, s: State)
    requires Coherent(c, s) && s.pc.Deciding?
    ensures Coherent(c, StepDecide(c, s))
  {
    var t := StepDecide(c, s);
    if t.pc.MarkingRotating? {
      assert s.mem.obj == s.api.hist[s.mem.version];
      assert Justified(c, s.api.hist, Last(t.log.ledger).decision);
    }
  }

  lemma WaitKeeps(c: Config, s: State)
    requires Coherent(c, s) && s.pc.Waiting?
    ensures Coherent(c, StepWait(c, s))
  {
  }

  lemma StampKeeps(c: Config, s: State)
    requires Coherent(c, s) && s.pc.Stamping?
    ensures Coherent(c, StepStamp(c, s))
  {
    WithAttemptKeeps(c, s, StepStamp(c, s), CurrentAttempt(s).(stamp := s.clock));
  }

  lemma CreateRecordKeeps(c: Config, s: State, reply: Reply, created: Instant)
    requires Coherent(c, s) && s.pc.CreatingRecord?
    ensures Coherent(c, StepCreateRecord(c, s, reply, created))
  {
    var t := StepCreateRecord(c, s, reply, created);
    WithAttemptKeeps(c, s, t, CurrentAttempt(s).(handle := if reply.Accepted? then Named(0) else Unnamed));
  }

  lemma CallProviderKeeps(c: Config, s: State, output: Result<Secret, ProviderError>)
    requires Coherent(c, s) && s.pc.CallingProvider?
    ensures Coherent(c, StepCallProvider(c, s, output))
  {
    var t := StepCallProvider(c, s, output);
    WithAttemptKeeps(c, s, t, Last(t.log.ledger));
  }

  lemma PutSecretKeeps(c: Config, s: State, seen: nat, reply: Reply)
    requires Coherent(c, s) && s.pc.WritingSecret?
    ensures Coherent(c, StepPutSecret(c, s, seen, reply))
  {
    var t := StepPutSecret(c, s, seen, reply);
    if t != s {
      WithAttemptKeeps(c, s, t, Last(t.log.ledger));
    }
  }

  lemma FailRecordKeeps(c: Config, s: State, reply: Reply)
    requires Coherent(c, s) && s.pc.FailingRecord?
    ensures Coherent(c, StepFailRecord(s, reply))
  {
  }

  lemma RestartKeeps(c: Config, s: State, updated: seq<bool>)
    requires Coherent(c, s) && s.pc.Restarting?
    ensures Coherent(c, StepRestart(s, updated))
  {
    var t := StepRestart(s, updated);
    if t != s {
      WithAttemptKeeps(c, s, t, Last(t.log.ledger));
    }
  }

  lemma FinishRecordKeeps(c: Config, s: State, reply: Reply)
    requires Coherent(c, s) && s.pc.FinishingRecord?
    ensures Coherent(c, StepFinishRecord(s, reply))
  {
  }

  lemma ListKeeps(c: Config, s: State, listing: Option<seq<RecordId>>)
    requires Coherent(c, s) && s.pc.ListingHistory?
    ensures Coherent(c, StepList(c, s, listing))
  {
  }

  lemma DeleteKeeps(c: Config, s: State, reply: Reply)
    requires Coherent(c, s) && s.pc.Pruning? && s.pc.todo != []
    ensures Coherent(c, StepDelete(s, reply))
  {
  }

  // ---------- all steps ----------

  lemma EnvironmentKeeps(c: Config, s: State, i: Input)
    requires Coherent(c, s) && FromEnvironment(i)
    ensures Coherent(c, EnvironmentStep(c, s, i))
  {
    var t := EnvironmentStep(c, s, i);
    if !i.Interrupt? && !i.Advance? {
      LongerHistoryKeeps(c, s, s.(api := t.api));
    }
  }

  lemma ReadClockKeeps(c: Config, s: State)
    requires Coherent(c, s)
    ensures Coherent(c, StepReadClock(c, s))
  {
    match s.pc
    case Deciding => DecideKeeps(c, s);
    case Waiting(_) => WaitKeeps(c, s);
    case Stamping => StampKeeps(c, s);
    case _ =>
  }

  lemma PutPolicyKeeps(c: Config, s: State, w: Write)
    requires Coherent(c, s)
    ensures Coherent(c, StepPutPolicy(s, w))
  {
    match s.pc
    case DroppingFinalizer => DropFinalizerKeeps(c, s, w);
    case AddingFinalizer => AddFinalizerKeeps(c, s, w);
    case Reporting(_) => ReportKeeps(c, s, w);
    case MarkingRotating => MarkRotatingKeeps(c, s, w);
    case ReportingFailure => ReportFailureKeeps(c, s, w);
    case RemovingAnnotation => RemoveAnnotationKeeps(c, s, w);
    case Committing => CommitKeeps(c, s, w);
    case _ =>
  }

  lemma WorkerKeeps(c: Config, s: State, i: Input)
    requires Coherent(c, s) && Expected(s.pc, i)
    ensures Coherent(c, WorkerStep(c, s, i))
  {
    match i
    case Fetch(got) => FetchKeeps(c, s, got);
    case ReadClock => ReadClockKeeps(c, s);
    case PutPolicy(w) => PutPolicyKeeps(c, s, w);
    case CreateRecord(reply, created) => CreateRecordKeeps(c, s, reply, created);
    case CallProvider(output) => CallProviderKeeps(c, s, output);
    case PutSecret(seen, reply) => PutSecretKeeps(c, s, seen, reply);
    case PutRecord(reply) =>
      if s.pc.FailingRecord? { FailRecordKeeps(c, s, reply); } else { FinishRecordKeeps(c, s, reply); }
    case RestartWorkloads(updated) => RestartKeeps(c, s, updated);
    case List(listing) => ListKeeps(c, s, listing);
    case DeleteRecord(reply) => DeleteKeeps(c, s, reply);
  }

  lemma StepKeeps(c: Config, s: State, i: Input)
    requires Coherent(c, s)
    ensures Coherent(c, Step(c, s, i))
  {
    if FromEnvironment(i) {
      EnvironmentKeeps(c, s, i);
    } else if Expected(s.pc, i) {
      WorkerKeeps(c, s, i);
    }
  }

  lemma InitIsCoherent(c: Config, spec: Spec, rotate: Option<string>, clock: Instant)
    requires UNIX_EPOCH <= clock
    ensures Coherent(c, Init(spec, rotate, clock))
  {
  }

  lemma {:induction false} RunIsCoherent(c: Config, start: State, inputs: seq<Input>)
    requires Coherent(c, start)
    ensures Coherent(c, Run(c, start, inputs))
  {
    if inputs != [] {
      RunIsCoherent(c, start, inputs[..|inputs| - 1]);
      StepKeeps(c, Run(c, start, inputs[..|inputs| - 1]), Last(inputs));
    }
  }

  lemma ReachableIsCoherent(c: Config, s: State)
    requires Reachable(c, s)
    ensures Coherent(c, s)
  {
    var spec, rotate, clock, inputs :| UNIX_EPOCH <= clock && s == Run(c, Init(spec, rotate, clock), inputs);
    InitIsCoherent(c, spec, rotate, clock);
    RunIsCoherent(c, Init(spec, rotate, clock), inputs);
  }

  /** No provider is called that is not registered or has not accepted the parameters it is called with. */
  lemma OnlyAcceptedParametersAreUsed(c: Config, s: State)
    requires Reachable(c, s) && s.pc.CallingProvider?
    ensures c.healthy(s.mem.obj.spec.provider, s.mem.obj.spec.params)
  {
    ReachableIsCoherent(c, s);
    var d := Last(s.log.ledger).decision;
    assert Justified(c, s.api.hist, d);
    Webhook.DefaultKeeps(s.api.hist[d.read].spec);
    Webhook.DefaultKeeps(s.api.hist[s.mem.version].spec);
  }
}
