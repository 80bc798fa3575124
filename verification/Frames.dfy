/** What a single step can change: the frame every invariant is proved against. */
module Frames {
  import opened Prelude
  import opened Machine

  predicate InAttempt(pc: Pc) {
    !(pc.Idle? || pc.DroppingFinalizer? || pc.AddingFinalizer? || pc.Reporting? || pc.Deciding? || pc.Waiting?)
  }

  predicate AfterCommit(pc: Pc) {
    pc.ListingHistory? || pc.Pruning? || pc.Finishing?
  }

  predicate BeforeCommit(pc: Pc) {
    InAttempt(pc) && !AfterCommit(pc)
  }

  predicate BeforeWrite(pc: Pc) {
    pc.MarkingRotating? || pc.CreatingRecord? || pc.CallingProvider? || pc.WritingSecret?
  }

  /** The steps that fill in the current attempt, from its record to its time stamp. */
  predicate FillsAttempt(pc: Pc) {
    pc.CreatingRecord? || pc.CallingProvider? || pc.WritingSecret? || pc.Restarting? || pc.Stamping?
  }

  predicate WritesStatus(pc: Pc) {
    pc.Reporting? || pc.MarkingRotating? || pc.ReportingFailure? || pc.Committing?
  }

  predicate WritesObject(pc: Pc) {
    pc.DroppingFinalizer? || pc.AddingFinalizer? || pc.RemovingAnnotation?
  }

  ghost predicate Begins(s: State, t: State) {
    s.pc.Deciding? && t.pc.MarkingRotating?
  }

  /** At most one revision is added, by a user, by a status write or by an update of the object. */
  ghost predicate RevisionEffect(s: State, i: Input, t: State) {
    || (t.api.hist == s.api.hist && !(i.PutPolicy? && WritesObject(s.pc) && Applies(s, i.write)))
    || (&& |t.api.hist| == |s.api.hist| + 1 && s.api.hist <= t.api.hist && s.api.present
        && (|| (&& FromEnvironment(i)
                && Current(t).edits == Current(s).edits + 1 && Current(t).status == Current(s).status
                && (Current(s).deleting ==> Current(t).deleting))
            || (i.PutPolicy? && WritesStatus(s.pc) && Applies(s, i.write) && Current(t) == WithStoredStatus(s))
            || (i.PutPolicy? && WritesObject(s.pc) && Applies(s, i.write)
                && Current(t) == WithStoredObject(s, i.write))))
  }

  /** Each step fills in fields of its own. */
  ghost predicate Filled(pc: Pc, a: Attempt, b: Attempt) {
    match pc
    case CreatingRecord => b == a.(handle := b.handle)
    case CallingProvider => b == a.(output := b.output, keys := b.keys, target := b.target, data := b.data)
    case WritingSecret => b == a.(write := b.write, copy := b.copy, revision := b.revision)
    case Restarting => b == a.(restarted := b.restarted)
    case Stamping => b == a.(stamp := b.stamp)
    case _ => b == a
  }

  ghost predicate LedgerEffect(s: State, i: Input, t: State) {
    if Begins(s, t) then
      && t.log.ledger == s.log.ledger + [BLANK_ATTEMPT.(decision :=
           Decision(s.mem.version, s.mem.obj.status.lastRotationTime, IsManual(s.mem.obj), s.clock))]
    else if FillsAttempt(s.pc) && !FromEnvironment(i) then
      && |t.log.ledger| == |s.log.ledger|
      && (forall k :: 0 <= k < |s.log.ledger| - 1 ==> t.log.ledger[k] == s.log.ledger[k])
      && (s.log.ledger != [] ==> Filled(s.pc, Last(s.log.ledger), Last(t.log.ledger)))
    else t.log.ledger == s.log.ledger
  }

  ghost predicate RecordEffect(s: State, i: Input, t: State) {
    && (!i.PutSecret? && !i.ForeignSecret? ==> t.api.secrets == s.api.secrets)
    && (!i.CreateRecord? && !i.PutRecord? && !i.ForeignRecord? && !i.TouchRecord? ==> t.api.records == s.api.records)
    && (!i.CreateRecord? && !i.ForeignRecord? && !i.RemoveRecord? && !i.DeleteRecord? ==> t.api.live == s.api.live)
    && (!i.DeleteRecord? ==> t.log.pruned == s.log.pruned)
    && (!i.DeleteRecord? && !i.List? ==> t.log.pruneFaults == s.log.pruneFaults)
    && (!i.DeleteRecord? && !i.List? && !i.ForeignRecord? ==>
          var begun := if Begins(s, t) then 1 else 0;
          t.log.arrivals == s.log.arrivals + begun && t.log.lateArrivals == s.log.lateArrivals + begun)
  }

  /** The environment leaves the worker where it is, or interrupts it. */
  ghost predicate WorkerEffect(s: State, i: Input, t: State) {
    && (FromEnvironment(i) ==> t.mem == s.mem && t.pc == if i.Interrupt? then Idle(Interrupted) else s.pc)
    && (!FromEnvironment(i) && !Expected(s.pc, i) ==> t == s)
    && (t.pc.MarkingRotating? ==> Begins(s, t) || t.pc == s.pc)
    && (t.pc.CreatingRecord? ==> s.pc.MarkingRotating? || t.pc == s.pc)
    && (t.pc.RemovingAnnotation? ==> s.pc.WritingSecret? || t.pc == s.pc)
    && (t.pc.Committing? ==> s.pc.Stamping? || t.pc == s.pc)
    && (t.pc.Pruning? ==> s.pc.ListingHistory? || s.pc.Pruning?)
    && (BeforeCommit(t.pc) ==> BeforeCommit(s.pc) || Begins(s, t))
    && (BeforeWrite(t.pc) ==> BeforeWrite(s.pc) || Begins(s, t))
    && (!i.Fetch? && !i.ReadClock? && !i.PutRecord? ==>
          || (t.mem.version == s.mem.version && t.mem.obj.status == s.mem.obj.status)
          || t.mem == Memory(|t.api.hist| - 1, Current(t)))
    && (!i.ReadClock? ==> t.pc != Reporting(BadSchedule) || t.pc == s.pc)
  }

  ghost predicate Effects(s: State, i: Input, t: State) {
    && s.clock <= t.clock
    && RevisionEffect(s, i, t)
    && (!(i.PutPolicy? && s.pc.Committing?) ==> t.log.commits == s.log.commits)
    && (!(i.PutPolicy? && s.pc.RemovingAnnotation?) ==> t.log.removals == s.log.removals)
    && LedgerEffect(s, i, t)
    && RecordEffect(s, i, t)
    && WorkerEffect(s, i, t)
  }

  // ---------- step by step ----------

  lemma EnvironmentEffects(c: Config, s: State, i: Input)
    requires FromEnvironment(i)
    ensures Effects(s, i, EnvironmentStep(c, s, i))
  {
  }

  lemma FetchEffects(c: Config, s: State, i: Input)
    requires i.Fetch? && s.pc.Idle?
    ensures Effects(s, i, StepFetch(c, s, i.got))
  {
  }

  lemma DecideEffects(c: Config, s: State, i: Input)
    requires i.ReadClock? && s.pc.Deciding?
    ensures Effects(s, i, StepDecide(c, s))
  {
  }

  lemma WaitEffects(c: Config, s: State, i: Input)
    requires i.ReadClock? && s.pc.Waiting?
    ensures Effects(s, i, StepWait(c, s))
  {
  }

  lemma StampEffects(c: Config, s: State, i: Input)
    requires i.ReadClock? && s.pc.Stamping?
    ensures Effects(s, i, StepStamp(c, s))
  {
  }

  lemma FinishEffects(c: Config, s: State, i: Input)
    requires i.ReadClock? && s.pc.Finishing?
    ensures Effects(s, i, StepFinish(c, s))
  {
  }

  lemma DropFinalizerEffects(s: State, i: Input)
    requires i.PutPolicy? && s.pc.DroppingFinalizer?
    ensures Effects(s, i, StepDropFinalizer(s, i.write))
  {
  }

  lemma AddFinalizerEffects(s: State, i: Input)
    requires i.PutPolicy? && s.pc.AddingFinalizer?
    ensures Effects(s, i, StepAddFinalizer(s, i.write))
  {
  }

  lemma ReportEffects(s: State, i: Input)
    requires i.PutPolicy? && s.pc.Reporting?
    ensures Effects(s, i, StepReport(s, i.write))
  {
  }

  lemma MarkRotatingEffects(s: State, i: Input)
    requires i.PutPolicy? && s.pc.MarkingRotating?
    ensures Effects(s, i, StepMarkRotating(s, i.write))
  {
  }

  lemma ReportFailureEffects(s: State, i: Input)
    requires i.PutPolicy? && s.pc.ReportingFailure?
    ensures Effects(s, i, StepReportFailure(s, i.write))
  {
  }

  lemma RemoveAnnotationEffects(s: State, i: Input)
    requires i.PutPolicy? && s.pc.RemovingAnnotation?
    ensures Effects(s, i, StepRemoveAnnotation(s, i.write))
  {
  }

  lemma CommitEffects(s: State, i: Input)
    requires i.PutPolicy? && s.pc.Committing?
    ensures Effects(s, i, StepCommit(s, i.write))
  {
  }

  lemma CreateRecordEffects(c: Config, s: State, i: Input)
    requires i.CreateRecord? && s.pc.CreatingRecord?
    ensures Effects(s, i, StepCreateRecord(c, s, i.reply, i.created))
  {
  }

  lemma CallProviderEffects(c: Config, s: State, i: Input)
    requires i.CallProvider? && s.pc.CallingProvider?
    ensures Effects(s, i, StepCallProvider(c, s, i.output))
  {
  }

  lemma PutSecretEffects(c: Config, s: State, i: Input)
    requires i.PutSecret? && s.pc.WritingSecret?
    ensures Effects(s, i, StepPutSecret(c, s, i.seen, i.reply))
  {
  }

  lemma FailRecordEffects(s: State, i: Input)
    requires i.PutRecord? && s.pc.FailingRecord?
    ensures Effects(s, i, StepFailRecord(s, i.reply))
  {
  }

  lemma FinishRecordEffects(s: State, i: Input)
    requires i.PutRecord? && s.pc.FinishingRecord?
    ensures Effects(s, i, StepFinishRecord(s, i.reply))
  {
  }

  lemma RestartEffects(s: State, i: Input)
    requires i.RestartWorkloads? && s.pc.Restarting?
    ensures Effects(s, i, StepRestart(s, i.updated))
  {
  }

  lemma ListEffects(c: Config, s: State, i: Input)
    requires i.List? && s.pc.ListingHistory?
    ensures Effects(s, i, StepList(c, s, i.listing))
  {
  }

  lemma DeleteEffects(s: State, i: Input)
    requires i.DeleteRecord? && s.pc.Pruning? && s.pc.todo != []
    ensures Effects(s, i, StepDelete(s, i.reply))
  {
  }

  lemma ReadClockEffects(c: Config, s: State, i: Input)
    requires i.ReadClock? && Expected(s.pc, i)
    ensures Effects(s, i, StepReadClock(c, s))
  {
    if s.pc.Deciding? { DecideEffects(c, s, i); }
    else if s.pc.Waiting? { WaitEffects(c, s, i); }
    else if s.pc.Stamping? { StampEffects(c, s, i); }
    else { FinishEffects(c, s, i); }
  }

  lemma PutPolicyEffects(s: State, i: Input)
    requires i.PutPolicy? && Expected(s.pc, i)
    ensures Effects(s, i, StepPutPolicy(s, i.write))
  {
    if s.pc.DroppingFinalizer? { DropFinalizerEffects(s, i); }
    else if s.pc.AddingFinalizer? { AddFinalizerEffects(s, i); }
    else if s.pc.Reporting? { ReportEffects(s, i); }
    else if s.pc.MarkingRotating? { MarkRotatingEffects(s, i); }
    else if s.pc.ReportingFailure? { ReportFailureEffects(s, i); }
    else if s.pc.RemovingAnnotation? { RemoveAnnotationEffects(s, i); }
    else { CommitEffects(s, i); }
  }

  lemma WorkerEffects(c: Config, s: State, i: Input)
    requires Expected(s.pc, i)
    ensures Effects(s, i, WorkerStep(c, s, i))
  {
    match i
    case Fetch(_) => FetchEffects(c, s, i);
    case ReadClock => ReadClockEffects(c, s, i);
    case PutPolicy(_) => PutPolicyEffects(s, i);
    case CreateRecord(_, _) => CreateRecordEffects(c, s, i);
    case CallProvider(_) => CallProviderEffects(c, s, i);
    case PutSecret(_, _) => PutSecretEffects(c, s, i);
    case PutRecord(_) => if s.pc.FailingRecord? { FailRecordEffects(s, i); } else { FinishRecordEffects(s, i); }
    case RestartWorkloads(_) => RestartEffects(s, i);
    case List(_) => ListEffects(c, s, i);
    case DeleteRecord(_) => DeleteEffects(s, i);
  }

  lemma StepEffects(c: Config, s: State, i: Input)
    ensures Effects(s, i, Step(c, s, i))
  {
    if FromEnvironment(i) {
      EnvironmentEffects(c, s, i);
    } else if Expected(s.pc, i) {
      WorkerEffects(c, s, i);
    }
  }
}
