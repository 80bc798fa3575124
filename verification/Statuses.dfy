/**
 The status of the policy over whole runs: phase and conditions agree, the next
 rotation time belongs to the last one, and admitted policies never degrade.
 */
module Statuses {
  import opened Prelude
  import opened Clock
  import opened Scheduler
  import opened Api
  import opened Machine
  import opened Frames
  import opened Coherence
  import Webhook

  /** Whether all revisions are supposed to parse. */
  ghost predicate Holds(c: Config, parseable: bool, h: History) {
    parseable ==> forall k :: 0 <= k < |h| ==> c.parse(h[k].spec.schedule).Some?
  }

  function IsReady(status: Status): Option<bool> {
    FindCondition(status.conditions, ReadyCondition)
  }

  /** One condition per type, and a phase that fits the Ready condition. */
  ghost predicate PhaseFits(status: Status) {
    && UniqueConditions(status.conditions)
    && (IsReady(status) == Some(true) ==>
          && status.lastRotationTime.Some? && status.lastRotationRecord.Some?
          && status.phase in {Phase.Ready, Rotating, Phase.Failed})
    && (status.phase == Suspended ==> IsReady(status) == Some(false))
    && (status.phase == Phase.Ready ==> IsReady(status).Some?)
  }

  ghost predicate StatusOk(parseable: bool, status: Status) {
    && PhaseFits(status)
    && (parseable ==> FindCondition(status.conditions, Degraded).None?)
  }

  ghost predicate StatusesOk(c: Config, parseable: bool, s: State) {
    && (forall k :: 0 <= k < |s.api.hist| ==> StatusOk(parseable, s.api.hist[k].status))
    && StatusOk(parseable, s.mem.obj.status)
    && (parseable ==> s.pc != Reporting(Reason.BadSchedule))
  }

  // ---------- the changes the controller makes ----------

  lemma SuspendedOk(parseable: bool, status: Status)
    requires StatusOk(parseable, status)
    ensures StatusOk(parseable, SuspendedStatus(status))
  {
    SetThenFind(status.conditions, Condition(ReadyCondition, false, "Suspended"));
  }

  lemma UnhealthyOk(parseable: bool, status: Status)
    requires StatusOk(parseable, status)
    ensures StatusOk(parseable, UnhealthyStatus(status))
  {
    SetThenFind(status.conditions, Condition(ProviderHealthy, false, "ProviderError"));
  }

  lemma DegradedOk(parseable: bool, status: Status)
    requires StatusOk(parseable, status) && !parseable
    ensures StatusOk(parseable, DegradedStatus(status))
  {
    SetThenFind(status.conditions, Condition(Degraded, true, "InvalidSchedule"));
  }

  lemma FailureOk(parseable: bool, spec: Spec, status: Status)
    requires StatusOk(parseable, status)
    ensures StatusOk(parseable, FailureStatus(spec, status))
  {
    SetThenFind(status.conditions, Condition(ReadyCondition, false, "RotationFailed"));
  }

  lemma SuccessOk(c: Config, parseable: bool, spec: Spec, status: Status, record: RecordRef, now: Instant)
    requires StatusOk(parseable, status) && UNIX_EPOCH <= now
    ensures StatusOk(parseable, SuccessStatus(c, spec, status, record, now))
  {
    var c1 := SetCondition(status.conditions, Condition(ReadyCondition, true, "RotationComplete"));
    var c2 := SetCondition(c1, Condition(Scheduled, true, "NextRotationScheduled"));
    SetThenFind(status.conditions, Condition(ReadyCondition, true, "RotationComplete"));
    SetThenFind(c1, Condition(Scheduled, true, "NextRotationScheduled"));
    SetThenFind(c2, Condition(ProviderHealthy, true, "ProviderReachable"));
  }

  /**
   By its fields, what a rotation that succeeded at `now` leaves in the status: the phase
   Ready, its record, its time and the next one, and three conditions that are true.
   */
  ghost predicate ShowsSuccess(after: Status, record: RecordRef, now: Instant, parsed: Option<Cron>) {
    && after.phase == Phase.Ready && after.lastRotationRecord == Some(record)
    && after.lastRotationTime == (if now == ZERO_TIME then None else Some(Truncate(now)))
    && after.nextRotationTime ==
         (if parsed.Some? && parsed.value(now) != ZERO_TIME then Some(Truncate(parsed.value(now))) else None)
    && FindCondition(after.conditions, ReadyCondition) == Some(true)
    && FindCondition(after.conditions, Scheduled) == Some(true)
    && FindCondition(after.conditions, ProviderHealthy) == Some(true)
  }

  lemma SuccessShows(c: Config, spec: Spec, status: Status, record: RecordRef, now: Instant)
    ensures var after := SuccessStatus(c, spec, status, record, now);
            && ShowsSuccess(after, record, now, c.parse(spec.schedule))
            && FindCondition(after.conditions, Degraded) == FindCondition(status.conditions, Degraded)
  {
    var c1 := SetCondition(status.conditions, Condition(ReadyCondition, true, "RotationComplete"));
    var c2 := SetCondition(c1, Condition(Scheduled, true, "NextRotationScheduled"));
    SetThenFind(status.conditions, Condition(ReadyCondition, true, "RotationComplete"));
    SetThenFind(c1, Condition(Scheduled, true, "NextRotationScheduled"));
    SetThenFind(c2, Condition(ProviderHealthy, true, "ProviderReachable"));
  }

  /** By its fields, what a rotation whose provider call failed leaves in the status. */
  ghost predicate ShowsFailure(before: Status, after: Status, policy: FailurePolicy) {
    && after == before.(phase := after.phase, conditions := after.conditions)
    && after.phase == (if policy == Ignore then Phase.Ready else Phase.Failed)
    && OnlySets(before.conditions, after.conditions, ReadyCondition, false)
  }

  lemma FailureShows(spec: Spec, status: Status)
    ensures ShowsFailure(status, FailureStatus(spec, status), spec.failurePolicy)
  {
    SetThenFind(status.conditions, Condition(ReadyCondition, false, "RotationFailed"));
  }

  // ---------- one step ----------

  lemma FetchKeeps(c: Config, parseable: bool, s: State, got: Got)
    requires StatusesOk(c, parseable, s) && s.pc.Idle?
    ensures StatusesOk(c, parseable, StepFetch(c, s, got))
  {
    if got.Revision? && got.version < |s.api.hist| {
      var p := s.api.hist[got.version];
      SuspendedOk(parseable, p.status);
      UnhealthyOk(parseable, p.status);
    }
  }

  lemma DecideKeeps(c: Config, parseable: bool, s: State)
    requires Coherent(c, s) && StatusesOk(c, parseable, s) && Holds(c, parseable, s.api.hist) && s.pc.Deciding?
    ensures StatusesOk(c, parseable, StepDecide(c, s))
  {
    if !parseable {
      DegradedOk(parseable, s.mem.obj.status);
    } else {
      assert c.parse(s.api.hist[s.mem.version].spec.schedule).Some?;
    }
  }

  lemma WaitKeeps(c: Config, parseable: bool, s: State)
    requires Coherent(c, s) && StatusesOk(c, parseable, s) && Holds(c, parseable, s.api.hist) && s.pc.Waiting?
    ensures StatusesOk(c, parseable, StepWait(c, s))
  {
    assert s.mem.obj.spec == s.api.hist[s.mem.version].spec;
    if !parseable {
      DegradedOk(parseable, s.mem.obj.status);
    }
  }

  lemma StampKeeps(c: Config, parseable: bool, s: State)
    requires Coherent(c, s) && StatusesOk(c, parseable, s) && Holds(c, parseable, s.api.hist) && s.pc.Stamping?
    ensures StatusesOk(c, parseable, StepStamp(c, s))
  {
    assert s.mem.obj.spec == s.api.hist[s.mem.version].spec;
    var record := RecordRef(if CurrentAttempt(s).handle.Named? then Some(AttemptId(s)) else None);
    SuccessOk(c, parseable, s.mem.obj.spec, s.mem.obj.status, record, s.clock);
  }

  lemma ReadClockKeeps(c: Config, parseable: bool, s: State)
    requires Coherent(c, s) && StatusesOk(c, parseable, s) && Holds(c, parseable, s.api.hist)
    ensures StatusesOk(c, parseable, StepReadClock(c, s))
  {
    if s.pc.Deciding? { DecideKeeps(c, parseable, s); }
    else if s.pc.Waiting? { WaitKeeps(c, parseable, s); }
    else if s.pc.Stamping? { StampKeeps(c, parseable, s); }
  }

  lemma PutRecordKeeps(c: Config, parseable: bool, s: State, reply: Reply)
    requires StatusesOk(c, parseable, s)
    ensures StatusesOk(c, parseable, StepPutRecord(s, reply))
  {
    FailureOk(parseable, s.mem.obj.spec, s.mem.obj.status);
  }

  /** All other steps store or read back a status that was fine already. */
  lemma QuietStepKeeps(c: Config, parseable: bool, s: State, i: Input, t: State)
    requires StatusesOk(c, parseable, s) && Effects(s, i, t) && !i.Fetch? && !i.ReadClock? && !i.PutRecord?
    ensures StatusesOk(c, parseable, t)
  {
  }

  lemma CallIsTheStep(c: Config, s: State, i: Input)
    requires Expected(s.pc, i)
    ensures i.Fetch? ==> Step(c, s, i) == StepFetch(c, s, i.got)
    ensures i.ReadClock? ==> Step(c, s, i) == StepReadClock(c, s)
    ensures i.PutRecord? ==> Step(c, s, i) == StepPutRecord(s, i.reply)
  {
  }

  lemma StepKeeps(c: Config, parseable: bool, s: State, i: Input)
    requires Coherent(c, s) && StatusesOk(c, parseable, s) && Holds(c, parseable, s.api.hist)
    ensures StatusesOk(c, parseable, Step(c, s, i))
  {
    if Expected(s.pc, i) && (i.Fetch? || i.ReadClock? || i.PutRecord?) {
      CallIsTheStep(c, s, i);
      if i.Fetch? { FetchKeeps(c, parseable, s, i.got); }
      else if i.ReadClock? { ReadClockKeeps(c, parseable, s); }
      else { PutRecordKeeps(c, parseable, s, i.reply); }
    } else {
      StepEffects(c, s, i);
      if !i.Fetch? && !i.ReadClock? && !i.PutRecord? {
        QuietStepKeeps(c, parseable, s, i, Step(c, s, i));
      }
    }
  }

  lemma PrefixHolds(c: Config, parseable: bool, s: State, i: Input)
    requires Holds(c, parseable, Step(c, s, i).api.hist)
    ensures Holds(c, parseable, s.api.hist)
  {
    StepEffects(c, s, i);
    var h := Step(c, s, i).api.hist;
    assert forall k :: 0 <= k < |s.api.hist| ==> h[k] == s.api.hist[k];
  }

  lemma {:induction false} RunKeeps(c: Config, parseable: bool, start: State, inputs: seq<Input>)
    requires Coherent(c, start) && StatusesOk(c, parseable, start)
    requires Holds(c, parseable, Run(c, start, inputs).api.hist)
    ensures StatusesOk(c, parseable, Run(c, start, inputs))
  {
    if inputs != [] {
      var n := |inputs| - 1;
      var before := Run(c, start, inputs[..n]);
      PrefixHolds(c, parseable, before, inputs[n]);
      RunIsCoherent(c, start, inputs[..n]);
      RunKeeps(c, parseable, start, inputs[..n]);
      StepKeeps(c, parseable, before, inputs[n]);
    }
  }

  lemma ReachableStatusesOk(c: Config, parseable: bool, s: State)
    requires Reachable(c, s) && Holds(c, parseable, s.api.hist)
    ensures StatusesOk(c, parseable, s)
  {
    var spec, rotate, clock, inputs :| UNIX_EPOCH <= clock && s == Run(c, Init(spec, rotate, clock), inputs);
    InitIsCoherent(c, spec, rotate, clock);
    RunKeeps(c, parseable, Init(spec, rotate, clock), inputs);
  }

  // ---------- the theorems ----------

  /** In every stored revision Ready implies a rotation on record and a phase that admits it; suspension excludes it. */
  lemma PhaseAndConditionsAgree(c: Config, s: State, k: nat)
    requires Reachable(c, s) && k < |s.api.hist|
    ensures var status := s.api.hist[k].status;
            && UniqueConditions(status.conditions)
            && (IsReady(status) == Some(true) ==>
                  && status.lastRotationTime.Some? && status.lastRotationRecord.Some?
                  && status.phase in {Phase.Ready, Rotating, Phase.Failed})
            && (status.phase == Suspended ==> IsReady(status) == Some(false))
            && (status.phase == Phase.Ready ==> IsReady(status).Some?)
  {
    ReachableStatusesOk(c, false, s);
  }

  // ---------- the two times ----------

  predicate SameTimes(a: Status, b: Status) {
    a.lastRotationTime == b.lastRotationTime && a.nextRotationTime == b.nextRotationTime
  }

  /** The next time is the schedule's first after the last. */
  predicate TimesFit(c: Config, schedule: string, status: Status) {
    && status.lastRotationTime.Some?
    && status.nextRotationTime == StoredTime(NextOrZero(c, schedule, status.lastRotationTime.value))
  }

  /** A revision has the times of the one before, or times that fit its own schedule. */
  ghost predicate HistoryTimed(c: Config, h: History) {
    && h[0].status.lastRotationTime.None?
    && forall k :: 0 < k < |h| ==>
         SameTimes(h[k].status, h[k - 1].status) || TimesFit(c, h[k].spec.schedule, h[k].status)
  }

  ghost predicate MemoryTimed(c: Config, s: State) {
    && s.mem.version < |s.api.hist|
    && var base := s.api.hist[s.mem.version];
       SameTimes(s.mem.obj.status, base.status) || TimesFit(c, base.spec.schedule, s.mem.obj.status)
  }

  ghost predicate Timed(c: Config, s: State) {
    HistoryTimed(c, s.api.hist) && (!s.pc.Idle? ==> MemoryTimed(c, s))
  }

  lemma StampTimes(c: Config, s: State)
    requires Coherent(c, s) && Timed(c, s) && LawfulParser(c.parse) && s.pc.Stamping?
    ensures TimesFit(c, s.api.hist[s.mem.version].spec.schedule, StepStamp(c, s).mem.obj.status)
  {
    var schedule := s.mem.obj.spec.schedule;
    assert schedule == s.api.hist[s.mem.version].spec.schedule;
    if c.parse(schedule).Some? {
      TruncationKeepsNext(c.parse(schedule).value, s.clock);
    }
  }

  lemma WaitTimes(c: Config, s: State)
    requires Coherent(c, s) && Timed(c, s) && s.pc.Waiting?
    ensures MemoryTimed(c, StepWait(c, s))
  {
    assert s.mem.obj.spec == s.api.hist[s.mem.version].spec;
  }

  lemma ReadClockTimes(c: Config, s: State)
    requires Coherent(c, s) && Timed(c, s) && LawfulParser(c.parse) && !s.pc.Idle?
    ensures MemoryTimed(c, StepReadClock(c, s))
  {
    if s.pc.Waiting? { WaitTimes(c, s); }
    else if s.pc.Stamping? { StampTimes(c, s); }
  }

  lemma FetchTimes(c: Config, s: State, got: Got)
    requires s.pc.Idle?
    ensures !StepFetch(c, s, got).pc.Idle? ==> MemoryTimed(c, StepFetch(c, s, got))
  {
  }

  lemma PutRecordTimes(c: Config, s: State, reply: Reply)
    requires MemoryTimed(c, s)
    ensures MemoryTimed(c, StepPutRecord(s, reply))
  {
  }

  lemma LongerHistoryTimed(c: Config, h: History, t: History)
    requires HistoryTimed(c, h) && |t| == |h| + 1 && h <= t
    requires SameTimes(Last(t).status, Last(h).status) || TimesFit(c, Last(t).spec.schedule, Last(t).status)
    ensures HistoryTimed(c, t)
  {
    forall k | 0 < k < |t|
      ensures SameTimes(t[k].status, t[k - 1].status) || TimesFit(c, t[k].spec.schedule, t[k].status)
    {
      if k < |h| {
        assert t[k] == h[k] && t[k - 1] == h[k - 1];
      }
    }
  }

  /** A new revision has the times of the one before, or those in the worker's memory. */
  lemma NewRevisionTimed(c: Config, s: State, i: Input, t: State)
    requires Coherent(c, s) && Timed(c, s) && Effects(s, i, t) && t.api.hist != s.api.hist
    ensures |t.api.hist| == |s.api.hist| + 1 && s.api.hist <= t.api.hist
    ensures SameTimes(Current(t).status, Current(s).status) || TimesFit(c, Current(t).spec.schedule, Current(t).status)
  {
  }

  lemma HistoryStaysTimed(c: Config, s: State, i: Input, t: State)
    requires Coherent(c, s) && Timed(c, s) && Effects(s, i, t)
    ensures HistoryTimed(c, t.api.hist)
  {
    if t.api.hist != s.api.hist {
      NewRevisionTimed(c, s, i, t);
      LongerHistoryTimed(c, s.api.hist, t.api.hist);
    }
  }

  lemma QuietStepStaysTimed(c: Config, s: State, i: Input, t: State)
    requires Timed(c, s) && Effects(s, i, t) && !s.pc.Idle? && !i.Fetch? && !i.ReadClock? && !i.PutRecord?
    ensures MemoryTimed(c, t)
  {
    assert s.api.hist <= t.api.hist;
    assert t.api.hist[s.mem.version] == s.api.hist[s.mem.version];
  }

  lemma IdleStaysIdle(c: Config, s: State, i: Input)
    requires s.pc.Idle? && !i.Fetch?
    ensures Step(c, s, i).pc.Idle?
  {
    StepEffects(c, s, i);
  }

  lemma CallStaysTimed(c: Config, s: State, i: Input)
    requires Coherent(c, s) && Timed(c, s) && LawfulParser(c.parse)
    requires Expected(s.pc, i) && (i.Fetch? || i.ReadClock? || i.PutRecord?)
    ensures !Step(c, s, i).pc.Idle? ==> MemoryTimed(c, Step(c, s, i))
  {
    CallIsTheStep(c, s, i);
    if i.Fetch? { FetchTimes(c, s, i.got); }
    else if i.ReadClock? { ReadClockTimes(c, s); }
    else { PutRecordTimes(c, s, i.reply); }
  }

  lemma StepStaysTimed(c: Config, s: State, i: Input)
    requires Coherent(c, s) && Timed(c, s) && LawfulParser(c.parse)
    ensures Timed(c, Step(c, s, i))
  {
    StepEffects(c, s, i);
    HistoryStaysTimed(c, s, i, Step(c, s, i));
    if Expected(s.pc, i) && (i.Fetch? || i.ReadClock? || i.PutRecord?) {
      CallStaysTimed(c, s, i);
    } else if s.pc.Idle? {
      if !i.Fetch? { IdleStaysIdle(c, s, i); }
    } else if !i.Fetch? && !i.ReadClock? && !i.PutRecord? {
      QuietStepStaysTimed(c, s, i, Step(c, s, i));
    }
  }

  lemma {:induction false} RunStaysTimed(c: Config, start: State, inputs: seq<Input>)
    requires Coherent(c, start) && Timed(c, start) && LawfulParser(c.parse)
    ensures Timed(c, Run(c, start, inputs))
  {
    if inputs != [] {
      var front := inputs[..|inputs| - 1];
      RunIsCoherent(c, start, front);
      RunStaysTimed(c, start, front);
      StepStaysTimed(c, Run(c, start, front), Last(inputs));
    }
  }

  lemma ReachableIsTimed(c: Config, s: State)
    requires Reachable(c, s) && LawfulParser(c.parse)
    ensures HistoryTimed(c, s.api.hist)
  {
    var spec, rotate, clock, inputs :| UNIX_EPOCH <= clock && s == Run(c, Init(spec, rotate, clock), inputs);
    InitIsCoherent(c, spec, rotate, clock);
    RunStaysTimed(c, Init(spec, rotate, clock), inputs);
  }

  /** The revision that last changed one of the two times, and so the one whose schedule was in force at that write. */
  function Origin(h: History, k: nat): (j: nat)
    requires k < |h|
    ensures j <= k && SameTimes(h[j].status, h[k].status)
  {
    if k > 0 && SameTimes(h[k].status, h[k - 1].status) then Origin(h, k - 1) else k
  }

  lemma {:induction false} OriginFits(c: Config, h: History, k: nat)
    requires HistoryTimed(c, h) && k < |h| && h[k].status.lastRotationTime.Some?
    ensures TimesFit(c, h[Origin(h, k)].spec.schedule, h[k].status)
  {
    if k > 0 && SameTimes(h[k].status, h[k - 1].status) {
      OriginFits(c, h, k - 1);
    }
  }

  /**
   Whatever is edited, every stored next time is the first after the stored last time by
   the schedule that was in force when the two were last written, by whichever writer.
   */
  lemma NextTimeBelongsToLast(c: Config, s: State, k: nat)
    requires Reachable(c, s) && LawfulParser(c.parse) && k < |s.api.hist|
    ensures var status, schedule := s.api.hist[k].status, s.api.hist[Origin(s.api.hist, k)].spec.schedule;
            status.lastRotationTime.Some? ==>
              var parsed, last := c.parse(schedule), status.lastRotationTime.value;
              status.nextRotationTime ==
                if parsed.None? || parsed.value(last) == ZERO_TIME then None else Some(parsed.value(last))
  {
    ReachableIsTimed(c, s);
    var status, schedule := s.api.hist[k].status, s.api.hist[Origin(s.api.hist, k)].spec.schedule;
    if status.lastRotationTime.Some? {
      OriginFits(c, s.api.hist, k);
      FireTimeIsStored(c, schedule, status.lastRotationTime.value);
    }
  }

  /** Fire times are whole seconds, so storing one loses nothing. */
  lemma FireTimeIsStored(c: Config, schedule: string, last: Instant)
    requires LawfulParser(c.parse)
    ensures var parsed := c.parse(schedule);
            StoredTime(NextOrZero(c, schedule, last)) ==
              if parsed.None? || parsed.value(last) == ZERO_TIME then None else Some(parsed.value(last))
  {
    if c.parse(schedule).Some? && c.parse(schedule).value(last) != ZERO_TIME {
      NextIsLater(c.parse(schedule).value, last);
    }
  }

  /** The schedule parses and fires again after the instant. */
  predicate FiresAfter(c: Config, schedule: string, t: Instant) {
    c.parse(schedule).Some? && c.parse(schedule).value(t) != ZERO_TIME
  }

  /**
   A Ready revision always has a last rotation time and a record, and it has a next
   rotation time exactly if the schedule in force at the write of the times parsed and
   fired again after the last.
   */
  lemma ReadyShowsNextTimeIff(c: Config, s: State, k: nat)
    requires Reachable(c, s) && LawfulParser(c.parse) && k < |s.api.hist| && IsReady(s.api.hist[k].status) == Some(true)
    ensures var status, schedule := s.api.hist[k].status, s.api.hist[Origin(s.api.hist, k)].spec.schedule;
            && status.lastRotationTime.Some? && status.lastRotationRecord.Some?
            && (status.nextRotationTime.Some? <==> FiresAfter(c, schedule, status.lastRotationTime.value))
  {
    PhaseAndConditionsAgree(c, s, k);
    NextTimeBelongsToLast(c, s, k);
  }

  /** So with schedules that always fire again, however they are edited, Ready implies all three. */
  lemma ReadyShowsAllTimes(c: Config, s: State, k: nat)
    requires Reachable(c, s) && LawfulParser(c.parse) && k < |s.api.hist| && IsReady(s.api.hist[k].status) == Some(true)
    requires forall j, t :: 0 <= j < |s.api.hist| ==> FiresAfter(c, s.api.hist[j].spec.schedule, t)
    ensures var status := s.api.hist[k].status;
            status.lastRotationTime.Some? && status.nextRotationTime.Some? && status.lastRotationRecord.Some?
  {
    ReadyShowsNextTimeIff(c, s, k);
  }

  ghost predicate AllAdmitted(c: Config, h: History) {
    forall k :: 0 <= k < |h| ==> Webhook.Validate(c.parse, h[k].spec).Ok?
  }

  /** If every revision passed admission, the controller never reports a bad schedule, in its steps or in the status. */
  lemma AdmittedPolicyNeverDegrades(c: Config, s: State)
    requires Reachable(c, s) && AllAdmitted(c, s.api.hist)
    ensures s.pc != Reporting(Reason.BadSchedule)
    ensures forall k :: 0 <= k < |s.api.hist| ==> FindCondition(s.api.hist[k].status.conditions, Degraded).None?
  {
    ReachableStatusesOk(c, true, s);
  }
}
