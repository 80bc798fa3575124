/**
 The delay a reconcile returns when nothing is due, composed with the reconcile that
 it wakes: neither early nor late, whatever happens in between.
 */
module WakeUps {
  import opened Prelude
  import opened Clock
  import opened Scheduler
  import opened Api
  import opened Machine
  import opened Frames
  import opened Coherence

  // ---------- the invariant ----------

  /** A worker about to compute a delay has found the policy in its memory not due, and not requested. */
  ghost predicate WaitsRightly(c: Config, s: State) {
    s.pc.Waiting? ==>
      && Due(c, s.mem.obj, s.pc.decidedAt) == Ok(false) && !IsManual(s.mem.obj)
      && s.pc.decidedAt <= s.clock
  }

  lemma DecideWaitsRightly(c: Config, s: State)
    requires s.pc.Deciding?
    ensures WaitsRightly(c, StepDecide(c, s)) && Step(c, s, ReadClock) == StepDecide(c, s)
  {
  }

  lemma OnlyDecidingWaits(c: Config, s: State, i: Input)
    requires Expected(s.pc, i) && !s.pc.Deciding?
    ensures !Step(c, s, i).pc.Waiting?
  {
  }

  lemma StepKeepsWaiting(c: Config, s: State, i: Input)
    requires WaitsRightly(c, s)
    ensures WaitsRightly(c, Step(c, s, i))
  {
    StepEffects(c, s, i);
    if Expected(s.pc, i) {
      if s.pc.Deciding? { DecideWaitsRightly(c, s); } else { OnlyDecidingWaits(c, s, i); }
    }
  }

  lemma {:induction false} RunKeepsWaiting(c: Config, start: State, inputs: seq<Input>)
    requires WaitsRightly(c, start)
    ensures WaitsRightly(c, Run(c, start, inputs))
  {
    if inputs != [] {
      RunKeepsWaiting(c, start, inputs[..|inputs| - 1]);
      StepKeepsWaiting(c, Run(c, start, inputs[..|inputs| - 1]), Last(inputs));
    }
  }

  lemma ReachableWaitsRightly(c: Config, s: State)
    requires Reachable(c, s)
    ensures WaitsRightly(c, s)
  {
    var spec, rotate, clock, inputs :| UNIX_EPOCH <= clock && s == Run(c, Init(spec, rotate, clock), inputs);
    RunKeepsWaiting(c, Init(spec, rotate, clock), inputs);
  }

  // ---------- the theorems ----------

  /** When the next rotation falls due, by the fields: at the next fire time, less the window. */
  function Effective(c: Config, p: Policy): Instant
    requires c.parse(p.spec.schedule).Some? && p.status.lastRotationTime.Some?
  {
    c.parse(p.spec.schedule).value(p.status.lastRotationTime.value) - Lead(p.spec.rotationWindow)
  }

  /** The controller runtime sets a timer for a delay only if it is positive. */
  predicate SetsTimer(outcome: Outcome) {
    outcome.RequeueAfter? && outcome.delay > 0
  }

  /** The two policies ask for the same next rotation. */
  predicate SamePlan(p: Policy, q: Policy) {
    p.spec.schedule == q.spec.schedule && Lead(p.spec.rotationWindow) == Lead(q.spec.rotationWindow)
    && p.status.lastRotationTime == q.status.lastRotationTime
  }

  /**
   A reconcile with nothing to do always ends with a delay, whatever comes of its
   status write. The instant it names is the later of the effective time and the
   minimum delay, exactly unless the wait is longer than a duration can be.
   */
  lemma WaitEndsAtEffectiveTime(c: Config, s: State, w: Write) returns (delay: Duration)
    requires Reachable(c, s) && s.pc.Waiting?
    ensures StepWait(c, s).pc == Reporting(NotDue(delay)) && SetsTimer(RequeueAfter(delay))
    ensures StepReport(StepWait(c, s), w).pc == Idle(RequeueAfter(delay))
    ensures s.mem.obj.status.lastRotationTime.Some? && c.parse(s.mem.obj.spec.schedule).Some?
    ensures var effective, earliest := Effective(c, s.mem.obj), s.clock + 30 * SECOND;
            s.clock + delay == (if effective >= earliest then effective else earliest)
            <==> effective - s.clock <= MAX_DURATION
  {
    ReachableWaitsRightly(c, s);
    var p := s.mem.obj;
    var last := p.status.lastRotationTime.value;
    WakeUpIsExact(c.parse, p.spec.schedule, last, p.spec.Window(), s.pc.decidedAt, MIN_REQUEUE_DELAY, s.clock);
    delay := StepWait(c, s).pc.reason.delay;
  }

  /** Whoever decides about the same plan, without a request, starts a rotation exactly from the effective time on. */
  lemma RotatesFromEffectiveTimeOn(c: Config, u: State)
    requires u.pc.Deciding? && !IsManual(u.mem.obj)
    requires c.parse(u.mem.obj.spec.schedule).Some? && u.mem.obj.status.lastRotationTime.Some?
    ensures StepDecide(c, u).pc == if u.clock >= Effective(c, u.mem.obj) then MarkingRotating else Waiting(u.clock)
  {
  }

  /**
   Not early and not missed: a reconcile that decides at or after the wake-up about a
   policy whose plan is unchanged starts the rotation; if the wake-up was put off only
   to the effective time, every earlier one still waits.
   */
  lemma WakeUpFindsTheRotationDue(c: Config, s: State, u: State, w: Write)
    requires Reachable(c, s) && s.pc.Waiting? && u.pc.Deciding? && !IsManual(u.mem.obj)
    requires SamePlan(s.mem.obj, u.mem.obj)
    requires s.mem.obj.status.lastRotationTime.Some? && c.parse(s.mem.obj.spec.schedule).Some?
    requires Effective(c, s.mem.obj) - s.clock <= MAX_DURATION
    ensures StepReport(StepWait(c, s), w).pc.Idle? && StepReport(StepWait(c, s), w).pc.outcome.RequeueAfter?
    ensures var wake := s.clock + StepReport(StepWait(c, s), w).pc.outcome.delay;
            && (u.clock >= wake ==> StepDecide(c, u).pc == MarkingRotating)
            && (u.clock < wake && wake > s.clock + 30 * SECOND ==> StepDecide(c, u).pc == Waiting(u.clock))
  {
    var delay := WaitEndsAtEffectiveTime(c, s, w);
    RotatesFromEffectiveTimeOn(c, u);
  }

  // ---------- the delay after a rotation ----------

  /** After its commit the worker remembers the time it has stored. */
  ghost predicate RemembersStamp(s: State) {
    AfterCommit(s.pc) ==>
      && s.log.ledger != []
      && var stamp := Last(s.log.ledger).stamp;
      && s.mem.obj.status.lastRotationTime == StoredTime(stamp) && UNIX_EPOCH <= stamp <= s.clock
  }

  lemma CommitRemembers(c: Config, s: State, w: Write)
    requires Coherent(c, s) && s.pc.Committing?
    ensures RemembersStamp(StepCommit(s, w))
  {
    StatusStoredOnTop(c, s, w);
    assert UNIX_EPOCH <= Last(s.log.ledger).decision.at by {
      assert Last(s.log.ledger) == s.log.ledger[|s.log.ledger| - 1];
    }
  }

  /** Only a commit leads to the history, whose steps leave the worker's memory alone. */
  lemma OtherStepsAfterCommit(c: Config, s: State, i: Input)
    requires Expected(s.pc, i) && !s.pc.Committing?
    ensures var t := Step(c, s, i);
            AfterCommit(t.pc) ==>
              AfterCommit(s.pc) && t.mem == s.mem && t.log.ledger == s.log.ledger && t.clock == s.clock
  {
  }

  lemma StepRemembers(c: Config, s: State, i: Input)
    requires Coherent(c, s) && RemembersStamp(s)
    ensures RemembersStamp(Step(c, s, i))
  {
    StepEffects(c, s, i);
    if Expected(s.pc, i) {
      if s.pc.Committing? {
        CommitIsTheStep(c, s, i.write);
        CommitRemembers(c, s, i.write);
      } else {
        OtherStepsAfterCommit(c, s, i);
      }
    }
  }

  lemma {:induction false} RunRemembers(c: Config, start: State, inputs: seq<Input>)
    requires Coherent(c, start) && RemembersStamp(start)
    ensures RemembersStamp(Run(c, start, inputs))
  {
    if inputs != [] {
      var front := inputs[..|inputs| - 1];
      RunIsCoherent(c, start, front);
      RunRemembers(c, start, front);
      StepRemembers(c, Run(c, start, front), Last(inputs));
    }
  }

  lemma ReachableRemembers(c: Config, s: State)
    requires Reachable(c, s)
    ensures RemembersStamp(s)
  {
    var spec, rotate, clock, inputs :| UNIX_EPOCH <= clock && s == Run(c, Init(spec, rotate, clock), inputs);
    InitIsCoherent(c, spec, rotate, clock);
    RunRemembers(c, Init(spec, rotate, clock), inputs);
  }

  /** When the rotation after the one just finished fires next, or the zero time. */
  function NextFire(c: Config, s: State): Instant {
    NextOrZero(c, s.mem.obj.spec.schedule, CurrentAttempt(s).stamp)
  }

  /**
   After a rotation a timer is set exactly if the next fire time still lies ahead. Then
   the wake-up is that time itself, whatever the window, unless the wait is longer than a
   duration can be. It finds the policy due exactly when the window is not negative, and
   then as late as the window is long; the least duration counts as a positive one.
   */
  lemma WakeUpAfterRotation(c: Config, s: State)
    requires Reachable(c, s) && LawfulParser(c.parse) && s.pc.Finishing?
    ensures StepFinish(c, s).pc.Idle? && StepFinish(c, s).pc.outcome.RequeueAfter?
    ensures SetsTimer(StepFinish(c, s).pc.outcome) <==> s.clock < NextFire(c, s)
    ensures s.clock < NextFire(c, s) ==>
            && s.mem.obj.status.lastRotationTime.Some? && c.parse(s.mem.obj.spec.schedule).Some?
            && var p, wake := s.mem.obj, s.clock + StepFinish(c, s).pc.outcome.delay;
            && (wake == NextFire(c, s) <==> NextFire(c, s) - s.clock <= MAX_DURATION)
            && NextFire(c, s) == Effective(c, p) + Lead(p.spec.rotationWindow)
            && (wake == NextFire(c, s) ==> (Due(c, p, wake) == Ok(true) <==> Lead(p.spec.rotationWindow) >= 0))
  {
    ReachableRemembers(c, s);
    ReachableIsCoherent(c, s);
    if s.clock < NextFire(c, s) {
      TruncationKeepsNext(c.parse(s.mem.obj.spec.schedule).value, CurrentAttempt(s).stamp);
    }
  }

  /**
   A rotation that only finishes when the next fire time has passed sets no timer. With a
   window that is not negative the policy is already due again, and this reconcile wakes
   nobody for it.
   */
  lemma LateFinishSetsNoTimer(c: Config, s: State, elapsed: nat)
    requires Reachable(c, s) && LawfulParser(c.parse) && s.pc.Finishing?
    requires ZERO_TIME != NextFire(c, s) <= s.clock + elapsed
    ensures var t := Step(c, s, Advance(elapsed));
            && Reachable(c, t) && t.pc.Finishing? && StepFinish(c, t).pc.Idle?
            && !SetsTimer(StepFinish(c, t).pc.outcome)
            && (Lead(t.mem.obj.spec.rotationWindow) >= 0 ==> Due(c, t.mem.obj, t.clock) == Ok(true))
  {
    var t := Step(c, s, Advance(elapsed));
    ReachableStep(c, s, Advance(elapsed));
    AdvanceLeads(c, s, elapsed);
    ReachableRemembers(c, t);
    WakeUpAfterRotation(c, t);
    TruncationKeepsNext(c.parse(s.mem.obj.spec.schedule).value, CurrentAttempt(s).stamp);
  }

  lemma AdvanceLeads(c: Config, s: State, elapsed: nat)
    ensures Step(c, s, Advance(elapsed)) == s.(clock := s.clock + elapsed)
  {
  }

  /** When the schedule never fires again, or does not parse, the delay is the least duration, and no timer is set. */
  lemma NoWakeUpWithoutNextTime(c: Config, s: State)
    requires Reachable(c, s) && s.pc.Finishing? && NextFire(c, s) == ZERO_TIME
    ensures StepFinish(c, s).pc == Idle(RequeueAfter(MIN_DURATION)) && !SetsTimer(StepFinish(c, s).pc.outcome)
  {
    ReachableIsCoherent(c, s);
    assert ZERO_TIME - s.clock < MIN_DURATION;
  }
}
