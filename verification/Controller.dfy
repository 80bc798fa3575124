/**
 The reconciler, method by method. It sees the cluster only through its calls, keeps
 the policy and record objects in memory and changes them in place. Each method is
 proved to make, in order, exactly the calls the machine expects, with the arguments
 the machine expects, so every execution is a run of the machine and every theorem
 about reachable states holds before, during and after it.
 */
module Controller {
  import opened Prelude
  import opened Clock
  import opened Scheduler
  import opened Api
  import opened Provider
  import opened Machine
  import opened Sorting
  import opened Client
  import Commits
  import Restarts
  import Statuses
  import Targets
  import Webhook

  class Reconciler {
    const cluster: Cluster
    const workloads: Restarts.Workloads
    /** How the cluster answers for the i-th restart target, and how an instant is written as text. */
    const answer: nat -> Restarts.Answer
    const text: Instant -> string

    constructor (cluster: Cluster, workloads: Restarts.Workloads, answer: nat -> Restarts.Answer,
                 text: Instant -> string)
      ensures this.cluster == cluster && this.workloads == workloads && this.answer == answer && this.text == text
    {
      this.cluster, this.workloads, this.answer, this.text := cluster, workloads, answer, text;
    }

    // ---------- what a reconcile comes to ----------

    /** No attempt was made, nothing was committed and nothing pruned. */
    ghost predicate Untouched(before: State)
      reads cluster
    {
      cluster.state.log.ledger == before.log.ledger && NothingSettled(before, cluster.state)
    }

    /** The results for a policy that cannot be worked on; a failure is an unacknowledged write. */
    ghost predicate Excused(p: Policy, result: Outcome)
      reads cluster
    {
      if p.deleting then result in {Finished, Failure}
      else if !p.finalizer then result in {Requeue, Failure}
      else if p.spec.suspend then result in {RequeueAfter(5 * MINUTE), Failure}
      else result == RequeueAfter(MINUTE)
    }

    /**
     By the fields: the time left from the clock reading `later` until the rotation after the
     last one falls due, but 30 seconds at least.
     */
    ghost predicate WaitsFor(spec: Spec, last: Instant, later: Instant, result: Outcome) {
      var parsed := cluster.c.parse(spec.schedule);
      parsed.Some? ==>
        var wait := Until(parsed.value(last) - Lead(spec.rotationWindow), later);
        result == RequeueAfter(if wait >= 30 * SECOND then wait else 30 * SECOND)
    }

    /**
     The decision about the policy `p` by the clock at `now`, and what follows from it: an
     attempt, or a delay from the clock reading `later`.
     */
    ghost predicate Decided(before: State, p: Policy, now: Instant, later: Instant, result: Outcome)
      reads cluster
    {
      var ledger, parsed := cluster.state.log.ledger, cluster.c.parse(p.spec.schedule);
      var last, manual := p.status.lastRotationTime, p.rotate == Some("now");
      if last.Some? && parsed.None? then Untouched(before) && result == RequeueAfter(MINUTE)
      else if !manual && !Commits.FallsDue(cluster.c, p.spec, last, now) then
        last.Some? && parsed.Some? && Untouched(before) && WaitsFor(p.spec, last.value, later, result)
      else
        && |ledger| == |before.log.ledger| + 1
        && Last(ledger).decision.manual == manual && Last(ledger).decision.at == now
        && ReturnsFor(before, p.spec, result)
    }

    /**
     By the fields: a policy that was not requested was rotated exactly from the next fire
     time on, or from that time less the window.
     */
    ghost predicate BegunByTheWindow(before: State, p: Policy, now: Instant)
      reads cluster
    {
      var parsed, last, window := cluster.c.parse(p.spec.schedule), p.status.lastRotationTime, p.spec.rotationWindow;
      var begun := |cluster.state.log.ledger| > |before.log.ledger|;
      parsed.Some? && last.Some? && p.rotate != Some("now") ==>
        && (window.None? ==> (begun <==> now >= parsed.value(last.value)))
        && (window.Some? && window.value != MIN_DURATION ==>
              (begun <==> now >= parsed.value(last.value) - window.value))
    }

    /** What the reconcile of the policy `p` has come to since the state `before`. */
    ghost predicate Reconciled(before: State, p: Policy, now: Instant, later: Instant, result: Outcome)
      reads cluster
    {
      if Commits.Workable(cluster.c, p) then Decided(before, p, now, later, result)
      else Untouched(before) && Excused(p, result)
    }

    /** What the reconcile has come to whose read of the policy, with the revisions `h` stored, got `got`. */
    ghost predicate Answers(before: State, got: Got, h: History, now: Instant, later: Instant, result: Outcome)
      reads cluster
    {
      match got
      case Missing => result == Finished && Untouched(before)
      case Unreachable => result == Failure && Untouched(before)
      case Revision(v) => v < |h| && Reconciled(before, h[v], now, later, result)
    }

    /** What a rotation returns, by what its attempt was given and did. */
    ghost predicate ReturnsFor(before: State, spec: Spec, result: Outcome)
      reads cluster
    {
      if CurrentAttempt(cluster.state).output.Err? then
        && result == RequeueAfter(if spec.retryBackoff.Some? then spec.retryBackoff.value else 30 * SECOND)
        && NothingSettled(before, cluster.state)
      else ReturnsFromWrite(before, spec.schedule, result)
    }

    /** The same, of an attempt that had already begun. */
    ghost predicate Returns(before: State, spec: Spec, result: Outcome)
      reads cluster
    {
      var s := cluster.state;
      && |s.log.ledger| == |before.log.ledger| && CurrentAttempt(s).decision == CurrentAttempt(before).decision
      && ReturnsFor(before, spec, result)
    }

    /** A write of the Secret that fails is an error, and nothing more happens. */
    ghost predicate ReturnsFromWrite(before: State, schedule: string, result: Outcome)
      reads cluster
    {
      if CurrentAttempt(cluster.state).write.Succeeded() then ReturnsFromCommit(before, schedule, result)
      else result == Failure && NothingSettled(before, cluster.state)
    }

    /**
     A commit that is not acknowledged is an error and prunes nothing; one that is leads
     to the time left until the schedule's next fire time.
     */
    ghost predicate ReturnsFromCommit(before: State, schedule: string, result: Outcome)
      reads cluster
    {
      var s, parsed := cluster.state, cluster.c.parse(schedule);
      if result == Failure then s.log.pruned == before.log.pruned
      else
        && (var next := if parsed.Some? then parsed.value(CurrentAttempt(s).stamp) else ZERO_TIME;
            result == RequeueAfter(Until(next, s.clock)))
        && |s.log.commits| == |before.log.commits| + 1 && Last(s.log.commits).attempt == AttemptId(s)
    }

    // ---------- the reconcile ----------

    /**
     Reads the policy, once and before any other call, and does what the revision read
     asks for: `calls` is the trace up to the read, `now` the clock reading that decides,
     and `later` the one the delay is computed from. There is no second read, and no
     interruption.
     */
    method Reconcile() returns (result: Outcome, ghost calls: seq<Input>, ghost now: Instant, ghost later: Instant)
      requires cluster.Valid() && cluster.state.pc.Idle?
      modifies cluster, workloads
      ensures cluster.Valid() && cluster.EndsWithRead(old(cluster.trace), calls) && cluster.Since(calls)
      ensures cluster.state.pc == Idle(result) && Reachable(cluster.c, cluster.state)
      ensures cluster.state == Run(cluster.c, old(cluster.state), cluster.trace[|old(cluster.trace)|..])
      ensures old(cluster.state.clock) <= now <= later
      ensures Answers(old(cluster.state), Last(calls).got, cluster.StoredAtRead(calls), now, later, result)
    {
      ghost var before, past := cluster.state, cluster.trace;
      result, calls, now, later := ReadAndReconcile();
      cluster.ValidIsReachable();
      cluster.RunSince(before, past);
    }

    method ReadAndReconcile()
      returns (result: Outcome, ghost calls: seq<Input>, ghost now: Instant, ghost later: Instant)
      requires cluster.Valid() && cluster.state.pc.Idle?
      modifies cluster, workloads
      ensures cluster.Valid() && cluster.EndsWithRead(old(cluster.trace), calls) && cluster.Since(calls)
      ensures cluster.state.pc == Idle(result) && old(cluster.state.clock) <= now <= later
      ensures Answers(old(cluster.state), Last(calls).got, cluster.StoredAtRead(calls), now, later, result)
    {
      var policy := new PolicyObject();
      ghost var before := cluster.state;
      var got := cluster.Get(policy);
      ghost var after, h := cluster.state, cluster.StoredAtRead(cluster.trace);
      calls := cluster.trace;
      result, now, later := ReconcileAnswer(policy, got, h);
      AnswersSince(before, after, got, h, now, later, result);
    }

    /** A read that touches nothing may come before. */
    lemma AnswersSince(before: State, after: State, got: Got, h: History, now: Instant, later: Instant, result: Outcome)
      requires after.log.ledger == before.log.ledger && NothingSettled(before, after)
      requires Answers(after, got, h, now, later, result)
      ensures Answers(before, got, h, now, later, result)
    {
    }

    /** What follows the read, by its answer. */
    method ReconcileAnswer(policy: PolicyObject, got: Got, ghost h: History)
      returns (result: Outcome, ghost now: Instant, ghost later: Instant)
      requires cluster.Valid()
      requires got.Missing? ==> cluster.state.pc == Idle(Finished)
      requires got.Unreachable? ==> cluster.state.pc == Idle(Failure)
      requires got.Revision? ==> got.version < |h| && policy.Value().obj == h[got.version] && JustRead(policy)
      modifies cluster, workloads, policy
      ensures cluster.Valid() && cluster.Since(old(cluster.trace))
      ensures cluster.state.pc == Idle(result) && old(cluster.state.clock) <= now <= later
      ensures Answers(old(cluster.state), got, h, now, later, result)
    {
      now, later := cluster.state.clock, cluster.state.clock;
      if got.Missing? {
        result := Finished;
      } else if got.Unreachable? {
        result := Failure;
      } else {
        result, now, later := ReconcilePolicy(policy);
      }
    }

    /** The machine stands where the object just read leads it. */
    ghost predicate JustRead(policy: PolicyObject)
      reads cluster, policy
    {
      var d := Dispatch(cluster.c, policy.Value().obj);
      cluster.state.pc == d.0 && cluster.state.mem == policy.Value().(obj := d.1)
    }

    /** The reconcile of the policy just read. */
    method ReconcilePolicy(policy: PolicyObject) returns (result: Outcome, ghost now: Instant, ghost later: Instant)
      requires cluster.Valid() && JustRead(policy)
      modifies cluster, workloads, policy
      ensures cluster.Valid() && cluster.Since(old(cluster.trace))
      ensures cluster.state.pc == Idle(result) && old(cluster.state.clock) <= now <= later
      ensures Reconciled(old(cluster.state), old(policy.Value().obj), now, later, result)
    {
      now, later := cluster.state.clock, cluster.state.clock;
      if policy.deleting {
        result := HandleDeletion(policy);
      } else if !policy.finalizer {
        result := EnsureFinalizer(policy);
      } else if policy.spec.suspend {
        result := SetSuspended(policy);
      } else if !cluster.c.healthy(policy.spec.provider, policy.spec.params) {
        result := SetProviderUnhealthy(policy);
      } else {
        result, now, later := RotateIfDue(policy);
      }
    }

    /** Puts the finalizer on the policy, which another reconcile then goes on with. */
    method EnsureFinalizer(policy: PolicyObject) returns (result: Outcome)
      requires cluster.Valid() && cluster.state.pc.AddingFinalizer?
      requires var m := policy.Value(); cluster.state.mem == m.(obj := m.obj.(finalizer := true))
      modifies cluster, policy
      ensures cluster.Valid() && cluster.Since(old(cluster.trace))
      ensures cluster.state.pc == Idle(result) && policy.finalizer
      ensures cluster.state.log.ledger == old(cluster.state.log.ledger)
      ensures NothingSettled(old(cluster.state), cluster.state)
      ensures result == if cluster.acknowledged then Requeue else Failure
      ensures cluster.acknowledged ==> Current(cluster.state).finalizer && cluster.state.api.present
    {
      policy.finalizer := true;
      var failed := cluster.Update(policy);
      return if failed then Failure else Requeue;
    }

    /** The scheduling half of a reconcile. */
    method RotateIfDue(policy: PolicyObject) returns (result: Outcome, ghost now: Instant, ghost later: Instant)
      requires cluster.Valid() && cluster.state.pc.Deciding? && policy.Value() == cluster.state.mem
      modifies cluster, workloads, policy
      ensures cluster.Valid() && cluster.Since(old(cluster.trace))
      ensures cluster.state.pc == Idle(result) && old(cluster.state.clock) <= now <= later
      ensures Decided(old(cluster.state), old(policy.Value().obj), now, later, result)
      ensures BegunByTheWindow(old(cluster.state), old(policy.Value().obj), now)
      ensures var p := old(policy.Value().obj);
        p.status.lastRotationTime.Some? && cluster.c.parse(p.spec.schedule).None? ==>
          OnlySets(p.status.conditions, policy.status.conditions, Degraded, true)
    {
      var manual := policy.rotate == Some(ROTATE_NOW);
      var last := policy.status.lastRotationTime;
      var window := if policy.spec.rotationWindow.Some? then policy.spec.rotationWindow.value else 0;
      var clock := DecisionTime(policy);
      now, later := clock, clock;
      var due := IsDue(cluster.c.parse, policy.spec.schedule, last, window, clock);
      Commits.DueIffFallsDue(cluster.c, policy.Value().obj, clock);
      if due.Err? {
        result := MarkDegraded(policy);
      } else {
        result, later := RotateOrWait(policy, due.value, manual, last, window, clock);
      }
      DecidedByTheWindow(old(cluster.state), old(policy.Value().obj), now, later, result);
    }

    /** What follows a decision. */
    method RotateOrWait(policy: PolicyObject, due: bool, manual: bool, last: Option<Instant>, window: Duration,
                        now: Instant)
      returns (result: Outcome, ghost later: Instant)
      requires cluster.Valid() && now <= cluster.state.clock
      requires last == policy.status.lastRotationTime && window == policy.spec.Window()
      requires if due || manual then AboutToRotate(policy, manual)
               else cluster.state.pc == Waiting(now) && policy.Value() == cluster.state.mem
      modifies cluster, workloads, policy
      ensures cluster.Valid() && cluster.Since(old(cluster.trace))
      ensures cluster.state.pc == Idle(result) && now <= later
      ensures if due || manual then Returns(old(cluster.state), old(policy.spec), result)
              else
                && cluster.state.log.ledger == old(cluster.state.log.ledger)
                && NothingSettled(old(cluster.state), cluster.state)
                && (last.Some? ==> WaitsFor(old(policy.spec), last.value, later, result))
    {
      if !due && !manual {
        result, later := RequeueUntilDue(policy, last, window, now);
      } else {
        result := ExecuteRotation(policy, manual);
        later := now;
      }
    }

    /** Reads the time of the decision; the machine stands where that leads the policy. */
    method DecisionTime(policy: PolicyObject) returns (now: Instant)
      requires cluster.Valid() && cluster.state.pc.Deciding? && policy.Value() == cluster.state.mem
      modifies cluster
      ensures cluster.Valid() && cluster.Since(old(cluster.trace))
      ensures old(cluster.state.clock) <= now == cluster.state.clock
      ensures NothingSettled(old(cluster.state), cluster.state)
      ensures var p, before, after := policy.Value().obj, old(cluster.state).log.ledger, cluster.state.log.ledger;
        var due := Due(cluster.c, p, now);
        if due.Err? then
          && cluster.state.pc == Reporting(Reason.BadSchedule) && after == before
          && cluster.state.mem == WithStatus(policy.Value(), DegradedStatus(policy.status))
        else if !due.value && !IsManual(p) then
          cluster.state.pc == Waiting(now) && cluster.state.mem == policy.Value() && after == before
        else
          AboutToRotate(policy, IsManual(p)) && |after| == |before| + 1 && Last(after).decision.at == now
    {
      ghost var before;
      now, before := cluster.Now();
    }

    lemma DecidedByTheWindow(before: State, p: Policy, now: Instant, later: Instant, result: Outcome)
      requires Decided(before, p, now, later, result)
      ensures BegunByTheWindow(before, p, now)
    {
    }

    /** Nothing is due: shows the next rotation time and computes the delay. */
    method RequeueUntilDue(policy: PolicyObject, last: Option<Instant>, window: Duration, now: Instant)
      returns (result: Outcome, ghost later: Instant)
      requires cluster.Valid() && cluster.state.pc == Waiting(now) && policy.Value() == cluster.state.mem
      requires last == policy.status.lastRotationTime && window == policy.spec.Window()
      modifies cluster, policy
      ensures cluster.Valid() && cluster.Since(old(cluster.trace))
      ensures cluster.state.pc == Idle(result)
      ensures old(cluster.state.clock) <= later && cluster.state.log.ledger == old(cluster.state.log.ledger)
      ensures NothingSettled(old(cluster.state), cluster.state)
      ensures var parsed, from := cluster.c.parse(old(policy.spec.schedule)), if last.Some? then last.value else now;
              if parsed.None? then
                && result == RequeueAfter(MINUTE)
                && policy.status == old(policy.status).(conditions := policy.status.conditions)
                && OnlySets(old(policy.status.conditions), policy.status.conditions, Degraded, true)
              else
                && WaitsFor(old(policy.spec), from, later, result)
                && policy.status == old(policy.status).(nextRotationTime := policy.status.nextRotationTime)
                && (last.Some? && parsed.value(from) != ZERO_TIME ==>
                      policy.status.nextRotationTime == Some(Truncate(parsed.value(from))))
    {
      var clock := DelayTime(policy, now);
      later := clock;
      var delay := RequeueDelay(cluster.c.parse, policy.spec.schedule, last, window, now, MIN_REQUEUE_DELAY, clock);
      if delay.Err? {
        result := MarkDegraded(policy);
        return;
      }
      if last.Some? {
        ShowNextTime(policy, last.value, delay.value);
      }
      result := RequeueAfter(delay.value);
    }

    /** Reads the time the delay is computed from; the machine stands where that leads the policy. */
    method DelayTime(policy: PolicyObject, ghost now: Instant) returns (clock: Instant)
      requires cluster.Valid() && cluster.state.pc == Waiting(now) && policy.Value() == cluster.state.mem
      modifies cluster
      ensures cluster.Valid() && cluster.Since(old(cluster.trace))
      ensures old(cluster.state.clock) <= clock && cluster.state.log.ledger == old(cluster.state.log.ledger)
      ensures NothingSettled(old(cluster.state), cluster.state)
      ensures var p, last := policy.Value().obj, policy.status.lastRotationTime;
        var delay := RequeueDelay(cluster.c.parse, p.spec.schedule, last, p.spec.Window(), now, 30 * SECOND, clock);
        if delay.Err? then
          && cluster.state.pc == Reporting(Reason.BadSchedule)
          && cluster.state.mem == WithStatus(policy.Value(), DegradedStatus(policy.status))
        else if last.None? then
          cluster.state.pc == Idle(RequeueAfter(delay.value)) && cluster.state.mem == policy.Value()
        else
          var next := NextScheduled(cluster.c.parse, p.spec.schedule, last.value);
          && cluster.state.pc == Reporting(NotDue(delay.value)) && next.Ok?
          && cluster.state.mem ==
               WithStatus(policy.Value(), policy.status.(nextRotationTime := StoredTime(next.value)))
    {
      ghost var before;
      clock, before := cluster.Now();
    }

    /** Updates the next rotation time in the status; whether that succeeds is of no interest. */
    method ShowNextTime(policy: PolicyObject, last: Instant, ghost delay: Duration)
      requires cluster.Valid() && cluster.state.pc == Reporting(NotDue(delay))
      requires var next := NextScheduled(cluster.c.parse, policy.spec.schedule, last);
        next.Ok? && cluster.state.mem ==
          WithStatus(policy.Value(), policy.status.(nextRotationTime := StoredTime(next.value)))
      modifies cluster, policy
      ensures cluster.Valid() && cluster.Since(old(cluster.trace))
      ensures cluster.state.pc == Idle(RequeueAfter(delay))
      ensures cluster.state.log.ledger == old(cluster.state.log.ledger)
      ensures NothingSettled(old(cluster.state), cluster.state)
      ensures policy.status == old(policy.status).(nextRotationTime := policy.status.nextRotationTime)
      ensures var next := cluster.c.parse(old(policy.spec.schedule));
        && next.Some?
        && policy.status.nextRotationTime ==
             if next.value(last) == ZERO_TIME then None else Some(Truncate(next.value(last)))
    {
      var next := NextScheduled(cluster.c.parse, policy.spec.schedule, last);
      if next.Ok? {
        policy.status := policy.status.(nextRotationTime := StoredTime(next.value));
        var _ := cluster.UpdateStatus(policy);
      }
    }

    /** The machine stands at the call, with the object in memory changed by no more than the phase. */
    ghost predicate AboutToRotate(policy: PolicyObject, manual: bool)
      reads cluster, policy
    {
      && cluster.Valid() && cluster.state.pc.MarkingRotating?
      && cluster.state.mem == WithStatus(policy.Value(), policy.status.(phase := Rotating))
      && cluster.state.log.ledger != [] && CurrentAttempt(cluster.state).decision.manual == manual
      && CurrentAttempt(cluster.state).write.NotTried?
    }

    /** The whole rotation: record, provider, Secret, annotation, restarts, record, status, history. */
    method ExecuteRotation(policy: PolicyObject, manual: bool) returns (result: Outcome)
      requires AboutToRotate(policy, manual)
      modifies cluster, workloads, policy
      ensures cluster.Valid() && cluster.Since(old(cluster.trace))
      ensures cluster.state.pc == Idle(result)
      ensures Returns(old(cluster.state), old(policy.spec), result)
    {
      var record := OpenRecord(policy, manual);
      result := RotateWithRecord(policy, record, manual);
    }

    /** Calls the provider and acts on its answer. */
    method RotateWithRecord(policy: PolicyObject, record: RecordObject, manual: bool) returns (result: Outcome)
      requires cluster.Valid() && cluster.state.pc.CallingProvider? && policy.Value() == cluster.state.mem
      requires cluster.state.log.ledger != [] && CurrentAttempt(cluster.state).decision.manual == manual
      requires CurrentAttempt(cluster.state).write.NotTried?
      requires record.BelongsTo(cluster.state) && record.rotatedKeys == [] && record.restarts == []
      modifies cluster, workloads, policy, record
      ensures cluster.Valid() && cluster.Since(old(cluster.trace))
      ensures cluster.state.pc == Idle(result)
      ensures Returns(old(cluster.state), old(policy.spec), result)
    {
      var output := cluster.RotateSecret();
      if output.Err? {
        result := RotationFailed(policy, record);
      } else {
        result := StoreSecret(policy, record, output.value, manual);
      }
    }

    /** Shows the phase and creates the record. */
    method OpenRecord(policy: PolicyObject, manual: bool) returns (record: RecordObject)
      requires AboutToRotate(policy, manual)
      modifies cluster, policy
      ensures fresh(record) && cluster.Valid() && cluster.Since(old(cluster.trace))
      ensures cluster.state.pc.CallingProvider? && policy.Value() == cluster.state.mem
      ensures cluster.state.log.ledger != []
      ensures CurrentAttempt(cluster.state).decision == old(CurrentAttempt(cluster.state)).decision
      ensures |cluster.state.log.ledger| == |old(cluster.state.log.ledger)|
      ensures CurrentAttempt(cluster.state).write.NotTried?
      ensures policy.spec == old(policy.spec) && policy.status == old(policy.status).(phase := Rotating)
      ensures NothingSettled(old(cluster.state), cluster.state)
      ensures record.phase == if record.name.Some? then Unrecorded else Running
      ensures record.BelongsTo(cluster.state) && record.rotatedKeys == [] && record.restarts == []
    {
      policy.status := policy.status.(phase := Rotating);
      var _ := cluster.UpdateStatus(policy);
      record := new RecordObject(cluster.c.name, cluster.c.namespace, if manual then Manual else Schedule);
      cluster.Create(record);
    }

    /** What follows a successful call of the provider. */
    method StoreSecret(policy: PolicyObject, record: RecordObject, secret: Secret, manual: bool)
      returns (result: Outcome)
      requires cluster.Valid() && policy.Value() == cluster.state.mem
      requires cluster.state.log.ledger != [] && record.BelongsTo(cluster.state)
      requires var a, mapped := CurrentAttempt(cluster.state), Mapped(secret, policy.spec.keys);
        && a.output == Ok(secret) && a.write.NotTried? && a.decision.manual == manual
        && Targets.Names(cluster.c, policy.spec, a.target)
        && cluster.state.pc == (if mapped.Err? then FailingRecord(MappingFailed) else WritingSecret)
        && (mapped.Ok? ==> mapped.value == a.data)
      modifies cluster, workloads, policy, record
      ensures cluster.Valid() && cluster.Since(old(cluster.trace))
      ensures cluster.state.pc == Idle(result)
      ensures |cluster.state.log.ledger| == |old(cluster.state.log.ledger)|
      ensures CurrentAttempt(cluster.state).output == Ok(secret)
      ensures CurrentAttempt(cluster.state).decision == old(CurrentAttempt(cluster.state)).decision
      ensures ReturnsFromWrite(old(cluster.state), old(policy.spec.schedule), result)
      ensures var target, asked := CurrentAttempt(cluster.state).target, old(policy.spec.secretRef);
        && target.name == asked.name
        && target.namespace == if asked.namespace != "" then asked.namespace else cluster.c.namespace
      ensures Mapped(secret, old(policy.spec.keys)).Err? ==> CurrentAttempt(cluster.state).write.NotTried?
      ensures record.phase == if CurrentAttempt(cluster.state).write.Succeeded() then Succeeded else RecordPhase.Failed
      ensures record.rotatedKeys ==
        if CurrentAttempt(cluster.state).write.Succeeded() then SecretKeys(old(policy.spec.keys)) else []
    {
      var data := MapKeys(secret, policy.spec.keys);
      if data.Err? {
        FinalizeRecord(record, RecordPhase.Failed, [], []);
        return Failure;
      }
      result := WriteSecret(policy, record, data.value, manual);
    }

    /** Creates or updates the target Secret and, if that succeeds, completes the rotation. */
    method WriteSecret(policy: PolicyObject, record: RecordObject, data: Secret, manual: bool) returns (result: Outcome)
      requires cluster.Valid() && policy.Value() == cluster.state.mem && cluster.state.pc.WritingSecret?
      requires cluster.state.log.ledger != [] && record.BelongsTo(cluster.state)
      requires var a := CurrentAttempt(cluster.state);
        a.decision.manual == manual && Targets.Names(cluster.c, policy.spec, a.target) && a.data == data
      modifies cluster, workloads, policy, record
      ensures cluster.Valid() && cluster.Since(old(cluster.trace))
      ensures cluster.state.pc == Idle(result)
      ensures |cluster.state.log.ledger| == |old(cluster.state.log.ledger)|
      ensures var a, b := old(CurrentAttempt(cluster.state)), CurrentAttempt(cluster.state);
        b.output == a.output && b.decision == a.decision && b.data == data
      ensures var target, asked := CurrentAttempt(cluster.state).target, old(policy.spec.secretRef);
        && target.name == asked.name
        && target.namespace == if asked.namespace != "" then asked.namespace else cluster.c.namespace
      ensures ReturnsFromWrite(old(cluster.state), old(policy.spec.schedule), result)
      ensures record.phase == if CurrentAttempt(cluster.state).write.Succeeded() then Succeeded else RecordPhase.Failed
      ensures record.rotatedKeys ==
        if CurrentAttempt(cluster.state).write.Succeeded() then SecretKeys(old(policy.spec.keys)) else []
    {
      var namespace := cluster.c.namespace;
      if policy.spec.secretRef.namespace != "" {
        namespace := policy.spec.secretRef.namespace;
      }
      var failed := cluster.CreateOrUpdate(ObjectKey(namespace, policy.spec.secretRef.name), data);
      if failed {
        FinalizeRecord(record, RecordPhase.Failed, [], []);
        return Failure;
      }
      result := CompleteRotation(policy, record, manual);
    }

    /** Removes the annotation that asked for this rotation; a failure leaves it for a later reconcile. */
    method RemoveRequest(policy: PolicyObject)
      requires cluster.Valid() && cluster.state.pc.RemovingAnnotation?
      requires var m := policy.Value(); cluster.state.mem == m.(obj := m.obj.(rotate := None))
      modifies cluster, policy
      ensures cluster.Valid() && cluster.Since(old(cluster.trace))
      ensures cluster.state.pc.Restarting? && policy.Value() == cluster.state.mem
      ensures policy.rotate.None?
      ensures policy.spec.keys == old(policy.spec.keys) && policy.spec.schedule == old(policy.spec.schedule)
      ensures cluster.acknowledged ==> Current(cluster.state).rotate.None?
      ensures old(policy.version) < |old(cluster.state.api.hist)| - 1 ==> !cluster.acknowledged
      ensures cluster.state.log.ledger == old(cluster.state.log.ledger)
      ensures NothingSettled(old(cluster.state), cluster.state)
    {
      Webhook.DefaultKeeps(policy.spec);
      policy.rotate := None;
      var _ := cluster.Update(policy);
    }

    /** The end of a rotation whose provider call failed. */
    method RotationFailed(policy: PolicyObject, record: RecordObject) returns (result: Outcome)
      requires cluster.Valid() && cluster.state.pc == FailingRecord(ProviderFailed)
      requires policy.Value() == cluster.state.mem
      requires cluster.state.log.ledger != [] && record.BelongsTo(cluster.state) && record.rotatedKeys == []
        && record.restarts == []
      modifies cluster, policy, record
      ensures cluster.Valid() && cluster.Since(old(cluster.trace))
      ensures cluster.state.pc == Idle(result)
      ensures record.phase == RecordPhase.Failed && record.rotatedKeys == [] && record.restarts == []
      ensures policy.status == old(policy.status).(phase := policy.status.phase, conditions := policy.status.conditions)
      ensures policy.status.phase == if old(policy.spec.failurePolicy) == Ignore then Phase.Ready else Phase.Failed
      ensures OnlySets(old(policy.status.conditions), policy.status.conditions, ReadyCondition, false)
      ensures cluster.acknowledged ==> Current(cluster.state).status == policy.status
      ensures cluster.state.log.ledger == old(cluster.state.log.ledger)
      ensures NothingSettled(old(cluster.state), cluster.state)
      ensures var backoff := old(policy.spec.retryBackoff);
        result == RequeueAfter(if backoff.Some? then backoff.value else 30 * SECOND)
    {
      FinalizeRecord(record, RecordPhase.Failed, [], []);
      SetFailureStatus(policy);
      var _ := cluster.UpdateStatus(policy);
      var backoff := DEFAULT_RETRY_BACKOFF;
      if policy.spec.retryBackoff.Some? {
        backoff := policy.spec.retryBackoff.value;
      }
      return RequeueAfter(backoff);
    }

    /** Fills in the status of a rotation whose provider call failed, by the failure policy. */
    method SetFailureStatus(policy: PolicyObject)
      modifies policy`status
      ensures policy.status == FailureStatus(policy.spec, old(policy.status))
      ensures policy.status == old(policy.status).(phase := policy.status.phase, conditions := policy.status.conditions)
      ensures policy.status.phase == if policy.spec.failurePolicy == Ignore then Phase.Ready else Phase.Failed
      ensures OnlySets(old(policy.status.conditions), policy.status.conditions, ReadyCondition, false)
    {
      if policy.spec.failurePolicy == Ignore {
        policy.status := policy.status.(phase := Phase.Ready);
      } else {
        policy.status := policy.status.(phase := Phase.Failed);
      }
      policy.SetStatusCondition(ReadyCondition, false, "RotationFailed");
    }

    /** What follows the write of the Secret. */
    method CompleteRotation(policy: PolicyObject, record: RecordObject, manual: bool) returns (result: Outcome)
      requires cluster.Valid() && cluster.state.pc == if manual then RemovingAnnotation else Restarting
      requires var m := policy.Value(); cluster.state.mem == if manual then m.(obj := m.obj.(rotate := None)) else m
      requires cluster.state.log.ledger != [] && record.BelongsTo(cluster.state)
      modifies cluster, workloads, policy, record
      ensures cluster.Valid() && cluster.Since(old(cluster.trace))
      ensures cluster.state.pc == Idle(result)
      ensures record.phase == Succeeded && record.rotatedKeys == SecretKeys(old(policy.spec.keys))
      ensures GoesOn(old(cluster.state), cluster.state)
      ensures ReturnsFromCommit(old(cluster.state), old(policy.spec.schedule), result)
    {
      if manual {
        RemoveRequest(policy);
      }
      RestartAndRecord(policy, record);
      result := CommitRotation(policy, record);
    }

    /** Restarts the workloads and finishes the record. */
    method RestartAndRecord(policy: PolicyObject, record: RecordObject)
      requires cluster.Valid() && cluster.state.pc.Restarting? && policy.Value() == cluster.state.mem
      requires cluster.state.log.ledger != [] && record.BelongsTo(cluster.state)
      modifies cluster, workloads, record`phase, record`rotatedKeys, record`restarts
      ensures cluster.Valid() && cluster.Since(old(cluster.trace))
      ensures cluster.state.pc.Stamping? && policy.Value() == cluster.state.mem
      ensures cluster.state.log.ledger != [] && record.BelongsTo(cluster.state)
      ensures record.phase == Succeeded && record.rotatedKeys == SecretKeys(policy.spec.keys)
      ensures record.restarts == CurrentAttempt(cluster.state).restarted
      ensures GoesOn(old(cluster.state), cluster.state) && NothingSettled(old(cluster.state), cluster.state)
    {
      var rotatedKeys := [];
      for i := 0 to |policy.spec.keys|
        invariant rotatedKeys == SecretKeys(policy.spec.keys)[..i]
      {
        rotatedKeys := rotatedKeys + [policy.spec.keys[i].secretKey];
      }
      var restarted := TriggerRestarts(policy);
      FinalizeRecord(record, Succeeded, rotatedKeys, restarted);
    }

    /** Stores the rotation time and prunes the history. */
    method CommitRotation(policy: PolicyObject, record: RecordObject) returns (result: Outcome)
      requires cluster.Valid() && cluster.state.pc.Stamping? && policy.Value() == cluster.state.mem
      requires cluster.state.log.ledger != [] && record.BelongsTo(cluster.state)
      modifies cluster, policy
      ensures cluster.Valid() && cluster.Since(old(cluster.trace))
      ensures cluster.state.pc == Idle(result)
      ensures GoesOn(old(cluster.state), cluster.state)
      ensures ReturnsFromCommit(old(cluster.state), old(policy.spec.schedule), result)
      ensures result == Failure <==> !cluster.acknowledged
      ensures var stamp := CurrentAttempt(cluster.state).stamp;
              var parsed := cluster.c.parse(policy.spec.schedule);
              var next := if parsed.Some? then parsed.value(stamp) else ZERO_TIME;
              && Statuses.ShowsSuccess(policy.status, RecordRef(record.name), stamp, parsed)
              && (cluster.acknowledged ==>
                    && Current(cluster.state).status == policy.status
                    && result == RequeueAfter(Until(next, cluster.state.clock)))
    {
      var failed, next := StoreSuccess(policy, record);
      if failed {
        return Failure;
      }
      result := FinishRotation(policy, next);
    }

    /** Stores the status of a rotation that succeeded now; returns when the next one is. */
    method StoreSuccess(policy: PolicyObject, record: RecordObject) returns (failed: bool, next: Instant)
      requires cluster.Valid() && cluster.state.pc.Stamping? && policy.Value() == cluster.state.mem
      requires cluster.state.log.ledger != [] && record.BelongsTo(cluster.state)
      modifies cluster, policy
      ensures cluster.Valid() && cluster.Since(old(cluster.trace))
      ensures cluster.state.pc == (if failed then Idle(Failure) else ListingHistory)
      ensures policy.Value() == cluster.state.mem && policy.spec == old(policy.spec)
      ensures GoesOn(old(cluster.state), cluster.state)
      ensures cluster.state.log.pruned == old(cluster.state.log.pruned)
      ensures cluster.acknowledged == !failed
      ensures var stamp, parsed := CurrentAttempt(cluster.state).stamp, cluster.c.parse(policy.spec.schedule);
              && next == NextOrZero(cluster.c, policy.spec.schedule, stamp)
              && next == (if parsed.Some? then parsed.value(stamp) else ZERO_TIME)
              && Statuses.ShowsSuccess(policy.status, RecordRef(record.name), stamp, parsed)
      ensures !failed ==>
        && Current(cluster.state).status == policy.status
        && |cluster.state.log.commits| == |old(cluster.state.log.commits)| + 1
        && Last(cluster.state.log.commits).attempt == AttemptId(cluster.state)
    {
      var now := StampRotation(policy, record);
      next := SetSuccessStatus(policy, record, now);
      failed := cluster.UpdateStatus(policy);
    }

    /** Prunes the history and computes the delay to the next rotation. */
    method FinishRotation(policy: PolicyObject, next: Instant) returns (result: Outcome)
      requires cluster.Valid() && cluster.state.pc.ListingHistory? && policy.Value() == cluster.state.mem
      requires next == NextOrZero(cluster.c, policy.spec.schedule, CurrentAttempt(cluster.state).stamp)
      modifies cluster
      ensures cluster.Valid() && cluster.Since(old(cluster.trace))
      ensures cluster.state.pc == Idle(result)
      ensures result == RequeueAfter(Until(next, cluster.state.clock))
      ensures Current(cluster.state).status == old(Current(cluster.state)).status
      ensures cluster.state.log.ledger == old(cluster.state.log.ledger)
      ensures cluster.state.log.commits == old(cluster.state.log.commits)
      ensures cluster.acknowledged == old(cluster.acknowledged)
    {
      ghost var listed, order := PruneHistory(policy);
      var clock, before := cluster.Now();
      return RequeueAfter(Until(next, clock));
    }

    /** Reads the time of the rotation. */
    method StampRotation(policy: PolicyObject, record: RecordObject) returns (now: Instant)
      requires cluster.Valid() && cluster.state.pc.Stamping? && policy.Value() == cluster.state.mem
      requires cluster.state.log.ledger != [] && record.BelongsTo(cluster.state)
      modifies cluster
      ensures cluster.Valid() && cluster.Since(old(cluster.trace))
      ensures cluster.state.pc == Committing && CurrentAttempt(cluster.state).stamp == now
      ensures GoesOn(old(cluster.state), cluster.state) && NothingSettled(old(cluster.state), cluster.state)
      ensures cluster.state.mem == WithStatus(policy.Value(),
        SuccessStatus(cluster.c, policy.spec, policy.status, RecordRef(record.name), now))
    {
      ghost var before;
      now, before := cluster.Now();
    }

    /** Fills in the status of a successful rotation; returns when the next one is. */
    method SetSuccessStatus(policy: PolicyObject, record: RecordObject, now: Instant) returns (next: Instant)
      modifies policy`status
      ensures policy.status == SuccessStatus(cluster.c, policy.spec, old(policy.status), RecordRef(record.name), now)
      ensures next == NextOrZero(cluster.c, policy.spec.schedule, now)
      ensures Statuses.ShowsSuccess(policy.status, RecordRef(record.name), now, cluster.c.parse(policy.spec.schedule))
      ensures var degraded := old(FindCondition(policy.status.conditions, Degraded));
        FindCondition(policy.status.conditions, Degraded) == degraded
    {
      policy.status := policy.status.(lastRotationTime := StoredTime(now), phase := Phase.Ready,
                                      lastRotationRecord := Some(RecordRef(record.name)));
      var scheduled := NextScheduled(cluster.c.parse, policy.spec.schedule, now);
      next := if scheduled.Ok? then scheduled.value else ZERO_TIME;
      policy.status := policy.status.(nextRotationTime := StoredTime(next));
      policy.SetStatusCondition(ReadyCondition, true, "RotationComplete");
      policy.SetStatusCondition(Scheduled, true, "NextRotationScheduled");
      policy.SetStatusCondition(ProviderHealthy, true, "ProviderReachable");
    }

    /** Restarts the dependent workloads; returns the targets that were. */
    method TriggerRestarts(policy: PolicyObject) returns (restarted: seq<RestartTarget>)
      requires cluster.Valid() && cluster.state.pc.Restarting? && cluster.state.log.ledger != []
      requires policy.Value() == cluster.state.mem
      modifies cluster, workloads
      ensures cluster.Valid() && cluster.Since(old(cluster.trace))
      ensures cluster.state.pc == FinishingRecord && policy.Value() == cluster.state.mem
      ensures GoesOn(old(cluster.state), cluster.state) && NothingSettled(old(cluster.state), cluster.state)
      ensures restarted == CurrentAttempt(cluster.state).restarted
      ensures var targets := policy.spec.restartTargets;
              workloads.templates == Restarts.Annotated(old(workloads.templates), cluster.c.namespace, targets,
                                                        seq(|targets|, answer), text(old(cluster.state.clock)))
    {
      var targets := policy.spec.restartTargets;
      var answers := seq(|targets|, answer);
      var updated := Restarts.Updated(workloads.templates, cluster.c.namespace, targets, answers);
      restarted := workloads.TriggerRestarts(cluster.c.namespace, targets, answers, text(cluster.state.clock));
      cluster.RestartsDone(updated);
    }

    /** Fills in the record's outcome and writes its status. */
    method FinalizeRecord(record: RecordObject, phase: RecordPhase, keys: seq<string>, restarted: seq<RestartTarget>)
      requires cluster.Valid() && cluster.state.log.ledger != [] && record.BelongsTo(cluster.state)
      requires (cluster.state.pc.FailingRecord? && phase == RecordPhase.Failed && keys == [] && restarted == [])
            || (cluster.state.pc.FinishingRecord? && phase == Succeeded
                && keys == SecretKeys(cluster.state.mem.obj.spec.keys)
                && restarted == CurrentAttempt(cluster.state).restarted)
      modifies cluster, record`phase, record`rotatedKeys, record`restarts
      ensures cluster.Valid() && cluster.Since(old(cluster.trace))
      ensures record.phase == phase && record.rotatedKeys == keys && record.restarts == restarted
      ensures cluster.state.log.ledger == old(cluster.state.log.ledger)
      ensures NothingSettled(old(cluster.state), cluster.state)
      ensures old(cluster.state.pc) == FailingRecord(ProviderFailed) ==>
        cluster.state.pc == ReportingFailure
        && var m := old(cluster.state.mem); cluster.state.mem == WithStatus(m, FailureStatus(m.obj.spec, m.obj.status))
      ensures old(cluster.state.pc).FailingRecord? && !old(cluster.state.pc).cause.ProviderFailed? ==>
        cluster.state.pc == Idle(Failure)
      ensures old(cluster.state.pc).FinishingRecord? ==>
        cluster.state.pc == Stamping && cluster.state.mem == old(cluster.state.mem)
    {
      record.phase := phase;
      record.rotatedKeys := keys;
      record.restarts := restarted;
      cluster.UpdateRecordStatus(record);
    }

    /**
     Deletes the oldest records beyond the limit: of the records it listed, in the state
     `listed`, none but the first in the `order` of their age, down to the limit.
     */
    method PruneHistory(policy: PolicyObject) returns (ghost listed: State, ghost order: seq<RecordId>)
      requires cluster.Valid() && cluster.state.pc.ListingHistory? && policy.Value() == cluster.state.mem
      modifies cluster
      ensures cluster.Valid() && cluster.Since(old(cluster.trace)) && cluster.acknowledged == old(cluster.acknowledged)
      ensures cluster.state.pc == Finishing && cluster.state.mem == old(cluster.state.mem)
      ensures Current(cluster.state).status == old(Current(cluster.state)).status
      ensures cluster.state.log.ledger == old(cluster.state.log.ledger)
      ensures cluster.state.log.commits == old(cluster.state.log.commits)
      ensures Reachable(cluster.c, listed) && Listing(cluster.c, listed.api.records, order)
      ensures var limit := if policy.spec.historyLimit.Some? then policy.spec.historyLimit.value else 10;
              var deleted := cluster.state.log.pruned - old(cluster.state.log.pruned);
              if |order| <= limit then deleted == {}
              else
                && SortedListing(cluster.c, listed.api.records, order)
                && deleted <= Elements(order[..|order| - limit])
    {
      var limit := Webhook.DEFAULT_HISTORY_LIMIT;
      if policy.spec.historyLimit.Some? {
        limit := policy.spec.historyLimit.value;
      }
      var list := cluster.ListRecords();
      cluster.ValidIsReachable();
      listed, order := cluster.state, [];
      if list.None? {
        return;
      }
      order := PruneListed(list.value, limit);
    }

    /** Goes through a listing: deletes nothing, or the oldest records in it. */
    method PruneListed(items: seq<Item>, limit: nat) returns (ghost order: seq<RecordId>)
      requires cluster.Valid() && cluster.state.pc.ListingHistory? && cluster.Lists(cluster.state, items)
      requires limit == Limit(cluster.state.mem.obj.spec)
      modifies cluster
      ensures cluster.Valid() && cluster.Since(old(cluster.trace)) && cluster.acknowledged == old(cluster.acknowledged)
      ensures cluster.state.pc == Finishing && cluster.state.mem == old(cluster.state.mem)
      ensures Current(cluster.state).status == old(Current(cluster.state)).status
      ensures cluster.state.log.ledger == old(cluster.state.log.ledger)
      ensures cluster.state.log.commits == old(cluster.state.log.commits)
      ensures Listing(cluster.c, old(cluster.state.api.records), order)
      ensures |order| > limit ==> SortedListing(cluster.c, old(cluster.state.api.records), order)
      ensures var deleted := cluster.state.log.pruned - old(cluster.state.log.pruned);
              deleted <= Elements(order[..if |order| <= limit then 0 else |order| - limit])
    {
      if |items| <= limit {
        ListedIsListing(cluster.c, cluster.state.api.records, items);
        order := Ids(items);
        cluster.TakeUp(items);
        return;
      }
      var sorted := SortedItems(items);
      ListedIsListing(cluster.c, cluster.state.api.records, sorted[..]);
      order := Ids(sorted[..]);
      cluster.TakeUp(sorted[..]);
      DeleteFirst(sorted, sorted.Length - limit);
    }

    method SortedItems(items: seq<Item>) returns (sorted: array<Item>)
      requires cluster.Lists(cluster.state, items)
      ensures fresh(sorted) && sorted.Length == |items| && OldestFirst(sorted[..])
      ensures cluster.Lists(cluster.state, sorted[..])
    {
      sorted := new Item[|items|](i requires 0 <= i < |items| => items[i]);
      assert sorted[..] == items;
      SortByCreation(sorted);
      RearrangedStillLists(items, sorted[..]);
    }

    method DeleteFirst(sorted: array<Item>, toDelete: nat)
      requires cluster.Valid() && 0 < toDelete <= sorted.Length && cluster.state.pc == Pruning(Ids(sorted[..toDelete]))
      modifies cluster
      ensures cluster.Valid() && cluster.Since(old(cluster.trace)) && cluster.acknowledged == old(cluster.acknowledged)
      ensures cluster.state.pc == Finishing && cluster.state.mem == old(cluster.state.mem)
      ensures Current(cluster.state).status == old(Current(cluster.state)).status
      ensures cluster.state.log.ledger == old(cluster.state.log.ledger)
      ensures cluster.state.log.commits == old(cluster.state.log.commits)
      ensures cluster.state.log.pruned - old(cluster.state.log.pruned) <= Elements(Ids(sorted[..])[..toDelete])
    {
      ghost var todo := Ids(sorted[..toDelete]);
      for i := 0 to toDelete
        invariant cluster.Valid() && cluster.Since(old(cluster.trace))
        invariant cluster.acknowledged == old(cluster.acknowledged)
        invariant cluster.state.mem == old(cluster.state.mem)
        invariant Current(cluster.state).status == old(Current(cluster.state)).status
        invariant cluster.state.log.ledger == old(cluster.state.log.ledger)
        invariant cluster.state.log.commits == old(cluster.state.log.commits)
        invariant cluster.state.log.pruned <= old(cluster.state.log.pruned) + Elements(todo)
        invariant cluster.state.pc == if i < toDelete then Pruning(todo[i..]) else Finishing
      {
        assert todo[i..][0] == sorted[i].id && todo[i..][1..] == todo[i + 1..];
        assert todo[i] in todo;
        cluster.Delete(sorted[i]);
      }
      assert todo == Ids(sorted[..])[..toDelete];
    }

    lemma RearrangedStillLists(items: seq<Item>, sorted: seq<Item>)
      requires cluster.Lists(cluster.state, items) && multiset(items) == multiset(sorted)
      ensures cluster.Lists(cluster.state, sorted) && |sorted| == |items|
    {
      RearrangementIsDistinct(items, sorted);
      assert |multiset(items)| == |multiset(sorted)|;
      forall i | 0 <= i < |sorted| ensures sorted[i] in items {
        assert sorted[i] in multiset(sorted);
      }
    }

    /** Lets a policy that is being deleted go. */
    method HandleDeletion(policy: PolicyObject) returns (result: Outcome)
      requires cluster.Valid()
      requires var d := Dispatch(cluster.c, policy.Value().obj);
        policy.deleting && cluster.state.pc == d.0 && cluster.state.mem == policy.Value().(obj := d.1)
      modifies cluster, policy
      ensures cluster.Valid() && cluster.Since(old(cluster.trace))
      ensures cluster.state.pc == Idle(result)
      ensures !policy.finalizer && cluster.state.log.ledger == old(cluster.state.log.ledger)
      ensures NothingSettled(old(cluster.state), cluster.state)
      ensures if old(policy.finalizer) then
                && result == (if cluster.acknowledged then Finished else Failure)
                && (cluster.acknowledged ==> !cluster.state.api.present)
              else result == Finished && cluster.trace == old(cluster.trace)
    {
      if policy.finalizer {
        policy.finalizer := false;
        var failed := cluster.Update(policy);
        if failed {
          return Failure;
        }
      }
      return Finished;
    }

    method SetSuspended(policy: PolicyObject) returns (result: Outcome)
      requires cluster.Valid() && cluster.state.pc == Reporting(Suspension)
      requires cluster.state.mem == WithStatus(policy.Value(), SuspendedStatus(policy.status))
      modifies cluster, policy
      ensures cluster.Valid() && cluster.Since(old(cluster.trace))
      ensures cluster.state.pc == Idle(result)
      ensures policy.status == old(policy.status).(phase := Suspended, conditions := policy.status.conditions)
      ensures OnlySets(old(policy.status.conditions), policy.status.conditions, ReadyCondition, false)
      ensures cluster.acknowledged ==> Current(cluster.state).status == policy.status
      ensures cluster.state.log.ledger == old(cluster.state.log.ledger)
      ensures NothingSettled(old(cluster.state), cluster.state)
      ensures result == if cluster.acknowledged then RequeueAfter(5 * MINUTE) else Failure
    {
      policy.status := policy.status.(phase := Suspended);
      policy.SetStatusCondition(ReadyCondition, false, "Suspended");
      var failed := cluster.UpdateStatus(policy);
      return if failed then Failure else RequeueAfter(5 * MINUTE);
    }

    method SetProviderUnhealthy(policy: PolicyObject) returns (result: Outcome)
      requires cluster.Valid() && cluster.state.pc == Reporting(UnhealthyProvider)
      requires cluster.state.mem == WithStatus(policy.Value(), UnhealthyStatus(policy.status))
      modifies cluster, policy
      ensures cluster.Valid() && cluster.Since(old(cluster.trace))
      ensures cluster.state.pc == Idle(result)
      ensures policy.status == old(policy.status).(phase := Phase.Failed, conditions := policy.status.conditions)
      ensures OnlySets(old(policy.status.conditions), policy.status.conditions, ProviderHealthy, false)
      ensures cluster.acknowledged ==> Current(cluster.state).status == policy.status
      ensures cluster.state.log.ledger == old(cluster.state.log.ledger)
      ensures NothingSettled(old(cluster.state), cluster.state)
      ensures result == RequeueAfter(MINUTE)
    {
      policy.status := policy.status.(phase := Phase.Failed);
      policy.SetStatusCondition(ProviderHealthy, false, "ProviderError");
      var _ := cluster.UpdateStatus(policy);
      return RequeueAfter(MINUTE);
    }

    method MarkDegraded(policy: PolicyObject) returns (result: Outcome)
      requires cluster.Valid() && cluster.state.pc == Reporting(Reason.BadSchedule)
      requires cluster.state.mem == WithStatus(policy.Value(), DegradedStatus(policy.status))
      modifies cluster, policy
      ensures cluster.Valid() && cluster.Since(old(cluster.trace))
      ensures cluster.state.pc == Idle(result)
      ensures policy.status == old(policy.status).(conditions := policy.status.conditions)
      ensures OnlySets(old(policy.status.conditions), policy.status.conditions, Degraded, true)
      ensures cluster.acknowledged ==> Current(cluster.state).status == policy.status
      ensures cluster.state.log.ledger == old(cluster.state.log.ledger)
      ensures NothingSettled(old(cluster.state), cluster.state)
      ensures result == RequeueAfter(MINUTE)
    {
      policy.SetStatusCondition(Degraded, true, "InvalidSchedule");
      var _ := cluster.UpdateStatus(policy);
      return RequeueAfter(MINUTE);
    }
  }
}
