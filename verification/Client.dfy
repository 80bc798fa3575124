/**
 The API server as the controller's client sees it. Its contents are the machine's
 state; a script, arbitrary to the controller, says what happens between two calls
 and how each call is answered. Every call is one step of the machine, so whatever a
 program does with a cluster is a run of the machine.
 */
module Client {
  import opened Prelude
  import opened Clock
  import opened Api
  import opened Provider
  import opened Machine
  import opened Frames
  import opened Sorting
  import Coherence
  import Restarts
  import Targets
  import Webhook

  // ---------- the objects a reconcile works on ----------

  /** The policy object: read once, changed in place, and replaced by the answers of the server. */
  class PolicyObject {
    var version: nat
    var spec: Spec
    var rotate: Option<string>
    var deleting: bool
    var finalizer: bool
    var status: Status
    var edits: nat

    constructor ()
      ensures Value() == Memory(0, BLANK_POLICY)
    {
      version, spec, rotate, deleting, finalizer, status, edits := 0, BLANK_SPEC, None, false, false, EMPTY_STATUS, 0;
    }

    function Value(): Memory
      reads this
    {
      Memory(version, Policy(spec, rotate, deleting, finalizer, status, edits))
    }

    method Load(m: Memory)
      modifies this
      ensures Value() == m
    {
      version, spec, rotate, deleting := m.version, m.obj.spec, m.obj.rotate, m.obj.deleting;
      finalizer, status, edits := m.obj.finalizer, m.obj.status, m.obj.edits;
    }

    /** Updates the condition of that type in place, or adds it. */
    method SetStatusCondition(kind: ConditionType, value: bool, reason: string)
      modifies this`status
      ensures status == Report(old(status), kind, value, reason)
      ensures status == old(status).(conditions := status.conditions)
      ensures OnlySets(old(status.conditions), status.conditions, kind, value)
    {
      SetThenFind(status.conditions, Condition(kind, value, reason));
      status := status.(conditions := SetCondition(status.conditions, Condition(kind, value, reason)));
    }
  }

  /** A record object; it has a name once its creation is acknowledged. */
  class RecordObject {
    const policy: string
    const namespace: string
    const trigger: Trigger
    var name: Option<nat>
    var version: nat
    var phase: RecordPhase
    var rotatedKeys: seq<string>
    var restarts: seq<RestartTarget>

    constructor (policy: string, namespace: string, trigger: Trigger)
      ensures this.policy == policy && this.namespace == namespace && this.trigger == trigger
      ensures name.None? && phase == Running && rotatedKeys == [] && restarts == []
    {
      this.policy, this.namespace, this.trigger := policy, namespace, trigger;
      name, version, phase, rotatedKeys, restarts := None, 0, Running, [], [];
    }

    /** The object stands for the record of the current attempt. */
    ghost predicate BelongsTo(s: State)
      reads this
    {
      match CurrentAttempt(s).handle
      case Unnamed => name.None?
      case Named(v) => name == Some(AttemptId(s)) && version == v
    }
  }

  // ---------- the cluster ----------

  /** What other writers may do between two calls of the worker: everything but touch the worker. */
  ghost predicate Undisturbed(s: State, t: State) {
    && t.pc == s.pc && t.mem == s.mem && t.log.ledger == s.log.ledger && s.clock <= t.clock
    && s.api.hist <= t.api.hist && Current(t).status == Current(s).status && NothingSettled(s, t)
  }

  /** Nothing is committed and no record is pruned. */
  ghost predicate NothingSettled(s: State, t: State) {
    t.log.commits == s.log.commits && t.log.pruned == s.log.pruned
  }

  /** The attempt goes on, with what it has read, been given and written so far. */
  ghost predicate GoesOn(s: State, t: State) {
    && |t.log.ledger| == |s.log.ledger|
    && var a, b := CurrentAttempt(s), CurrentAttempt(t);
    && b.decision == a.decision && b.handle == a.handle && b.output == a.output && b.write == a.write
    && b.target == a.target && b.data == a.data
  }

  ghost predicate Fresh(start: State) {
    exists spec, rotate, clock :: UNIX_EPOCH <= clock && start == Init(spec, rotate, clock)
  }

  class Cluster {
    const c: Config
    var state: State
    var script: seq<Input>
    ghost const start: State
    ghost var trace: seq<Input>
    /** Whether the last write of the policy was acknowledged. */
    ghost var acknowledged: bool

    /** The state is where the calls and events so far have led. */
    ghost predicate Valid()
      reads this
    {
      Fresh(start) && state == Run(c, start, trace)
    }

    /** The trace has gone on, with no further read of the policy and no interruption. */
    ghost predicate Since(before: seq<Input>)
      reads this
    {
      before <= trace && forall j :: |before| <= j < |trace| ==> !trace[j].Fetch? && !trace[j].Interrupt?
    }

    /** The trace `calls` ends with the first read since `before`: only the surroundings were at work up to then. */
    ghost predicate EndsWithRead(before: seq<Input>, calls: seq<Input>) {
      && before < calls && Last(calls).Fetch?
      && forall j :: |before| <= j < |calls| - 1 ==> FromEnvironment(calls[j]) && !calls[j].Interrupt?
    }

    /** The revisions of the policy that were stored at the read that ends the trace `calls`. */
    ghost function StoredAtRead(calls: seq<Input>): History {
      if calls == [] then start.api.hist else Run(c, start, calls[..|calls| - 1]).api.hist
    }

    constructor (c: Config, spec: Spec, rotate: Option<string>, clock: Instant, script: seq<Input>)
      requires UNIX_EPOCH <= clock
      ensures Valid() && this.c == c && state == Init(spec, rotate, clock) && trace == []
    {
      this.c := c;
      this.script := script;
      state := Init(spec, rotate, clock);
      start := Init(spec, rotate, clock);
      trace := [];
      acknowledged := true;
    }

    /** The theorems about reachable states are about the states of every cluster. */
    lemma ValidIsReachable()
      requires Valid()
      ensures Reachable(c, state)
    {
      var spec, rotate, clock :| UNIX_EPOCH <= clock && start == Init(spec, rotate, clock);
      assert state == Run(c, Init(spec, rotate, clock), trace);
    }

    /** What has happened since an earlier state is a run from that state. */
    lemma RunSince(before: State, calls: seq<Input>)
      requires Valid() && before == Run(c, start, calls) && calls <= trace
      ensures state == Run(c, before, trace[|calls|..])
    {
      assert trace == calls + trace[|calls|..];
      RunAppend(c, start, calls, trace[|calls|..]);
    }

    // ---------- events ----------

    method Happen(i: Input)
      requires Valid()
      modifies this`state, this`trace
      ensures Valid() && trace == old(trace) + [i]
      ensures state == Step(c, old(state), i)
    {
      state := Step(c, state, i);
      trace := trace + [i];
      assert trace[..|trace| - 1] == old(trace);
    }

    /** Lets the script's next events of the surroundings happen, up to the answer of the next call. */
    method Interfere()
      requires Valid()
      modifies `state, `script, `trace
      ensures Valid() && old(trace) <= trace
      ensures forall j :: |old(trace)| <= j < |trace| ==> FromEnvironment(trace[j]) && !trace[j].Interrupt?
      ensures Undisturbed(old(state), state)
    {
      while script != [] && FromEnvironment(script[0]) && !script[0].Interrupt?
        invariant Valid() && old(trace) <= trace && Undisturbed(old(state), state)
        invariant forall j :: |old(trace)| <= j < |trace| ==> FromEnvironment(trace[j]) && !trace[j].Interrupt?
        decreases |script|
      {
        EnvironmentUndisturbed(c, state, script[0]);
        Happen(script[0]);
        script := script[1..];
      }
    }

    /** The script's answer to a call, if it has one ready. */
    method NextAnswer() returns (answer: Option<Input>)
      modifies this`script
    {
      if script == [] {
        return None;
      }
      answer := Some(script[0]);
      script := script[1..];
    }

    method NextWrite() returns (w: Write)
      modifies this`script
    {
      var answer := NextAnswer();
      return if answer.Some? && answer.value.PutPolicy? then answer.value.write else Write(Refused, false, false);
    }

    // ---------- the policy ----------

    /** Reads some revision of the policy, perhaps an outdated one, into the object. */
    method Get(policy: PolicyObject) returns (got: Got)
      requires Valid() && state.pc.Idle?
      modifies `state, `script, `trace, policy
      ensures Valid() && EndsWithRead(old(trace), trace) && Last(trace) == Fetch(got)
      ensures state.log.ledger == old(state.log.ledger) && NothingSettled(old(state), state)
      ensures old(state.clock) <= state.clock
      ensures got.Missing? ==> state.pc == Idle(Finished)
      ensures got.Unreachable? ==> state.pc == Idle(Failure)
      ensures got.Revision? ==>
        var h, p := StoredAtRead(trace), policy.Value().obj;
        && got.version < |h| && p == h[got.version]
        && state.pc == Dispatch(c, p).0 && state.mem == policy.Value().(obj := Dispatch(c, p).1)
    {
      Interfere();
      var answer := NextAnswer();
      got := if answer.Some? && answer.value.Fetch? then answer.value.got else Unreachable;
      if got.Revision? && got.version >= |state.api.hist| {
        got := Missing;
      }
      if got.Revision? {
        policy.Load(Memory(got.version, state.api.hist[got.version]));
      }
      FetchIsTheStep(c, state, got);
      ghost var before := trace;
      Happen(Fetch(got));
      assert trace[..|trace| - 1] == before;
    }

    /** What follows a write of the status. */
    static function AfterStatusWrite(pc: Pc, spec: Spec, failed: bool): Pc
      requires WritesStatus(pc)
    {
      match pc
      case Reporting(reason) => Idle(OutcomeOf(reason, !failed))
      case MarkingRotating => CreatingRecord
      case ReportingFailure => Idle(RequeueAfter(Backoff(spec)))
      case Committing => if failed then Idle(Failure) else ListingHistory
    }

    /** Writes the object's status; an acknowledgement replaces the object by the stored one. */
    method UpdateStatus(policy: PolicyObject) returns (failed: bool)
      requires Valid() && WritesStatus(state.pc) && policy.Value() == state.mem
      modifies this, policy
      ensures Valid() && Since(old(trace))
      ensures policy.Value() == state.mem && policy.spec == old(policy.spec) && policy.status == old(policy.status)
      ensures state.pc == AfterStatusWrite(old(state.pc), policy.spec, failed)
      ensures acknowledged == !failed && (!failed ==> Current(state) == policy.Value().obj)
      ensures state.log.ledger == old(state.log.ledger) && state.log.pruned == old(state.log.pruned)
      ensures !old(state.pc).Committing? ==> NothingSettled(old(state), state)
      ensures old(state.pc).Committing? && !failed ==>
        |state.log.commits| == |old(state.log.commits)| + 1 && Last(state.log.commits).attempt == AttemptId(state)
    {
      ghost var before, w;
      failed, before, w := PutStatus();
      policy.Load(state.mem);
    }

    method PutStatus() returns (failed: bool, ghost before: State, ghost write: Write)
      requires Valid() && WritesStatus(state.pc)
      modifies this
      ensures Valid() && Since(old(trace))
      ensures Undisturbed(old(state), before) && StatusWritten(before, write, state)
      ensures acknowledged == !failed && failed == !Acknowledged(before, write)
    {
      Interfere();
      var w := NextWrite();
      ValidIsReachable();
      StatusWriteIsTheStep(c, state, w);
      before, write := state, w;
      failed := !Acknowledged(state, w);
      acknowledged := !failed;
      Happen(PutPolicy(w));
    }

    /** What follows a write of the whole object. */
    static function AfterUpdate(pc: Pc, failed: bool): Pc
      requires WritesObject(pc)
    {
      match pc
      case DroppingFinalizer => Idle(if failed then Failure else Finished)
      case AddingFinalizer => Idle(if failed then Failure else Requeue)
      case RemovingAnnotation => Restarting
    }

    /** Writes everything but the status; an acknowledgement replaces the object, status included, by the stored one. */
    method Update(policy: PolicyObject) returns (failed: bool)
      requires Valid() && WritesObject(state.pc) && policy.Value() == state.mem
      modifies this, policy
      ensures Valid() && Since(old(trace))
      ensures policy.Value() == state.mem && policy.rotate == old(policy.rotate)
      ensures policy.finalizer == old(policy.finalizer) && policy.deleting == old(policy.deleting)
      ensures policy.spec == old(policy.spec) || policy.spec == Webhook.Default(old(policy.spec))
      ensures state.pc == AfterUpdate(old(state.pc), failed)
      ensures acknowledged == !failed
      ensures !failed ==>
        Current(state) == policy.Value().obj && state.api.present == !(policy.deleting && !policy.finalizer)
      ensures old(policy.version) < |old(state.api.hist)| - 1 ==> failed
      ensures state.log.ledger == old(state.log.ledger) && NothingSettled(old(state), state)
    {
      ghost var before, w;
      failed, before, w := PutObject();
      policy.Load(state.mem);
    }

    method PutObject() returns (failed: bool, ghost before: State, ghost write: Write)
      requires Valid() && WritesObject(state.pc)
      modifies this
      ensures Valid() && Since(old(trace))
      ensures Undisturbed(old(state), before) && ObjectWritten(before, write, state)
      ensures acknowledged == !failed && failed == !Acknowledged(before, write)
    {
      Interfere();
      var w := NextWrite();
      ValidIsReachable();
      ObjectWriteIsTheStep(c, state, w);
      before, write := state, w;
      failed := !Acknowledged(state, w);
      acknowledged := !failed;
      Happen(PutPolicy(w));
    }

    // ---------- the clock ----------

    /** Reads the clock. */
    method Now() returns (now: Instant, ghost before: State)
      requires Valid() && Expected(state.pc, ReadClock)
      modifies `state, `script, `trace
      ensures Valid() && Since(old(trace))
      ensures Undisturbed(old(state), before) && now == before.clock
      ensures state == StepReadClock(c, before) && state.clock == now && NothingSettled(old(state), state)
    {
      Interfere();
      before := state;
      now := state.clock;
      Happen(ReadClock);
    }

    // ---------- the rotation ----------

    /** Creates the record. The answer names it, and drops its status, as the server did. */
    method Create(record: RecordObject)
      requires Valid() && state.pc.CreatingRecord? && state.log.ledger != []
      requires record.policy == c.name && record.namespace == c.namespace && record.name.None?
      requires record.trigger == if CurrentAttempt(state).decision.manual then Manual else Schedule
      modifies `state, `script, `trace, record
      ensures Valid() && Since(old(trace))
      ensures record.BelongsTo(state) && record.rotatedKeys == old(record.rotatedKeys)
        && record.restarts == old(record.restarts)
      ensures state.pc == CallingProvider && state.mem == old(state.mem)
      ensures |state.log.ledger| == |old(state.log.ledger)|
      ensures CurrentAttempt(state) == CurrentAttempt(old(state)).(handle := CurrentAttempt(state).handle)
      ensures record.phase == if record.name.Some? then Unrecorded else old(record.phase)
      ensures NothingSettled(old(state), state)
    {
      var reply := RequestCreate();
      if reply.Accepted? {
        record.name, record.version, record.phase := Some(AttemptId(state)), 0, Unrecorded;
      }
    }

    method RequestCreate() returns (reply: Reply)
      requires Valid() && state.pc.CreatingRecord? && state.log.ledger != []
      modifies `state, `script, `trace
      ensures Valid() && Since(old(trace))
      ensures state.pc == CallingProvider && state.mem == old(state.mem)
      ensures |state.log.ledger| == |old(state.log.ledger)|
      ensures CurrentAttempt(state) ==
        CurrentAttempt(old(state)).(handle := if reply.Accepted? then Named(0) else Unnamed)
      ensures NothingSettled(old(state), state)
    {
      Interfere();
      var answer := NextAnswer();
      var created := state.clock;
      reply := Refused;
      if answer.Some? && answer.value.CreateRecord? {
        reply, created := answer.value.reply, answer.value.created;
      }
      CreateIsTheStep(c, state, reply, created);
      Happen(CreateRecord(reply, created));
    }

    /** Calls the provider. */
    method RotateSecret() returns (output: Result<Secret, ProviderError>)
      requires Valid() && state.pc.CallingProvider? && state.log.ledger != []
      modifies `state, `script, `trace
      ensures Valid() && Since(old(trace))
      ensures state.mem == old(state.mem) && |state.log.ledger| == |old(state.log.ledger)|
      ensures var a, b := CurrentAttempt(old(state)), CurrentAttempt(state);
        b.handle == a.handle && b.decision == a.decision && b.write == a.write && b.output == output
      ensures Targets.Names(c, state.mem.obj.spec, CurrentAttempt(state).target)
      ensures NothingSettled(old(state), state)
      ensures state.pc == if output.Err? then FailingRecord(ProviderFailed)
                          else if Mapped(output.value, state.mem.obj.spec.keys).Err? then FailingRecord(MappingFailed)
                          else WritingSecret
      ensures state.pc.WritingSecret? ==>
        Mapped(output.value, state.mem.obj.spec.keys) == Ok(CurrentAttempt(state).data)
    {
      Interfere();
      var answer := NextAnswer();
      output := if answer.Some? && answer.value.CallProvider? then answer.value.output else Err(CallFailed);
      RotationCallIsTheStep(c, state, CallProvider(output));
      Happen(CallProvider(output));
    }

    /**
     Creates the Secret or, from a cached copy that may be outdated, updates it, so that it has
     this data and the labels.
     */
    method CreateOrUpdate(key: ObjectKey, data: Secret) returns (failed: bool)
      requires Valid() && state.pc.WritingSecret? && state.log.ledger != []
      requires key == CurrentAttempt(state).target && data == CurrentAttempt(state).data
      modifies `state, `script, `trace
      ensures Valid() && Since(old(trace))
      ensures |state.log.ledger| == |old(state.log.ledger)| && NothingSettled(old(state), state)
      ensures var a, b := CurrentAttempt(old(state)), CurrentAttempt(state);
        && b.handle == a.handle && b.decision == a.decision && b.output == a.output
        && b.target == key && b.data == data
      ensures failed <==> !CurrentAttempt(state).write.Succeeded()
      ensures var manual := CurrentAttempt(old(state)).decision.manual;
        if failed then state.pc == FailingRecord(WriteFailed) && state.mem == old(state.mem)
        else if manual then
          && state.pc == RemovingAnnotation
          && state.mem == old(state.mem).(obj := old(state.mem.obj).(rotate := None))
        else state.pc == Restarting && state.mem == old(state.mem)
    {
      Interfere();
      var answer := NextAnswer();
      var seen, reply := 0, Refused;
      if answer.Some? && answer.value.PutSecret? && answer.value.seen < |SecretsAt(state.api, key)| {
        seen, reply := answer.value.seen, answer.value.reply;
      }
      SecretCallIsTheStep(c, state, seen, reply);
      Happen(PutSecret(seen, reply));
      failed := !CurrentAttempt(state).write.Succeeded();
    }

    /** The workloads were restarted, but for those whose update is reported as failed. */
    method RestartsDone(updated: seq<bool>)
      requires Valid() && state.pc.Restarting? && state.log.ledger != []
      requires |updated| == |state.mem.obj.spec.restartTargets|
      modifies `state, `script, `trace
      ensures Valid() && Since(old(trace))
      ensures state.pc == FinishingRecord && state.mem == old(state.mem)
      ensures GoesOn(old(state), state) && NothingSettled(old(state), state)
      ensures CurrentAttempt(state).restarted == Restarts.Restarted(state.mem.obj.spec.restartTargets, updated)
    {
      Interfere();
      RotationCallIsTheStep(c, state, RestartWorkloads(updated));
      Happen(RestartWorkloads(updated));
    }

    /** Writes the record's status; whether that succeeds is of no interest. */
    method UpdateRecordStatus(record: RecordObject)
      requires Valid() && state.log.ledger != [] && record.BelongsTo(state)
      requires (state.pc.FailingRecord? && record.phase == RecordPhase.Failed
                && record.rotatedKeys == [] && record.restarts == [])
            || (state.pc.FinishingRecord? && record.phase == Succeeded
                && record.rotatedKeys == SecretKeys(state.mem.obj.spec.keys)
                && record.restarts == CurrentAttempt(state).restarted)
      modifies `state, `script, `trace
      ensures Valid() && Since(old(trace))
      ensures state.log.ledger == old(state.log.ledger) && NothingSettled(old(state), state)
      ensures old(state.pc) == FailingRecord(ProviderFailed) ==>
        state.pc == ReportingFailure
        && state.mem == WithStatus(old(state.mem), FailureStatus(old(state.mem.obj.spec), old(state.mem.obj.status)))
      ensures old(state.pc).FailingRecord? && !old(state.pc).cause.ProviderFailed? ==> state.pc == Idle(Failure)
      ensures old(state.pc).FinishingRecord? ==> state.pc == Stamping && state.mem == old(state.mem)
    {
      Interfere();
      var answer := NextAnswer();
      var reply := if answer.Some? && answer.value.PutRecord? then answer.value.reply else Refused;
      RecordStatusIsTheStep(c, state, reply);
      Happen(PutRecord(reply));
    }

    // ---------- the history ----------

    /** Lists the policy's records in no particular order, perhaps not the current ones. */
    method ListRecords() returns (items: Option<seq<Item>>)
      requires Valid() && state.pc.ListingHistory?
      modifies `state, `script, `trace
      ensures Valid() && Since(old(trace))
      ensures Current(state).status == old(Current(state)).status
      ensures state.mem == old(state.mem) && state.log.ledger == old(state.log.ledger)
      ensures NothingSettled(old(state), state)
      ensures items.None? ==> state.pc == Finishing
      ensures items.Some? ==> state.pc == ListingHistory && Lists(state, items.value)
    {
      Interfere();
      var answer := NextAnswer();
      if answer.None? || !answer.value.List? || answer.value.listing.None?
        || !Listing(c, state.api.records, answer.value.listing.value) {
        HistoryCallIsTheStep(c, state, List(None));
        Happen(List(None));
        return None;
      }
      var order := answer.value.listing.value;
      var records := state.api.records;
      return Some(seq(|order|, i requires 0 <= i < |order| && order[i] in records =>
        Item(order[i], records[order[i]].created)));
    }

    /** The items are distinct records of the policy. */
    ghost predicate Lists(s: State, items: seq<Item>)
      reads this
    {
      && Distinct(items)
      && forall i :: 0 <= i < |items| ==>
        && items[i].id in s.api.records && Matches(c, s.api.records[items[i].id])
        && items[i].created == s.api.records[items[i].id].created
    }

    /** Takes the listing up in the given order: nothing to prune, or the oldest records first. */
    method TakeUp(items: seq<Item>)
      requires Valid() && state.pc.ListingHistory? && Lists(state, items)
      requires |items| > Limit(state.mem.obj.spec) ==> OldestFirst(items)
      modifies `state, `script, `trace
      ensures Valid() && Since(old(trace))
      ensures Current(state).status == old(Current(state)).status
      ensures state.mem == old(state.mem) && state.log.ledger == old(state.log.ledger)
      ensures NothingSettled(old(state), state)
      ensures var limit := Limit(state.mem.obj.spec);
              state.pc == if |items| <= limit then Finishing else Pruning(Ids(items[..|items| - limit]))
    {
      ListedIsListing(c, state.api.records, items);
      var order := Ids(items);
      HistoryCallIsTheStep(c, state, List(Some(order)));
      Happen(List(Some(order)));
      assert |items| > Limit(state.mem.obj.spec) ==>
        Ids(items[..|items| - Limit(state.mem.obj.spec)]) == order[..|order| - Limit(state.mem.obj.spec)];
    }

    /** Deletes a record; whether that succeeds is of no interest. */
    method Delete(item: Item)
      requires Valid() && state.pc.Pruning? && state.pc.todo != [] && item.id == state.pc.todo[0]
      modifies `state, `script, `trace
      ensures Valid() && Since(old(trace))
      ensures Current(state).status == old(Current(state)).status
      ensures state.mem == old(state.mem) && state.log.ledger == old(state.log.ledger)
      ensures state.log.commits == old(state.log.commits) && state.log.pruned <= old(state.log.pruned) + {item.id}
      ensures state.pc == if |old(state.pc).todo| == 1 then Finishing else Pruning(old(state.pc).todo[1..])
    {
      Interfere();
      var answer := NextAnswer();
      var reply := if answer.Some? && answer.value.DeleteRecord? then answer.value.reply else Refused;
      HistoryCallIsTheStep(c, state, DeleteRecord(reply));
      Happen(DeleteRecord(reply));
    }
  }

  function Ids(items: seq<Item>): (r: seq<RecordId>)
    ensures |r| == |items| && forall i :: 0 <= i < |items| ==> r[i] == items[i].id
  {
    seq(|items|, i requires 0 <= i < |items| => items[i].id)
  }

  // ---------- each call is its step ----------

  lemma EnvironmentUndisturbed(c: Config, s: State, i: Input)
    requires FromEnvironment(i) && !i.Interrupt?
    ensures Undisturbed(s, Step(c, s, i))
  {
    StepEffects(c, s, i);
    assert !Begins(s, Step(c, s, i));
  }

  lemma FetchIsTheStep(c: Config, s: State, got: Got)
    requires s.pc.Idle?
    ensures Step(c, s, Fetch(got)) == StepFetch(c, s, got)
  {
  }

  /** What a write of the status leaves in memory and on the server. */
  ghost predicate StatusWritten(s: State, w: Write, t: State)
    requires WritesStatus(s.pc)
  {
    && t.pc == Cluster.AfterStatusWrite(s.pc, s.mem.obj.spec, !Acknowledged(s, w))
    && t.mem.obj.spec == s.mem.obj.spec && t.mem.obj.status == s.mem.obj.status
    && (Acknowledged(s, w) ==> t.mem.obj == Current(t))
    && t.log == s.log.(commits := t.log.commits)
    && (!s.pc.Committing? ==> t.log.commits == s.log.commits)
    && (s.pc.Committing? && Acknowledged(s, w) ==>
          |t.log.commits| == |s.log.commits| + 1 && Last(t.log.commits).attempt == AttemptId(s))
  }

  lemma CommitIsWritten(c: Config, s: State, w: Write)
    requires Coherence.MemoryCoherent(c, s) && s.pc.Committing?
    ensures StatusWritten(s, w, StepCommit(s, w))
  {
    Coherence.StatusStoredOnTop(c, s, w);
  }

  lemma StatusIsWritten(c: Config, s: State, w: Write)
    requires Coherence.MemoryCoherent(c, s) && WritesStatus(s.pc) && !s.pc.Committing?
    ensures StatusWritten(s, w, StepPutPolicy(s, w))
  {
    Coherence.StatusStoredOnTop(c, s, w);
  }

  lemma StatusWriteIsTheStep(c: Config, s: State, w: Write)
    requires Reachable(c, s) && WritesStatus(s.pc)
    ensures StatusWritten(s, w, Step(c, s, PutPolicy(w)))
  {
    Coherence.ReachableIsCoherent(c, s);
    if s.pc.Committing? {
      CommitIsTheStep(c, s, w);
      CommitIsWritten(c, s, w);
    } else {
      StatusIsWritten(c, s, w);
      assert Step(c, s, PutPolicy(w)) == StepPutPolicy(s, w);
    }
  }

  /** What a write of the whole object leaves in memory and on the server. */
  ghost predicate ObjectWritten(s: State, w: Write, t: State)
    requires WritesObject(s.pc)
  {
    && t.pc == Cluster.AfterUpdate(s.pc, !Acknowledged(s, w)) && t.log == s.log.(removals := t.log.removals)
    && t.mem.obj.rotate == s.mem.obj.rotate && t.mem.obj.finalizer == s.mem.obj.finalizer
    && t.mem.obj.deleting == s.mem.obj.deleting
    && (t.mem.obj.spec == s.mem.obj.spec || t.mem.obj.spec == Webhook.Default(s.mem.obj.spec))
    && (Acknowledged(s, w) ==>
          && t.mem.obj == Current(t) && t.api.present == !(t.mem.obj.deleting && !t.mem.obj.finalizer)
          && s.mem.version == |s.api.hist| - 1)
  }

  lemma FinalizerIsWritten(c: Config, s: State, w: Write)
    requires Coherence.MemoryCoherent(c, s) && WritesObject(s.pc)
    ensures s.pc.DroppingFinalizer? ==> ObjectWritten(s, w, StepDropFinalizer(s, w))
    ensures s.pc.AddingFinalizer? ==> ObjectWritten(s, w, StepAddFinalizer(s, w))
  {
    Coherence.ObjectStoredOnTop(c, s, w);
  }

  lemma AnnotationIsRemoved(c: Config, s: State, w: Write)
    requires Coherence.MemoryCoherent(c, s) && s.pc.RemovingAnnotation?
    ensures ObjectWritten(s, w, StepRemoveAnnotation(s, w))
  {
    Coherence.ObjectStoredOnTop(c, s, w);
  }

  lemma ObjectWriteIsTheStep(c: Config, s: State, w: Write)
    requires Reachable(c, s) && WritesObject(s.pc)
    ensures ObjectWritten(s, w, Step(c, s, PutPolicy(w)))
  {
    Coherence.ReachableIsCoherent(c, s);
    if s.pc.RemovingAnnotation? {
      RemovalIsTheStep(c, s, w);
      AnnotationIsRemoved(c, s, w);
    } else {
      FinalizerIsWritten(c, s, w);
    }
  }

  lemma CreateIsTheStep(c: Config, s: State, reply: Reply, created: Instant)
    requires s.pc.CreatingRecord? && s.log.ledger != []
    ensures var t := Step(c, s, CreateRecord(reply, created));
            && t.pc == CallingProvider && t.mem == s.mem && |t.log.ledger| == |s.log.ledger| && NothingSettled(s, t)
            && CurrentAttempt(t) == CurrentAttempt(s).(handle := if reply.Accepted? then Named(0) else Unnamed)
  {
    assert Step(c, s, CreateRecord(reply, created)) == StepCreateRecord(c, s, reply, created);
  }

  /** What a create-or-update leaves of the attempt and in memory. */
  ghost predicate SecretCalled(s: State, t: State) {
    && |t.log.ledger| == |s.log.ledger| && NothingSettled(s, t)
    && var a, b := CurrentAttempt(s), CurrentAttempt(t);
    && b.handle == a.handle && b.decision == a.decision && b.output == a.output
    && b.target == a.target && b.data == a.data
    && if !b.write.Succeeded() then t.pc == FailingRecord(WriteFailed) && t.mem == s.mem
       else if a.decision.manual then
         t.pc == RemovingAnnotation && t.mem == s.mem.(obj := s.mem.obj.(rotate := None))
       else t.pc == Restarting && t.mem == s.mem
  }

  lemma SecretCallIsTheStep(c: Config, s: State, seen: nat, reply: Reply)
    requires s.pc.WritingSecret? && s.log.ledger != [] && seen < |SecretsAt(s.api, CurrentAttempt(s).target)|
    ensures SecretCalled(s, Step(c, s, PutSecret(seen, reply)))
  {
    assert Step(c, s, PutSecret(seen, reply)) == StepPutSecret(c, s, seen, reply);
  }

  lemma RotationCallIsTheStep(c: Config, s: State, i: Input)
    requires (i.CallProvider? && s.pc.CallingProvider?) || (i.RestartWorkloads? && s.pc.Restarting?)
    ensures i.CallProvider? ==> Step(c, s, i) == StepCallProvider(c, s, i.output)
    ensures i.RestartWorkloads? ==> Step(c, s, i) == StepRestart(s, i.updated)
  {
  }

  lemma RecordStatusIsTheStep(c: Config, s: State, reply: Reply)
    requires s.pc.FailingRecord? || s.pc.FinishingRecord?
    ensures Step(c, s, PutRecord(reply)) ==
      if s.pc.FailingRecord? then StepFailRecord(s, reply) else StepFinishRecord(s, reply)
  {
  }

  lemma HistoryCallIsTheStep(c: Config, s: State, i: Input)
    requires (i.List? && s.pc.ListingHistory?) || (i.DeleteRecord? && s.pc.Pruning? && s.pc.todo != [])
    ensures i.List? ==> Step(c, s, i) == StepList(c, s, i.listing)
    ensures i.DeleteRecord? ==> Step(c, s, i) == StepDelete(s, i.reply)
  {
  }

  lemma ListedIsListing(c: Config, records: map<RecordId, Record>, items: seq<Item>)
    requires Distinct(items)
    requires forall i :: 0 <= i < |items| ==>
      items[i].id in records && Matches(c, records[items[i].id]) && items[i].created == records[items[i].id].created
    ensures Listing(c, records, Ids(items))
    ensures OldestFirst(items) ==> SortedListing(c, records, Ids(items))
  {
  }
}
