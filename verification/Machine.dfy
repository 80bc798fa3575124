/**
 The operator and its surroundings as a state machine. One worker reconciles one
 policy against an API server that keeps every revision of an object; between any
 two of its calls users edit, time passes, other writers write, or the worker is
 interrupted. Every call of the worker is one step, so every interleaving is a
 sequence of inputs.
 */
module Machine {
  import opened Prelude
  import opened Clock
  import opened Scheduler
  import opened Api
  import opened Provider
  import Restarts
  import Webhook

  // ---------- what stays fixed ----------

  /** `healthy` says whether a provider is registered and accepts the parameters. */
  datatype Config = Config(
    name: string, namespace: string, parse: Parser, healthy: (string, map<string, string>) -> bool)

  const MIN_REQUEUE_DELAY: Duration := 30 * SECOND
  const DEFAULT_RETRY_BACKOFF: Duration := 30 * SECOND
  const SUSPENDED_DELAY: Duration := 5 * MINUTE
  const ERROR_DELAY: Duration := MINUTE

  // ---------- the stored objects ----------

  const BLANK_SPEC := Spec("", None, "", map[], [], ObjectKey("", ""), [], None, false, Unset, None)
  const BLANK_POLICY := Policy(BLANK_SPEC, None, false, false, EMPTY_STATUS, 0)

  /** All revisions of the policy, oldest first; the resource version is the index. */
  type History = h: seq<Policy> | h != [] witness [BLANK_POLICY]

  /** A revision of a target Secret; `writer` is the attempt that wrote it, if an attempt did. */
  datatype SecretRevision = Absent | Present(data: Secret, labels: map<string, string>, writer: Option<nat>)

  type SecretHistory = h: seq<SecretRevision> | h != [] witness [Absent]

  datatype RecordId = Own(attempt: nat) | Other(n: nat)

  datatype Trigger = Schedule | Manual

  datatype RecordPhase = Unrecorded | Running | Succeeded | Failed

  datatype Record = Record(
    policy: string, namespace: string, created: Instant, trigger: Trigger,
    phase: RecordPhase, rotatedKeys: seq<string>, restarts: seq<RestartTarget>, version: nat)

  // ---------- the worker ----------

  /** What a reconcile returns; `Interrupted` when it never returned. */
  datatype Outcome = Finished | Requeue | RequeueAfter(delay: Duration) | Failure | Interrupted

  datatype Reason = Suspension | UnhealthyProvider | BadSchedule | NotDue(delay: Duration)

  datatype Cause = ProviderFailed | MappingFailed | WriteFailed

  /** The next call the worker makes. */
  datatype Pc =
    | Idle(outcome: Outcome)
    | DroppingFinalizer
    | AddingFinalizer
    | Reporting(reason: Reason)
    | Deciding
    | Waiting(decidedAt: Instant)
    | MarkingRotating
    | CreatingRecord
    | CallingProvider
    | FailingRecord(cause: Cause)
    | ReportingFailure
    | WritingSecret
    | RemovingAnnotation
    | Restarting
    | FinishingRecord
    | Stamping
    | Committing
    | ListingHistory
    | Pruning(todo: seq<RecordId>)
    | Finishing

  /** The policy object in the worker's memory and the resource version it carries. */
  datatype Memory = Memory(version: nat, obj: Policy)

  /** The record object in memory: without a name unless its creation was acknowledged. */
  datatype Handle = Unnamed | Named(version: nat)

  /**
   What became of an attempt's write of the Secret. `Kept`: nothing was written,
   because the Secret as read already was the wanted one. `Unwritten(true)`: an
   error was reported although the write took place.
   */
  datatype WriteResult = NotTried | Written | Kept | Unwritten(applied: bool)
  {
    predicate Succeeded() { Written? || Kept? }

    predicate Applied() { Written? || (Unwritten? && applied) }
  }

  /** What an attempt is based on: the revision read, its LastRotationTime, the manual request, the clock. */
  datatype Decision = Decision(read: nat, seen: Option<Instant>, manual: bool, at: Instant)

  /**
   Everything an attempt was based on, received and did. `copy` is the revision of
   the Secret in the cache, `revision` the number of revisions before the write.
   */
  datatype Attempt = Attempt(
    decision: Decision,
    handle: Handle, output: Result<Secret, ProviderError>, keys: seq<KeyMapping>, data: Secret,
    target: ObjectKey, write: WriteResult, copy: nat, revision: nat, restarted: seq<RestartTarget>, stamp: Instant)

  const BLANK_ATTEMPT := Attempt(Decision(0, None, false, ZERO_TIME), Unnamed, Err(CallFailed), [], map[],
                                 ObjectKey("", ""), NotTried, 0, 0, [], ZERO_TIME)

  /** A stored change of LastRotationTime: by which attempt, on top of which revision, from what to what. */
  datatype Commit = Commit(attempt: nat, base: nat, prev: Option<Instant>, at: Option<Instant>)

  // ---------- the state ----------

  /** The API server; `records` keeps deleted records too, `live` says which still exist. */
  datatype Server = Server(
    hist: History, present: bool, secrets: map<ObjectKey, SecretHistory>,
    records: map<RecordId, Record>, live: set<RecordId>)

  /**
   What has happened so far: the attempts, the commits, which attempt removed the
   annotation in which revision, the records pruned, the arrivals (attempts and
   foreign records) since the listing of the last completed prune, those since the
   last listing, and the listings and deletions gone wrong.
   */
  datatype Log = Log(
    ledger: seq<Attempt>, commits: seq<Commit>, removals: map<nat, nat>,
    pruned: set<RecordId>, arrivals: nat, lateArrivals: nat, pruneFaults: nat)

  datatype State = State(clock: Instant, api: Server, pc: Pc, mem: Memory, log: Log)

  function Init(spec: Spec, rotate: Option<string>, clock: Instant): State {
    var p := Policy(spec, rotate, false, false, EMPTY_STATUS, 0);
    State(clock, Server([p], true, map[], map[], {}), Idle(Finished), Memory(0, p), Log([], [], map[], {}, 0, 0, 0))
  }

  // ---------- the inputs ----------

  /**
   `touched`: the stored object changes even if the fields modelled here do not.
   `defaulted`: the defaulting webhook saw the write.
   */
  datatype Write = Write(reply: Reply, touched: bool, defaulted: bool)

  datatype Got = Revision(version: nat) | Missing | Unreachable

  datatype Input =
    // surroundings
    | Advance(elapsed: nat)
    | Edit(spec: Spec, rotate: Option<string>, finalizer: bool)
    | Delete
    | ForeignSecret(key: ObjectKey, content: SecretRevision)
    | ForeignRecord(n: nat, record: Record)
    | RemoveRecord(id: RecordId)
    | TouchRecord(id: RecordId)
    | Interrupt
    // the worker's calls
    | Fetch(got: Got)
    | ReadClock
    | PutPolicy(write: Write)
    | CreateRecord(reply: Reply, created: Instant)
    | CallProvider(output: Result<Secret, ProviderError>)
    | PutSecret(seen: nat, reply: Reply)
    | PutRecord(reply: Reply)
    | RestartWorkloads(updated: seq<bool>)
    | List(listing: Option<seq<RecordId>>)
    | DeleteRecord(reply: Reply)

  // ---------- reading the state ----------

  function Current(s: State): Policy {
    Last(s.api.hist)
  }

  function CurrentAttempt(s: State): Attempt {
    if s.log.ledger == [] then BLANK_ATTEMPT else Last(s.log.ledger)
  }

  function AttemptId(s: State): nat {
    if s.log.ledger == [] then 0 else |s.log.ledger| - 1
  }

  function WithAttempt(log: Log, a: Attempt): Log {
    if log.ledger == [] then log else log.(ledger := log.ledger[|log.ledger| - 1 := a])
  }

  function SecretsAt(api: Server, key: ObjectKey): SecretHistory {
    if key in api.secrets then api.secrets[key] else [Absent]
  }

  predicate Matches(c: Config, r: Record) {
    r.policy == c.name && r.namespace == c.namespace
  }

  function Limit(spec: Spec): nat {
    if spec.historyLimit.Some? then spec.historyLimit.value else Webhook.DEFAULT_HISTORY_LIMIT
  }

  // ---------- writes ----------

  /** A write of the policy takes place when it reaches the server and carries the current version. */
  predicate Applies(s: State, w: Write) {
    !w.reply.Refused? && s.api.present && s.mem.version == |s.api.hist| - 1
  }

  predicate Acknowledged(s: State, w: Write) {
    Applies(s, w) && w.reply.Accepted?
  }

  function Append(api: Server, p: Policy): Server {
    api.(hist := api.hist + [p], present := !(p.deleting && !p.finalizer))
  }

  /** The revision the status subresource stores: only the status comes from memory. */
  function WithStoredStatus(s: State): Policy {
    Current(s).(status := s.mem.obj.status)
  }

  /** The revision an update stores: the status in memory is dropped. */
  function WithStoredObject(s: State, w: Write): Policy {
    var m := s.mem.obj;
    Current(s).(spec := if w.defaulted then Webhook.Default(m.spec) else m.spec,
                rotate := m.rotate, finalizer := m.finalizer)
  }

  /** The server after a status write; a write that changes nothing leaves the version alone. */
  function StatusStored(s: State, w: Write): Server {
    if !Applies(s, w) || (WithStoredStatus(s) == Current(s) && !w.touched) then s.api
    else s.api.(hist := s.api.hist + [WithStoredStatus(s)])
  }

  /** The server after an update. The controller's updates always change the finalizer or the annotation. */
  function ObjectStored(s: State, w: Write): Server {
    if !Applies(s, w) then s.api else Append(s.api, WithStoredObject(s, w))
  }

  /** An acknowledged write replaces the object in memory by the stored one; a failed one changes nothing. */
  function Answer(s: State, w: Write, api: Server): Memory {
    if Acknowledged(s, w) then Memory(|api.hist| - 1, Last(api.hist)) else s.mem
  }

  const MANAGED_BY := "secrets.keysmith.io/managed-by"
  const POLICY_LABEL := "secrets.keysmith.io/policy"

  function ManagedLabels(name: string): map<string, string> {
    map[MANAGED_BY := "keysmith", POLICY_LABEL := name]
  }

  predicate SameContent(a: SecretRevision, b: SecretRevision) {
    a.Present? && b.Present? && a.data == b.data && a.labels == b.labels
  }

  /** What the mutation makes of a Secret: new data, and the two labels besides those it has. */
  function Wanted(copy: SecretRevision, data: Secret, name: string, attempt: nat): SecretRevision {
    Present(data, (if copy.Present? then copy.labels else map[]) + ManagedLabels(name), Some(attempt))
  }

  /**
   Create-or-update of a Secret whose cached copy is revision `seen`: create it if
   the copy is absent, leave it if the copy already has the wanted content, and
   otherwise update it under the copy's resource version.
   */
  function CreateOrUpdate(h: SecretHistory, seen: nat, data: Secret, name: string, attempt: nat, reply: Reply)
    : (SecretHistory, WriteResult)
    requires seen < |h|
  {
    var wanted := Wanted(h[seen], data, name, attempt);
    if reply.Refused? then (h, Unwritten(false))
    else if SameContent(h[seen], wanted) then (h, Kept)
    else if (if h[seen].Absent? then Last(h).Absent? else seen == |h| - 1) then
      (h + [wanted], if reply.Accepted? then Written else Unwritten(true))
    else (h, Unwritten(false))
  }

  // ---------- the worker's steps ----------

  function Stop(s: State, outcome: Outcome): State {
    s.(pc := Idle(outcome))
  }

  function WithStatus(m: Memory, status: Status): Memory {
    m.(obj := m.obj.(status := status))
  }

  function Report(status: Status, kind: ConditionType, value: bool, reason: string): Status {
    status.(conditions := SetCondition(status.conditions, Condition(kind, value, reason)))
  }

  predicate IsManual(p: Policy) {
    p.rotate == Some(ROTATE_NOW)
  }

  function SuspendedStatus(status: Status): Status {
    Report(status.(phase := Suspended), ReadyCondition, false, "Suspended")
  }

  function UnhealthyStatus(status: Status): Status {
    Report(status.(phase := Phase.Failed), ProviderHealthy, false, "ProviderError")
  }

  function DegradedStatus(status: Status): Status {
    Report(status, Degraded, true, "InvalidSchedule")
  }

  /** What to do with the object just read, and the object as changed in memory. */
  function Dispatch(c: Config, p: Policy): (Pc, Policy) {
    if p.deleting then
      if p.finalizer then (DroppingFinalizer, p.(finalizer := false)) else (Idle(Finished), p)
    else if !p.finalizer then (AddingFinalizer, p.(finalizer := true))
    else if p.spec.suspend then (Reporting(Suspension), p.(status := SuspendedStatus(p.status)))
    else if !c.healthy(p.spec.provider, p.spec.params) then
      (Reporting(UnhealthyProvider), p.(status := UnhealthyStatus(p.status)))
    else (Deciding, p)
  }

  function StepFetch(c: Config, s: State, got: Got): State
    requires s.pc.Idle?
  {
    match got
    case Missing => Stop(s, Finished)
    case Unreachable => Stop(s, Failure)
    case Revision(v) =>
      if v >= |s.api.hist| then s
      else
        var d := Dispatch(c, s.api.hist[v]);
        s.(pc := d.0, mem := Memory(v, d.1))
  }

  function Due(c: Config, p: Policy, now: Instant): Result<bool, ScheduleError> {
    IsDue(c.parse, p.spec.schedule, p.status.lastRotationTime, p.spec.Window(), now)
  }

  function Degrade(s: State): State {
    s.(pc := Reporting(BadSchedule), mem := WithStatus(s.mem, DegradedStatus(s.mem.obj.status)))
  }

  /** Reads the clock and decides whether to rotate; a scheduling error comes before the manual request. */
  function StepDecide(c: Config, s: State): State
    requires s.pc.Deciding?
  {
    var p := s.mem.obj;
    var due := Due(c, p, s.clock);
    if due.Err? then Degrade(s)
    else if !due.value && !IsManual(p) then s.(pc := Waiting(s.clock))
    else BeginAttempt(s)
  }

  function BeginAttempt(s: State): State {
    var p := s.mem.obj;
    var a := BLANK_ATTEMPT.(decision := Decision(s.mem.version, p.status.lastRotationTime, IsManual(p), s.clock));
    s.(pc := MarkingRotating, mem := WithStatus(s.mem, p.status.(phase := Rotating)),
       log := s.log.(ledger := s.log.ledger + [a],
                     arrivals := s.log.arrivals + 1, lateArrivals := s.log.lateArrivals + 1))
  }

  /** Reads the clock again for the delay, and shows the next time in the status. */
  function StepWait(c: Config, s: State): State
    requires s.pc.Waiting?
  {
    var p := s.mem.obj;
    var last := p.status.lastRotationTime;
    var delay := RequeueDelay(c.parse, p.spec.schedule, last, p.spec.Window(),
                              s.pc.decidedAt, MIN_REQUEUE_DELAY, s.clock);
    if delay.Err? then Degrade(s)
    else if last.None? then Stop(s, RequeueAfter(delay.value))
    else
      var next := NextScheduled(c.parse, p.spec.schedule, last.value);
      if next.Err? then Stop(s, RequeueAfter(delay.value))
      else
        s.(pc := Reporting(NotDue(delay.value)),
           mem := WithStatus(s.mem, p.status.(nextRotationTime := StoredTime(next.value))))
  }

  function OutcomeOf(reason: Reason, acknowledged: bool): Outcome {
    match reason
    case Suspension => if acknowledged then RequeueAfter(SUSPENDED_DELAY) else Failure
    case UnhealthyProvider => RequeueAfter(ERROR_DELAY)
    case BadSchedule => RequeueAfter(ERROR_DELAY)
    case NotDue(delay) => RequeueAfter(delay)
  }

  function StepDropFinalizer(s: State, w: Write): State
    requires s.pc.DroppingFinalizer?
  {
    var api := ObjectStored(s, w);
    s.(api := api, mem := Answer(s, w, api), pc := Idle(if Acknowledged(s, w) then Finished else Failure))
  }

  function StepAddFinalizer(s: State, w: Write): State
    requires s.pc.AddingFinalizer?
  {
    var api := ObjectStored(s, w);
    s.(api := api, mem := Answer(s, w, api), pc := Idle(if Acknowledged(s, w) then Requeue else Failure))
  }

  function StepReport(s: State, w: Write): State
    requires s.pc.Reporting?
  {
    var api := StatusStored(s, w);
    s.(api := api, mem := Answer(s, w, api), pc := Idle(OutcomeOf(s.pc.reason, Acknowledged(s, w))))
  }

  function StepMarkRotating(s: State, w: Write): State
    requires s.pc.MarkingRotating?
  {
    var api := StatusStored(s, w);
    s.(api := api, mem := Answer(s, w, api), pc := CreatingRecord)
  }

  function NewRecord(c: Config, manual: bool, created: Instant): Record {
    Record(c.name, c.namespace, created, if manual then Manual else Schedule, Running, [], [], 0)
  }

  /** What a create stores of a record: everything but its status. */
  function WithoutStatus(r: Record): Record {
    r.(phase := Unrecorded, rotatedKeys := [], restarts := [])
  }

  function StepCreateRecord(c: Config, s: State, reply: Reply, created: Instant): State
    requires s.pc.CreatingRecord?
  {
    var a := CurrentAttempt(s);
    var id := Own(AttemptId(s));
    var stored := WithoutStatus(NewRecord(c, a.decision.manual, created));
    s.(pc := CallingProvider,
       api := if reply.Refused? then s.api
              else s.api.(records := s.api.records[id := stored], live := s.api.live + {id}),
       log := WithAttempt(s.log, a.(handle := if reply.Accepted? then Named(0) else Unnamed)))
  }

  function TargetKey(c: Config, spec: Spec): ObjectKey {
    if spec.secretRef.namespace == "" then ObjectKey(c.namespace, spec.secretRef.name) else spec.secretRef
  }

  function StepCallProvider(c: Config, s: State, output: Result<Secret, ProviderError>): State
    requires s.pc.CallingProvider?
  {
    var spec := s.mem.obj.spec;
    var a := CurrentAttempt(s).(output := output, keys := spec.keys, target := TargetKey(c, spec));
    var data := if output.Err? then Err(output.error) else Mapped(output.value, spec.keys);
    s.(pc := if output.Err? then FailingRecord(ProviderFailed)
             else if data.Err? then FailingRecord(MappingFailed) else WritingSecret,
       log := WithAttempt(s.log, if data.Ok? then a.(data := data.value) else a))
  }

  function StepPutSecret(c: Config, s: State, seen: nat, reply: Reply): State
    requires s.pc.WritingSecret?
  {
    var a := CurrentAttempt(s);
    var h := SecretsAt(s.api, a.target);
    if seen >= |h| then s
    else
      var r := CreateOrUpdate(h, seen, a.data, c.name, AttemptId(s), reply);
      s.(pc := if !r.1.Succeeded() then FailingRecord(WriteFailed)
               else if a.decision.manual then RemovingAnnotation else Restarting,
         api := s.api.(secrets := s.api.secrets[a.target := r.0]),
         mem := if r.1.Succeeded() && a.decision.manual then s.mem.(obj := s.mem.obj.(rotate := None)) else s.mem,
         log := WithAttempt(s.log, a.(write := r.1, copy := seen, revision := |h|)))
  }

  /** The records after the attempt's status write: it needs a name and the current version of the record. */
  function Finalized(s: State, phase: RecordPhase, keys: seq<string>, restarts: seq<RestartTarget>, reply: Reply)
    : map<RecordId, Record>
  {
    var a := CurrentAttempt(s);
    var id := Own(AttemptId(s));
    var records := s.api.records;
    if reply.Refused? || a.handle.Unnamed? || id !in s.api.live || id !in records
      || records[id].version != a.handle.version
    then records
    else
      var r := records[id];
      records[id := r.(phase := phase, rotatedKeys := keys, restarts := restarts, version := r.version + 1)]
  }

  function FailureStatus(spec: Spec, status: Status): Status {
    Report(status.(phase := if spec.failurePolicy == Ignore then Phase.Ready else Phase.Failed),
           ReadyCondition, false, "RotationFailed")
  }

  /** A failed provider call is reported in the status too; the other failures return at once. */
  function StepFailRecord(s: State, reply: Reply): State
    requires s.pc.FailingRecord?
  {
    var reported := s.pc.cause.ProviderFailed?;
    s.(pc := if reported then ReportingFailure else Idle(Failure),
       api := s.api.(records := Finalized(s, RecordPhase.Failed, [], [], reply)),
       mem := if reported then WithStatus(s.mem, FailureStatus(s.mem.obj.spec, s.mem.obj.status)) else s.mem)
  }

  function Backoff(spec: Spec): Duration {
    if spec.retryBackoff.Some? then spec.retryBackoff.value else DEFAULT_RETRY_BACKOFF
  }

  function StepReportFailure(s: State, w: Write): State
    requires s.pc.ReportingFailure?
  {
    var api := StatusStored(s, w);
    s.(api := api, mem := Answer(s, w, api), pc := Idle(RequeueAfter(Backoff(s.mem.obj.spec))))
  }

  function StepRemoveAnnotation(s: State, w: Write): State
    requires s.pc.RemovingAnnotation?
  {
    var api := ObjectStored(s, w);
    s.(api := api, mem := Answer(s, w, api), pc := Restarting,
       log := if Applies(s, w) then s.log.(removals := s.log.removals[|s.api.hist| := AttemptId(s)]) else s.log)
  }

  function StepRestart(s: State, updated: seq<bool>): State
    requires s.pc.Restarting?
  {
    var targets := s.mem.obj.spec.restartTargets;
    if |updated| != |targets| then s
    else
      s.(pc := FinishingRecord,
         log := WithAttempt(s.log, CurrentAttempt(s).(restarted := Restarts.Restarted(targets, updated))))
  }

  function StepFinishRecord(s: State, reply: Reply): State
    requires s.pc.FinishingRecord?
  {
    var keys := SecretKeys(s.mem.obj.spec.keys);
    s.(pc := Stamping, api := s.api.(records := Finalized(s, Succeeded, keys, CurrentAttempt(s).restarted, reply)))
  }

  /** The error of an unparseable schedule is ignored here and leaves the zero time. */
  function NextOrZero(c: Config, schedule: string, from: Instant): Instant {
    var next := NextScheduled(c.parse, schedule, from);
    if next.Ok? then next.value else ZERO_TIME
  }

  function SuccessStatus(c: Config, spec: Spec, status: Status, record: RecordRef, now: Instant): Status {
    Report(Report(Report(
      status.(lastRotationTime := StoredTime(now), phase := Phase.Ready, lastRotationRecord := Some(record),
              nextRotationTime := StoredTime(NextOrZero(c, spec.schedule, now))),
      ReadyCondition, true, "RotationComplete"),
      Scheduled, true, "NextRotationScheduled"),
      ProviderHealthy, true, "ProviderReachable")
  }

  function StepStamp(c: Config, s: State): State
    requires s.pc.Stamping?
  {
    var a := CurrentAttempt(s);
    var record := RecordRef(if a.handle.Named? then Some(AttemptId(s)) else None);
    s.(pc := Committing,
       mem := WithStatus(s.mem, SuccessStatus(c, s.mem.obj.spec, s.mem.obj.status, record, s.clock)),
       log := WithAttempt(s.log, a.(stamp := s.clock)))
  }

  function StepCommit(s: State, w: Write): State
    requires s.pc.Committing?
  {
    var api := StatusStored(s, w);
    var seen := CurrentAttempt(s).decision.seen;
    var entry := Commit(AttemptId(s), s.mem.version, seen, s.mem.obj.status.lastRotationTime);
    s.(api := api, mem := Answer(s, w, api), pc := if Acknowledged(s, w) then ListingHistory else Idle(Failure),
       log := if Applies(s, w) then s.log.(commits := s.log.commits + [entry]) else s.log)
  }

  /** A listing: records of the policy, perhaps out of date. */
  predicate Listing(c: Config, records: map<RecordId, Record>, order: seq<RecordId>) {
    && (forall i :: 0 <= i < |order| ==> order[i] in records && Matches(c, records[order[i]]))
    && Distinct(order)
  }

  /** A listing sorted oldest first; records created at the same time come in any order. */
  predicate SortedListing(c: Config, records: map<RecordId, Record>, order: seq<RecordId>) {
    && Listing(c, records, order)
    && (forall i, j :: 0 <= i < j < |order| ==> records[order[i]].created <= records[order[j]].created)
  }

  function LiveMatching(c: Config, api: Server): set<RecordId> {
    set id | id in api.live && id in api.records && Matches(c, api.records[id])
  }

  /** Reads the listing and, if it is too long, sorts it to delete the oldest records first. */
  function StepList(c: Config, s: State, listing: Option<seq<RecordId>>): State
    requires s.pc.ListingHistory?
  {
    if listing.None? then s.(pc := Finishing)
    else
      var order := listing.value;
      var limit := Limit(s.mem.obj.spec);
      var stale := if Elements(order) == LiveMatching(c, s.api) then 0 else 1;
      if !Listing(c, s.api.records, order) then s
      else if |order| <= limit then
        s.(pc := Finishing, log := s.log.(pruneFaults := s.log.pruneFaults + stale, lateArrivals := 0, arrivals := 0))
      else if !SortedListing(c, s.api.records, order) then s
      else
        s.(pc := Pruning(order[..|order| - limit]),
           log := s.log.(pruneFaults := s.log.pruneFaults + stale, lateArrivals := 0))
  }

  /** Errors of single deletions are ignored. */
  function StepDelete(s: State, reply: Reply): State
    requires s.pc.Pruning? && s.pc.todo != []
  {
    var id := s.pc.todo[0];
    var done := |s.pc.todo| == 1;
    var deleted := !reply.Refused? && id in s.api.live;
    s.(pc := if done then Finishing else Pruning(s.pc.todo[1..]),
       api := if deleted then s.api.(live := s.api.live - {id}) else s.api,
       log := s.log.(pruned := if deleted then s.log.pruned + {id} else s.log.pruned,
                     arrivals := if done then s.log.lateArrivals else s.log.arrivals,
                     pruneFaults := s.log.pruneFaults + if reply.Refused? && id in s.api.live then 1 else 0))
  }

  function StepFinish(c: Config, s: State): State
    requires s.pc.Finishing?
  {
    Stop(s, RequeueAfter(Until(NextOrZero(c, s.mem.obj.spec.schedule, CurrentAttempt(s).stamp), s.clock)))
  }

  // ---------- all steps ----------

  function StepPutPolicy(s: State, w: Write): State {
    if s.pc.DroppingFinalizer? then StepDropFinalizer(s, w)
    else if s.pc.AddingFinalizer? then StepAddFinalizer(s, w)
    else if s.pc.Reporting? then StepReport(s, w)
    else if s.pc.MarkingRotating? then StepMarkRotating(s, w)
    else if s.pc.ReportingFailure? then StepReportFailure(s, w)
    else if s.pc.RemovingAnnotation? then StepRemoveAnnotation(s, w)
    else if s.pc.Committing? then StepCommit(s, w)
    else s
  }

  function StepReadClock(c: Config, s: State): State {
    if s.pc.Deciding? then StepDecide(c, s)
    else if s.pc.Waiting? then StepWait(c, s)
    else if s.pc.Stamping? then StepStamp(c, s)
    else if s.pc.Finishing? then StepFinish(c, s)
    else s
  }

  function StepPutRecord(s: State, reply: Reply): State {
    if s.pc.FailingRecord? then StepFailRecord(s, reply)
    else if s.pc.FinishingRecord? then StepFinishRecord(s, reply)
    else s
  }

  /** The call the worker is about to make; any other call of its changes nothing. */
  predicate Expected(pc: Pc, i: Input) {
    match i
    case Fetch(_) => pc.Idle?
    case ReadClock => pc.Deciding? || pc.Waiting? || pc.Stamping? || pc.Finishing?
    case PutPolicy(_) =>
      pc.DroppingFinalizer? || pc.AddingFinalizer? || pc.Reporting? || pc.MarkingRotating? || pc.ReportingFailure?
      || pc.RemovingAnnotation? || pc.Committing?
    case CreateRecord(_, _) => pc.CreatingRecord?
    case CallProvider(_) => pc.CallingProvider?
    case PutSecret(_, _) => pc.WritingSecret?
    case PutRecord(_) => pc.FailingRecord? || pc.FinishingRecord?
    case RestartWorkloads(_) => pc.Restarting?
    case List(_) => pc.ListingHistory?
    case DeleteRecord(_) => pc.Pruning? && pc.todo != []
    case _ => false
  }

  function WorkerStep(c: Config, s: State, i: Input): State
    requires Expected(s.pc, i)
  {
    match i
    case Fetch(got) => StepFetch(c, s, got)
    case ReadClock => StepReadClock(c, s)
    case PutPolicy(w) => StepPutPolicy(s, w)
    case CreateRecord(reply, created) => StepCreateRecord(c, s, reply, created)
    case CallProvider(output) => StepCallProvider(c, s, output)
    case PutSecret(seen, reply) => StepPutSecret(c, s, seen, reply)
    case PutRecord(reply) => StepPutRecord(s, reply)
    case RestartWorkloads(updated) => StepRestart(s, updated)
    case List(listing) => StepList(c, s, listing)
    case DeleteRecord(reply) => StepDelete(s, reply)
  }

  function EditApi(api: Server, spec: Spec, rotate: Option<string>, finalizer: bool): Server {
    var p := Last(api.hist);
    if !api.present then api
    else Append(api, p.(spec := spec, rotate := rotate, finalizer := finalizer, edits := p.edits + 1))
  }

  function DeleteApi(api: Server): Server {
    var p := Last(api.hist);
    if !api.present || p.deleting then api else Append(api, p.(deleting := true, edits := p.edits + 1))
  }

  predicate FromEnvironment(i: Input) {
    i.Advance? || i.Edit? || i.Delete? || i.ForeignSecret? || i.ForeignRecord? || i.RemoveRecord? || i.TouchRecord?
    || i.Interrupt?
  }

  /** One step of the surroundings. */
  function EnvironmentStep(c: Config, s: State, i: Input): State
    requires FromEnvironment(i)
  {
    match i
    case Advance(elapsed) => s.(clock := s.clock + elapsed)
    case Edit(spec, rotate, finalizer) => s.(api := EditApi(s.api, spec, rotate, finalizer))
    case Delete => s.(api := DeleteApi(s.api))
    case ForeignSecret(key, content) =>
      var foreign := if content.Present? then content.(writer := None) else content;
      s.(api := s.api.(secrets := s.api.secrets[key := SecretsAt(s.api, key) + [foreign]]))
    case ForeignRecord(n, record) =>
      if Other(n) in s.api.records then s
      else
        var arrived := if Matches(c, record) then 1 else 0;
        s.(api := s.api.(records := s.api.records[Other(n) := record], live := s.api.live + {Other(n)}),
           log := s.log.(arrivals := s.log.arrivals + arrived, lateArrivals := s.log.lateArrivals + arrived))
    case RemoveRecord(id) => s.(api := s.api.(live := s.api.live - {id}))
    case TouchRecord(id) =>
      if id !in s.api.records then s
      else
        var r := s.api.records[id];
        s.(api := s.api.(records := s.api.records[id := r.(version := r.version + 1)]))
    case Interrupt => Stop(s, Interrupted)
  }

  function Step(c: Config, s: State, i: Input): State {
    if FromEnvironment(i) then EnvironmentStep(c, s, i)
    else if Expected(s.pc, i) then WorkerStep(c, s, i)
    else s
  }

  /** The state after a run. */
  function Run(c: Config, start: State, inputs: seq<Input>): State {
    if inputs == [] then start else Step(c, Run(c, start, inputs[..|inputs| - 1]), Last(inputs))
  }

  /** A state some run leads to, from a fresh policy and a clock of our time. */
  ghost predicate Reachable(c: Config, s: State) {
    exists spec, rotate, clock, inputs ::
      UNIX_EPOCH <= clock && s == Run(c, Init(spec, rotate, clock), inputs)
  }

  /** Runs compose. */
  lemma {:induction false} RunAppend(c: Config, start: State, first: seq<Input>, second: seq<Input>)
    ensures Run(c, start, first + second) == Run(c, Run(c, start, first), second)
  {
    if second == [] {
      assert first + second == first;
    } else {
      var n := |second| - 1;
      RunAppend(c, start, first, second[..n]);
      assert (first + second)[..|first| + n] == first + second[..n];
    }
  }

  lemma ReachableStep(c: Config, s: State, i: Input)
    requires Reachable(c, s)
    ensures Reachable(c, Step(c, s, i))
  {
    var spec, rotate, clock, inputs :| UNIX_EPOCH <= clock && s == Run(c, Init(spec, rotate, clock), inputs);
    assert (inputs + [i])[..|inputs|] == inputs;
    assert Step(c, s, i) == Run(c, Init(spec, rotate, clock), inputs + [i]);
  }

  lemma {:induction false} ReachableRun(c: Config, s: State, inputs: seq<Input>)
    requires Reachable(c, s)
    ensures Reachable(c, Run(c, s, inputs))
  {
    if inputs != [] {
      ReachableRun(c, s, inputs[..|inputs| - 1]);
      ReachableStep(c, Run(c, s, inputs[..|inputs| - 1]), Last(inputs));
    }
  }

  lemma CommitIsTheStep(c: Config, s: State, w: Write)
    requires s.pc.Committing?
    ensures Step(c, s, PutPolicy(w)) == StepCommit(s, w)
  {
  }

  lemma RemovalIsTheStep(c: Config, s: State, w: Write)
    requires s.pc.RemovingAnnotation?
    ensures Step(c, s, PutPolicy(w)) == StepRemoveAnnotation(s, w)
  {
  }
}
