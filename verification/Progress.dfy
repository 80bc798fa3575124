/**
 Progress: a reconcile that nothing disturbs carries its rotation through. The policy
 is due or requested, every call succeeds and nobody else writes; then the Secret has
 the mapped data, the record says so, the request is gone and the time is stored.
 */
module Progress {
  import opened Prelude
  import opened Clock
  import opened Api
  import opened Provider
  import opened Machine
  import Commits
  import RecordHistory
  import Secrets
  import Statuses
  import Targets

  const ACKNOWLEDGED := Write(Accepted, false, false)

  /** What the surroundings supply to one rotation; `copy` is the revision of the Secret in the cache. */
  datatype Supply = Supply(created: Instant, secret: Secret, copy: nat, updated: seq<bool>)

  // ---------- the calls, part by part ----------

  function Opening(s: State): seq<Input> {
    [Fetch(Revision(|s.api.hist| - 1)), ReadClock, PutPolicy(ACKNOWLEDGED)]
  }

  function Calling(supply: Supply): seq<Input> {
    [CreateRecord(Accepted, supply.created), CallProvider(Ok(supply.secret))]
  }

  function Removing(p: Policy): seq<Input> {
    if IsManual(p) then [PutPolicy(ACKNOWLEDGED)] else []
  }

  function Closing(supply: Supply): seq<Input> {
    [RestartWorkloads(supply.updated), PutRecord(Accepted)] + [ReadClock, PutPolicy(ACKNOWLEDGED)]
  }

  /** All calls of the rotation. */
  function Calls(s: State, supply: Supply): seq<Input> {
    Opening(s) + Calling(supply) + [PutSecret(supply.copy, Accepted)] + Removing(Current(s)) + Closing(supply)
  }

  // ---------- what holds between the parts ----------

  /** One attempt has begun after those of the past. */
  ghost predicate Begun(s: State, past: seq<Attempt>) {
    |s.log.ledger| == |past| + 1 && s.log.ledger[..|past|] == past
  }

  /** The worker has the current revision in memory; of the policy `p` only the status has changed. */
  ghost predicate UpToDate(s: State, p: Policy) {
    && s.api.present && s.mem == Memory(|s.api.hist| - 1, Current(s))
    && Current(s) == p.(status := Current(s).status)
  }

  /** The attempt has a record of its own, acknowledged and untouched. */
  ghost predicate HasRecord(s: State, n: nat) {
    && CurrentAttempt(s).handle == Named(0)
    && Own(n) in s.api.live && Own(n) in s.api.records && s.api.records[Own(n)].version == 0
  }

  /** The attempt knows what to write, and where. */
  ghost predicate Prepared(c: Config, s: State, spec: Spec, data: Secret) {
    var a := CurrentAttempt(s);
    a.target == TargetKey(c, spec) && a.keys == spec.keys && a.data == data
  }

  /** The record is complete. */
  ghost predicate Recorded(s: State, n: nat, keys: seq<KeyMapping>) {
    && Own(n) in s.api.records && s.api.records[Own(n)].phase == Succeeded
    && s.api.records[Own(n)].rotatedKeys == SecretKeys(keys)
  }

  /** The policy once its request is served. */
  function Unrequested(p: Policy): Policy {
    if IsManual(p) then p.(rotate := None) else p
  }

  // ---------- runs of a few steps ----------

  lemma OneStep(c: Config, s: State, i: Input)
    ensures Run(c, s, [i]) == Step(c, s, i)
  {
    assert [i][..0] == [];
  }

  lemma TwoSteps(c: Config, s: State, i: Input, j: Input)
    ensures Run(c, s, [i, j]) == Step(c, Step(c, s, i), j)
  {
    OneStep(c, s, i);
    assert [i, j][..1] == [i];
  }

  lemma ThreeSteps(c: Config, s: State, i: Input, j: Input, k: Input, r: State)
    requires r == Run(c, s, [i, j])
    ensures Run(c, s, [i, j, k]) == Step(c, r, k)
  {
    assert [i, j, k][..2] == [i, j];
  }

  // ---------- opening ----------

  lemma OpeningDecides(c: Config, s: State)
    requires s.pc.Idle? && Commits.Workable(c, Current(s))
    requires Due(c, Current(s), s.clock).Ok? && (Due(c, Current(s), s.clock).value || IsManual(Current(s)))
    ensures var d := Commits.FreshDecision(c, s);
            && d.pc == MarkingRotating && d.api == s.api && d.clock == s.clock && d.log.commits == s.log.commits
            && d.mem == Memory(|s.api.hist| - 1, Current(s).(status := Current(s).status.(phase := Rotating)))
            && Begun(d, s.log.ledger) && Last(d.log.ledger).decision.manual == IsManual(Current(s))
  {
    var f := StepFetch(c, s, Revision(|s.api.hist| - 1));
    Commits.FetchThenDecide(c, s, f);
    assert f.mem.version == |s.api.hist| - 1 && f.api == s.api;
  }

  lemma MarkLeads(c: Config, d: State, t: State, p: Policy)
    requires d.pc.MarkingRotating? && d.api.present && Current(d) == p && t == Step(c, d, PutPolicy(ACKNOWLEDGED))
    requires d.mem == Memory(|d.api.hist| - 1, p.(status := p.status.(phase := Rotating)))
    ensures t.pc == CreatingRecord && UpToDate(t, p)
    ensures t.api == d.api.(hist := t.api.hist) && t.clock == d.clock && t.log == d.log
  {
    assert t == StepMarkRotating(d, ACKNOWLEDGED);
  }

  lemma OpeningRuns(c: Config, s: State)
    requires s.pc.Idle?
    ensures Run(c, s, Opening(s)) == Step(c, Commits.FreshDecision(c, s), PutPolicy(ACKNOWLEDGED))
  {
    var fetch := Fetch(Revision(|s.api.hist| - 1));
    TwoSteps(c, s, fetch, ReadClock);
    ThreeSteps(c, s, fetch, ReadClock, PutPolicy(ACKNOWLEDGED), Commits.FreshDecision(c, s));
  }

  lemma OpeningLeads(c: Config, s: State, t: State)
    requires s.pc.Idle? && s.api.present && Commits.Workable(c, Current(s)) && t == Run(c, s, Opening(s))
    requires Due(c, Current(s), s.clock).Ok? && (Due(c, Current(s), s.clock).value || IsManual(Current(s)))
    ensures t.pc == CreatingRecord && UpToDate(t, Current(s)) && Begun(t, s.log.ledger)
    ensures CurrentAttempt(t).decision.manual == IsManual(Current(s))
    ensures t.api == s.api.(hist := t.api.hist) && t.clock == s.clock && t.log.commits == s.log.commits
  {
    OpeningRuns(c, s);
    OpeningDecides(c, s);
    MarkLeads(c, Commits.FreshDecision(c, s), t, Current(s));
  }

  // ---------- calling the provider ----------

  lemma CreateLeads(c: Config, s: State, p: Policy, past: seq<Attempt>, created: Instant, t: State)
    requires s.pc == CreatingRecord && UpToDate(s, p) && Begun(s, past)
    requires t == Step(c, s, CreateRecord(Accepted, created))
    ensures t.pc == CallingProvider && UpToDate(t, p) && Begun(t, past) && HasRecord(t, |past|)
    ensures CurrentAttempt(t).decision == CurrentAttempt(s).decision && t.mem == s.mem && t.log.commits == s.log.commits
    ensures t.api.hist == s.api.hist && t.api.secrets == s.api.secrets && t.clock == s.clock
  {
    assert t == StepCreateRecord(c, s, Accepted, created);
  }

  lemma CallLeads(c: Config, s: State, p: Policy, past: seq<Attempt>, secret: Secret, data: Secret, t: State)
    requires s.pc == CallingProvider && UpToDate(s, p) && Begun(s, past) && HasRecord(s, |past|)
    requires Mapped(secret, p.spec.keys) == Ok(data) && t == Step(c, s, CallProvider(Ok(secret)))
    ensures t.pc == WritingSecret && UpToDate(t, p) && Begun(t, past) && HasRecord(t, |past|)
    ensures Prepared(c, t, p.spec, data)
    ensures CurrentAttempt(t).decision == CurrentAttempt(s).decision && t.mem == s.mem && t.log.commits == s.log.commits
    ensures t.api == s.api && t.clock == s.clock
  {
    assert t == StepCallProvider(c, s, Ok(secret));
  }

  lemma CallingLeads(c: Config, s: State, p: Policy, past: seq<Attempt>, supply: Supply, data: Secret, t: State)
    requires s.pc == CreatingRecord && UpToDate(s, p) && Begun(s, past) && t == Run(c, s, Calling(supply))
    requires Mapped(supply.secret, p.spec.keys) == Ok(data)
    ensures t.pc == WritingSecret && UpToDate(t, p) && Begun(t, past) && HasRecord(t, |past|)
    ensures Prepared(c, t, p.spec, data)
    ensures CurrentAttempt(t).decision == CurrentAttempt(s).decision && t.log.commits == s.log.commits
    ensures t.api.hist == s.api.hist && t.api.secrets == s.api.secrets && t.clock == s.clock
  {
    var r := Step(c, s, CreateRecord(Accepted, supply.created));
    TwoSteps(c, s, CreateRecord(Accepted, supply.created), CallProvider(Ok(supply.secret)));
    CreateLeads(c, s, p, past, supply.created, r);
    CallLeads(c, r, p, past, supply.secret, data, t);
  }

  // ---------- writing the Secret ----------

  /** With the current copy the Secret always ends up with the data and the two labels. */
  lemma CurrentCopyIsWritten(h: SecretHistory, data: Secret, name: string, n: nat)
    ensures var r := CreateOrUpdate(h, |h| - 1, data, name, n, Accepted);
            r.1.Succeeded() && Secrets.IsWanted(Last(r.0), data, name)
  {
    Secrets.CreateOrUpdateIs(h, |h| - 1, data, name, n, Accepted);
    assert "secrets.keysmith.io/managed-by" != "secrets.keysmith.io/policy" by {
      assert |"secrets.keysmith.io/managed-by"| != |"secrets.keysmith.io/policy"|;
    }
  }

  /** What a write that reports no error leaves behind. */
  ghost predicate Written(c: Config, s: State, p: Policy, past: seq<Attempt>, data: Secret, copy: nat, t: State) {
    && t.pc == (if IsManual(p) then RemovingAnnotation else Restarting)
    && Begun(t, past) && HasRecord(t, |past|) && Prepared(c, t, p.spec, data)
    && var h := SecretsAt(s.api, TargetKey(c, p.spec));
    && copy < |h|
    && SecretsAt(t.api, TargetKey(c, p.spec)) == CreateOrUpdate(h, copy, data, c.name, |past|, Accepted).0
    && CurrentAttempt(t).write == CreateOrUpdate(h, copy, data, c.name, |past|, Accepted).1
    && t.api.hist == s.api.hist && t.api.present && t.clock == s.clock && t.log.commits == s.log.commits
    && t.mem == Memory(|t.api.hist| - 1, Unrequested(Current(t)))
  }

  lemma WriteLeads(c: Config, s: State, p: Policy, past: seq<Attempt>, data: Secret, copy: nat, t: State)
    requires s.pc == WritingSecret && UpToDate(s, p) && Begun(s, past) && HasRecord(s, |past|)
    requires Prepared(c, s, p.spec, data)
    requires CurrentAttempt(s).decision.manual == IsManual(p) && copy < |SecretsAt(s.api, TargetKey(c, p.spec))|
    requires CreateOrUpdate(SecretsAt(s.api, TargetKey(c, p.spec)), copy, data, c.name, |past|, Accepted).1.Succeeded()
    requires t == StepPutSecret(c, s, copy, Accepted)
    ensures Written(c, s, p, past, data, copy, t)
  {
  }

  lemma WritingLeads(c: Config, s: State, p: Policy, past: seq<Attempt>, data: Secret, copy: nat, t: State)
    requires s.pc == WritingSecret && UpToDate(s, p) && Begun(s, past) && HasRecord(s, |past|)
    requires Prepared(c, s, p.spec, data)
    requires CurrentAttempt(s).decision.manual == IsManual(p) && copy < |SecretsAt(s.api, TargetKey(c, p.spec))|
    requires CreateOrUpdate(SecretsAt(s.api, TargetKey(c, p.spec)), copy, data, c.name, |past|, Accepted).1.Succeeded()
    requires t == Run(c, s, [PutSecret(copy, Accepted)])
    ensures Written(c, s, p, past, data, copy, t)
  {
    OneStep(c, s, PutSecret(copy, Accepted));
    WriteLeads(c, s, p, past, data, copy, t);
  }

  // ---------- removing the annotation ----------

  lemma RemovingLeads(c: Config, s: State, p: Policy, t: State)
    requires s.pc == if IsManual(p) then RemovingAnnotation else Restarting
    requires s.api.present && Current(s) == p.(status := Current(s).status) && !p.deleting
    requires s.mem == Memory(|s.api.hist| - 1, Unrequested(Current(s))) && t == Run(c, s, Removing(p))
    ensures t.pc == Restarting && UpToDate(t, Unrequested(p)) && t.api == s.api.(hist := t.api.hist)
    ensures t.log == s.log.(removals := t.log.removals) && t.clock == s.clock
  {
    if IsManual(p) {
      RemovalIsTheStep(c, s, ACKNOWLEDGED);
      OneStep(c, s, PutPolicy(ACKNOWLEDGED));
      assert t == StepRemoveAnnotation(s, ACKNOWLEDGED);
    }
  }

  // ---------- closing ----------

  /** The attempt with what the rest of the rotation adds to it. */
  ghost predicate SameButClosing(a: Attempt, b: Attempt) {
    b == a.(restarted := b.restarted, stamp := b.stamp)
  }

  lemma RestartLeads(c: Config, s: State, p: Policy, past: seq<Attempt>, updated: seq<bool>, t: State)
    requires s.pc == Restarting && UpToDate(s, p) && Begun(s, past) && HasRecord(s, |past|)
    requires |updated| == |p.spec.restartTargets| && t == Step(c, s, RestartWorkloads(updated))
    ensures t.pc == FinishingRecord && UpToDate(t, p) && Begun(t, past) && HasRecord(t, |past|)
    ensures SameButClosing(CurrentAttempt(s), CurrentAttempt(t))
    ensures t.api == s.api && t.clock == s.clock && t.log.commits == s.log.commits
  {
    assert t == StepRestart(s, updated);
  }

  lemma FinishLeads(c: Config, s: State, p: Policy, past: seq<Attempt>, t: State)
    requires s.pc == FinishingRecord && UpToDate(s, p) && Begun(s, past) && HasRecord(s, |past|)
    requires t == Step(c, s, PutRecord(Accepted))
    ensures t.pc == Stamping && UpToDate(t, p) && Recorded(t, |past|, p.spec.keys)
    ensures t.api == s.api.(records := t.api.records) && t.clock == s.clock && t.log == s.log
  {
    assert t == StepFinishRecord(s, Accepted);
  }

  lemma RecordLeads(c: Config, s: State, p: Policy, past: seq<Attempt>, updated: seq<bool>, t: State)
    requires s.pc == Restarting && UpToDate(s, p) && Begun(s, past) && HasRecord(s, |past|)
    requires |updated| == |p.spec.restartTargets| && t == Run(c, s, [RestartWorkloads(updated), PutRecord(Accepted)])
    ensures t.pc == Stamping && UpToDate(t, p) && Begun(t, past) && Recorded(t, |past|, p.spec.keys)
    ensures SameButClosing(CurrentAttempt(s), CurrentAttempt(t))
    ensures t.api == s.api.(records := t.api.records) && t.clock == s.clock && t.log.commits == s.log.commits
  {
    var r := Step(c, s, RestartWorkloads(updated));
    TwoSteps(c, s, RestartWorkloads(updated), PutRecord(Accepted));
    RestartLeads(c, s, p, past, updated, r);
    FinishLeads(c, r, p, past, t);
  }

  /** The worker is about to store the success of a rotation of the policy `p`. */
  ghost predicate AboutToCommit(c: Config, s: State, p: Policy, past: seq<Attempt>, now: Instant) {
    && s.pc == Committing && s.api.present && Begun(s, past)
    && s.mem.version == |s.api.hist| - 1 && Current(s) == p.(status := Current(s).status)
    && Statuses.ShowsSuccess(s.mem.obj.status, RecordRef(Some(|past|)), now, c.parse(p.spec.schedule))
  }

  lemma StampLeads(c: Config, s: State, p: Policy, past: seq<Attempt>, t: State)
    requires s.pc == Stamping && UpToDate(s, p) && Begun(s, past) && CurrentAttempt(s).handle.Named?
    requires t == Step(c, s, ReadClock)
    ensures AboutToCommit(c, t, p, past, s.clock) && SameButClosing(CurrentAttempt(s), CurrentAttempt(t))
    ensures CurrentAttempt(t).stamp == s.clock
    ensures t.api == s.api && t.log.commits == s.log.commits && t.clock == s.clock
  {
    StampShows(c, s, p, past, t);
    assert t == StepStamp(c, s);
  }

  lemma StampShows(c: Config, s: State, p: Policy, past: seq<Attempt>, t: State)
    requires s.pc == Stamping && UpToDate(s, p) && Begun(s, past) && CurrentAttempt(s).handle.Named?
    requires t == Step(c, s, ReadClock)
    ensures Statuses.ShowsSuccess(t.mem.obj.status, RecordRef(Some(|past|)), s.clock, c.parse(p.spec.schedule))
  {
    assert t == StepStamp(c, s);
    Statuses.SuccessShows(c, p.spec, Current(s).status, RecordRef(Some(|past|)), s.clock);
  }

  /** The commit is stored. */
  ghost predicate Stored(c: Config, s: State, t: State, p: Policy, past: seq<Attempt>, now: Instant) {
    && t.pc == ListingHistory && UpToDate(t, p) && t.api == s.api.(hist := t.api.hist)
    && t.log.ledger == s.log.ledger && t.clock == s.clock
    && |t.log.commits| == |s.log.commits| + 1 && Last(t.log.commits).attempt == |past|
    && Statuses.ShowsSuccess(Current(t).status, RecordRef(Some(|past|)), now, c.parse(p.spec.schedule))
  }

  lemma CommitLeads(c: Config, s: State, p: Policy, past: seq<Attempt>, now: Instant, t: State)
    requires AboutToCommit(c, s, p, past, now) && t == StepCommit(s, ACKNOWLEDGED)
    ensures Stored(c, s, t, p, past, now)
  {
  }

  lemma StoringLeads(c: Config, s: State, p: Policy, past: seq<Attempt>, t: State)
    requires s.pc == Stamping && UpToDate(s, p) && Begun(s, past) && CurrentAttempt(s).handle.Named?
    requires t == Run(c, s, [ReadClock, PutPolicy(ACKNOWLEDGED)])
    ensures t.pc == ListingHistory && UpToDate(t, p) && Begun(t, past)
    ensures SameButClosing(CurrentAttempt(s), CurrentAttempt(t))
    ensures t.api == s.api.(hist := t.api.hist) && t.clock == s.clock == CurrentAttempt(t).stamp
    ensures |t.log.commits| == |s.log.commits| + 1 && Last(t.log.commits).attempt == |past|
    ensures Statuses.ShowsSuccess(Current(t).status, RecordRef(Some(|past|)), s.clock, c.parse(p.spec.schedule))
  {
    var r := Step(c, s, ReadClock);
    TwoSteps(c, s, ReadClock, PutPolicy(ACKNOWLEDGED));
    StampLeads(c, s, p, past, r);
    CommitIsTheStep(c, r, ACKNOWLEDGED);
    CommitLeads(c, r, p, past, s.clock, t);
  }

  /** The state `t`, after `s`, has the rotation of `p` on record, in the commits and in the status. */
  ghost predicate Finished(c: Config, s: State, p: Policy, past: seq<Attempt>, t: State) {
    && t.pc == ListingHistory && UpToDate(t, p) && Begun(t, past) && Recorded(t, |past|, p.spec.keys)
    && t.clock == s.clock == CurrentAttempt(t).stamp
    && |t.log.commits| == |s.log.commits| + 1 && Last(t.log.commits).attempt == |past|
    && Statuses.ShowsSuccess(Current(t).status, RecordRef(Some(|past|)), s.clock, c.parse(p.spec.schedule))
  }

  /** What the closing of a rotation leaves behind. */
  ghost predicate Closed(c: Config, s: State, p: Policy, past: seq<Attempt>, t: State) {
    && Finished(c, s, p, past, t)
    && SameButClosing(CurrentAttempt(s), CurrentAttempt(t)) && t.api.secrets == s.api.secrets
  }

  lemma ClosingLeads(c: Config, s: State, p: Policy, past: seq<Attempt>, supply: Supply, t: State)
    requires s.pc == Restarting && UpToDate(s, p) && Begun(s, past) && HasRecord(s, |past|)
    requires |supply.updated| == |p.spec.restartTargets| && t == Run(c, s, Closing(supply))
    ensures Closed(c, s, p, past, t)
  {
    var recording := [RestartWorkloads(supply.updated), PutRecord(Accepted)];
    var storing := [ReadClock, PutPolicy(ACKNOWLEDGED)];
    RunAppend(c, s, recording, storing);
    var r := Run(c, s, recording);
    RecordLeads(c, s, p, past, supply.updated, r);
    StoringLeads(c, r, p, past, t);
  }

  // ---------- the whole rotation ----------

  /**
   The rotation of the policy `p` has completed: what the state `t` after it has that the state
   `s` before it had not.
   */
  ghost predicate Completed(c: Config, s: State, supply: Supply, data: Secret, t: State) {
    var p, past, key := Current(s), s.log.ledger, TargetKey(c, Current(s).spec);
    && Finished(c, s, Unrequested(p), past, t)
    && Prepared(c, t, p.spec, data) && Targets.Names(c, p.spec, key)
    && supply.copy < |SecretsAt(s.api, key)|
    && var r := CreateOrUpdate(SecretsAt(s.api, key), supply.copy, data, c.name, |past|, Accepted);
    && SecretsAt(t.api, key) == r.0 && CurrentAttempt(t).write == r.1
  }

  /** By the fields: the policy falls due, or it is requested and its schedule can be evaluated. */
  ghost predicate Rotates(c: Config, p: Policy, now: Instant) {
    || Commits.FallsDue(c, p.spec, p.status.lastRotationTime, now)
    || (p.rotate == Some("now") && c.parse(p.spec.schedule).Some?)
  }

  /** A due or requested policy that can be worked on, and supplies that let the rotation succeed. */
  ghost predicate CanComplete(c: Config, s: State, supply: Supply, data: Secret) {
    var p, h := Current(s), SecretsAt(s.api, TargetKey(c, Current(s).spec));
    && s.pc.Idle? && s.api.present && Commits.Workable(c, p)
    && Rotates(c, p, s.clock)
    && Mapped(supply.secret, p.spec.keys) == Ok(data) && |supply.updated| == |p.spec.restartTargets|
    && supply.copy < |h| && CreateOrUpdate(h, supply.copy, data, c.name, |s.log.ledger|, Accepted).1.Succeeded()
  }

  lemma UpToWrite(c: Config, s: State, supply: Supply, data: Secret, t: State)
    requires CanComplete(c, s, supply, data) && t == Run(c, s, Opening(s) + Calling(supply))
    ensures var p := Current(s);
            && t.pc == WritingSecret && UpToDate(t, p) && Begun(t, s.log.ledger) && HasRecord(t, |s.log.ledger|)
            && Prepared(c, t, p.spec, data) && CurrentAttempt(t).decision.manual == IsManual(p)
            && t.log.commits == s.log.commits && t.api.secrets == s.api.secrets && t.clock == s.clock
  {
    RunAppend(c, s, Opening(s), Calling(supply));
    Commits.DueIffFallsDue(c, Current(s), s.clock);
    var r := Run(c, s, Opening(s));
    OpeningLeads(c, s, r);
    CallingLeads(c, r, Current(s), s.log.ledger, supply, data, t);
  }

  lemma FromWriteOn(c: Config, s: State, p: Policy, past: seq<Attempt>, supply: Supply, r: State, t: State)
    requires s.pc == if IsManual(p) then RemovingAnnotation else Restarting
    requires s.api.present && Current(s) == p.(status := Current(s).status) && !p.deleting
    requires s.mem == Memory(|s.api.hist| - 1, Unrequested(Current(s)))
    requires Begun(s, past) && HasRecord(s, |past|) && |supply.updated| == |p.spec.restartTargets|
    requires r == Run(c, s, Removing(p)) && t == Run(c, r, Closing(supply))
    ensures Closed(c, s, Unrequested(p), past, t)
  {
    RemovingLeads(c, s, p, r);
    ClosingLeads(c, r, Unrequested(p), past, supply, t);
  }

  /** The states a rotation passes through. */
  ghost function Called(c: Config, s: State, supply: Supply): State { Run(c, s, Opening(s) + Calling(supply)) }

  ghost function Wrote(c: Config, s: State, supply: Supply): State {
    Run(c, Called(c, s, supply), [PutSecret(supply.copy, Accepted)])
  }

  ghost function Removed(c: Config, s: State, supply: Supply): State {
    Run(c, Wrote(c, s, supply), Removing(Current(s)))
  }

  lemma CallsPassThrough(c: Config, s: State, supply: Supply)
    ensures Run(c, s, Calls(s, supply)) == Run(c, Removed(c, s, supply), Closing(supply))
  {
    var first, second, third := Opening(s) + Calling(supply), [PutSecret(supply.copy, Accepted)], Removing(Current(s));
    RunAppend(c, s, first, second);
    RunAppend(c, s, first + second, third);
    RunAppend(c, s, first + second + third, Closing(supply));
  }

  lemma UpToWritten(c: Config, s: State, supply: Supply, data: Secret, r: State, t: State)
    requires CanComplete(c, s, supply, data)
    requires r == Run(c, s, Opening(s) + Calling(supply)) && t == Run(c, r, [PutSecret(supply.copy, Accepted)])
    ensures Written(c, r, Current(s), s.log.ledger, data, supply.copy, t)
    ensures r.api.secrets == s.api.secrets && r.clock == s.clock && r.log.commits == s.log.commits
    ensures Current(r) == Current(s).(status := Current(r).status)
  {
    UpToWrite(c, s, supply, data, r);
    WritingLeads(c, r, Current(s), s.log.ledger, data, supply.copy, t);
  }

  lemma WrittenAndClosed(c: Config, s: State, supply: Supply, data: Secret, called: State, wrote: State, t: State)
    requires Written(c, called, Current(s), s.log.ledger, data, supply.copy, wrote)
    requires called.api.secrets == s.api.secrets && called.clock == s.clock && called.log.commits == s.log.commits
    requires Closed(c, wrote, Unrequested(Current(s)), s.log.ledger, t)
    ensures Completed(c, s, supply, data, t)
  {
  }

  lemma RotationPasses(c: Config, s: State, supply: Supply, data: Secret, called: State, wrote: State, removed: State,
                       t: State)
    requires CanComplete(c, s, supply, data)
    requires called == Run(c, s, Opening(s) + Calling(supply))
    requires wrote == Run(c, called, [PutSecret(supply.copy, Accepted)])
    requires removed == Run(c, wrote, Removing(Current(s))) && t == Run(c, removed, Closing(supply))
    ensures Completed(c, s, supply, data, t)
  {
    UpToWritten(c, s, supply, data, called, wrote);
    FromWriteOn(c, wrote, Current(s), s.log.ledger, supply, removed, t);
    WrittenAndClosed(c, s, supply, data, called, wrote, t);
  }

  /**
   A workable policy that is due or requested, worked on undisturbed with a provider
   whose answer maps: the record says Succeeded with the rotated keys, the request is
   gone, nothing else of the policy has changed but its status, which is Ready with the
   time of the rotation, and the Secret is what the create-or-update makes of it.
   */
  lemma RotationCompletes(c: Config, s: State, supply: Supply, data: Secret, t: State)
    requires CanComplete(c, s, supply, data) && t == Run(c, s, Calls(s, supply))
    ensures Completed(c, s, supply, data, t)
  {
    CallsPassThrough(c, s, supply);
    RotationPasses(c, s, supply, data, Called(c, s, supply), Wrote(c, s, supply), Removed(c, s, supply), t);
  }

  /**
   With a current copy, in particular, the Secret that the policy asks for by name, in the
   namespace it gives or else its own, then has the mapped data. The status stored has the
   phase Ready, the time and the record of this rotation, and its three conditions are true.
   */
  lemma UndisturbedRotationCompletes(c: Config, s: State, supply: Supply, data: Secret, key: ObjectKey, t: State)
    requires s.pc.Idle? && s.api.present && Commits.Workable(c, Current(s))
    requires Rotates(c, Current(s), s.clock)
    requires Mapped(supply.secret, Current(s).spec.keys) == Ok(data)
    requires |supply.updated| == |Current(s).spec.restartTargets|
    requires key.name == Current(s).spec.secretRef.name
    requires var given := Current(s).spec.secretRef.namespace;
             key.namespace == if given != "" then given else c.namespace
    requires supply.copy == |SecretsAt(s.api, key)| - 1 && t == Run(c, s, Calls(s, supply))
    ensures var p, n, shown, status := Current(s), |s.log.ledger|, Last(SecretsAt(t.api, key)), Current(t).status;
            && t.pc == ListingHistory
            && Secrets.IsWanted(shown, data, c.name)
            && Own(n) in t.api.records && t.api.records[Own(n)].phase == Succeeded
            && t.api.records[Own(n)].rotatedKeys == SecretKeys(p.spec.keys)
            && Current(t) == p.(status := status, rotate := if p.rotate == Some("now") then None else p.rotate)
            && status.phase == Phase.Ready && status.lastRotationRecord == Some(RecordRef(Some(n)))
            && status.lastRotationTime == (if s.clock == ZERO_TIME then None else Some(Truncate(s.clock)))
            && FindCondition(status.conditions, ReadyCondition) == Some(true)
            && FindCondition(status.conditions, ConditionType.Scheduled) == Some(true)
            && FindCondition(status.conditions, ProviderHealthy) == Some(true)
  {
    CurrentCopySuffices(c, s, supply, data, key);
    RotationCompletes(c, s, supply, data, t);
    CompletedShows(c, s, supply, data, key, t);
  }

  lemma CurrentCopySuffices(c: Config, s: State, supply: Supply, data: Secret, key: ObjectKey)
    requires s.pc.Idle? && s.api.present && Commits.Workable(c, Current(s)) && Rotates(c, Current(s), s.clock)
    requires Mapped(supply.secret, Current(s).spec.keys) == Ok(data)
    requires |supply.updated| == |Current(s).spec.restartTargets| && supply.copy == |SecretsAt(s.api, key)| - 1
    requires Targets.Names(c, Current(s).spec, key)
    ensures CanComplete(c, s, supply, data) && key == TargetKey(c, Current(s).spec)
  {
    CurrentCopyIsWritten(SecretsAt(s.api, key), data, c.name, |s.log.ledger|);
  }

  lemma CompletedShows(c: Config, s: State, supply: Supply, data: Secret, key: ObjectKey, t: State)
    requires Completed(c, s, supply, data, t) && key == TargetKey(c, Current(s).spec)
    requires supply.copy == |SecretsAt(s.api, key)| - 1
    ensures Secrets.IsWanted(Last(SecretsAt(t.api, key)), data, c.name)
    ensures Current(t) == Current(s).(status := Current(t).status,
                                      rotate := if IsManual(Current(s)) then None else Current(s).rotate)
  {
    CurrentCopyIsWritten(SecretsAt(s.api, key), data, c.name, |s.log.ledger|);
  }

  // ---------- the end of the reconcile ----------

  /** The calls after the commit: the listing, the deletions it asks for, and the clock. */
  function Ending(order: seq<RecordId>, replies: seq<Reply>): seq<Input> {
    [List(Some(order))] + RecordHistory.Deletions(replies) + [ReadClock]
  }

  /** The listing is current and sorted, and the deletions that bring it to the limit take place. */
  ghost predicate CanPrune(c: Config, s: State, order: seq<RecordId>, replies: seq<Reply>, limit: nat) {
    && SortedListing(c, s.api.records, order) && Elements(order) == LiveMatching(c, s.api)
    && |replies| == RecordHistory.Excess(|order|, limit) && RecordHistory.AllTakePlace(replies)
  }

  /** The reconcile ends with the time left until the next rotation, and with no more records than the limit. */
  ghost predicate Ended(c: Config, s: State, order: seq<RecordId>, replies: seq<Reply>, limit: nat, t: State) {
    && t.pc == Idle(RequeueAfter(Until(NextOrZero(c, s.mem.obj.spec.schedule, CurrentAttempt(s).stamp), s.clock)))
    && |replies| <= |order| && t.api == s.api.(live := s.api.live - Elements(order[..|replies|]))
    && |LiveMatching(c, t.api)| <= limit
    && t.log.ledger == s.log.ledger && t.log.commits == s.log.commits && t.clock == s.clock
  }

  lemma {:induction false} PruneKeeps(c: Config, s: State, inputs: seq<Input>)
    requires forall i :: i in inputs ==> i.List? || i.DeleteRecord?
    ensures var t := Run(c, s, inputs);
            t.log.ledger == s.log.ledger && t.log.commits == s.log.commits && t.clock == s.clock
  {
    if inputs != [] {
      var front := inputs[..|inputs| - 1];
      PruneKeeps(c, s, front);
      PruneStepKeeps(c, Run(c, s, front), Last(inputs));
    }
  }

  lemma PruneStepKeeps(c: Config, s: State, i: Input)
    requires i.List? || i.DeleteRecord?
    ensures var t := Step(c, s, i);
            t.log.ledger == s.log.ledger && t.log.commits == s.log.commits && t.clock == s.clock
  {
  }

  lemma FinishingLeads(c: Config, s: State, t: State)
    requires s.pc == Finishing && t == Run(c, s, [ReadClock])
    ensures t == s.(pc := StepFinish(c, s).pc)
  {
    OneStep(c, s, ReadClock);
    assert Step(c, s, ReadClock) == StepFinish(c, s);
  }

  lemma PruningLeads(c: Config, s: State, order: seq<RecordId>, replies: seq<Reply>, limit: nat, t: State)
    requires s.pc == ListingHistory && CanPrune(c, s, order, replies, limit)
    requires RecordHistory.Allows(s.mem.obj.spec, limit)
    requires t == Run(c, s, [List(Some(order))] + RecordHistory.Deletions(replies))
    ensures t.pc == Finishing && t.mem == s.mem && |LiveMatching(c, t.api)| <= limit
    ensures t.api == s.api.(live := s.api.live - Elements(order[..|replies|]))
    ensures t.log.ledger == s.log.ledger && t.log.commits == s.log.commits && t.clock == s.clock
  {
    RecordHistory.PruneInARow(c, s, order, replies, limit);
    RecordHistory.OnePrune(c, s, order, replies, limit);
    PruneKeeps(c, s, [List(Some(order))] + RecordHistory.Deletions(replies));
  }

  lemma EndingLeads(c: Config, s: State, order: seq<RecordId>, replies: seq<Reply>, limit: nat, r: State, t: State)
    requires s.pc == ListingHistory && CanPrune(c, s, order, replies, limit)
    requires RecordHistory.Allows(s.mem.obj.spec, limit)
    requires r == Run(c, s, [List(Some(order))] + RecordHistory.Deletions(replies)) && t == Run(c, r, [ReadClock])
    ensures Ended(c, s, order, replies, limit, t)
  {
    PruningLeads(c, s, order, replies, limit, r);
    FinishingLeads(c, r, t);
  }

  /**
   The whole reconcile, undisturbed to its end: after the rotation the history is pruned
   to the limit, and the delay is the time left until the schedule's next fire time.
   */
  lemma UndisturbedReconcileEnds(c: Config, s: State, supply: Supply, data: Secret, r: State,
                                 order: seq<RecordId>, replies: seq<Reply>, limit: nat, t: State)
    requires Current(s).spec.historyLimit == Some(limit) || (Current(s).spec.historyLimit == None && limit == 10)
    requires CanComplete(c, s, supply, data) && r == Run(c, s, Calls(s, supply))
    requires CanPrune(c, r, order, replies, limit)
    requires t == Run(c, s, Calls(s, supply) + Ending(order, replies))
    ensures Completed(c, s, supply, data, r) && Ended(c, r, order, replies, limit, t)
    ensures var parsed := c.parse(Current(s).spec.schedule);
            var next := if parsed.Some? then parsed.value(s.clock) else ZERO_TIME;
            t.pc == Idle(RequeueAfter(Until(next, s.clock)))
  {
    var pruning := [List(Some(order))] + RecordHistory.Deletions(replies);
    RotationCompletes(c, s, supply, data, r);
    RunAppend(c, s, Calls(s, supply), Ending(order, replies));
    RunAppend(c, r, pruning, [ReadClock]);
    EndingLeads(c, r, order, replies, limit, Run(c, r, pruning), t);
  }

  // ---------- a provider call that fails ----------

  /** How the server answers the calls of such a rotation, and the error of the provider. */
  datatype Answers = Answers(mark: Write, created: Reply, at: Instant, error: ProviderError, record: Reply)

  function Reading(s: State): seq<Input> {
    [Fetch(Revision(|s.api.hist| - 1)), ReadClock]
  }

  function Marking(answers: Answers): seq<Input> {
    [PutPolicy(answers.mark), CreateRecord(answers.created, answers.at)]
  }

  function Failing(answers: Answers): seq<Input> {
    [CallProvider(Err(answers.error)), PutRecord(answers.record)]
  }

  /** The worker has the policy `p` in memory, but for its status; nothing but status and records has changed. */
  ghost predicate Remembered(s: State, p: Policy, status: Status, t: State) {
    && t.mem.obj.spec == p.spec && t.mem.obj.status == status
    && Current(t) == p.(status := Current(t).status) && t.api.secrets == s.api.secrets
    && t.log.commits == s.log.commits && t.log.pruned == s.log.pruned
  }

  /** The record the attempt has made, if both its calls were answered. */
  ghost predicate Records(t: State, n: nat, answers: Answers) {
    answers.created.Accepted? ==> HasRecord(t, n)
  }

  lemma MarkingStep(c: Config, d: State, w: Write, p: Policy, t: State)
    requires d.pc.MarkingRotating? && Current(d) == p && d.mem.version == |d.api.hist| - 1
    requires d.mem.obj == p.(status := p.status.(phase := Rotating)) && t == Step(c, d, PutPolicy(w))
    ensures t.pc == CreatingRecord && Remembered(d, p, p.status.(phase := Rotating), t) && t.log == d.log
  {
    assert t == StepMarkRotating(d, w);
  }

  lemma CreatingStep(c: Config, s: State, answers: Answers, past: seq<Attempt>, t: State)
    requires s.pc.CreatingRecord? && Begun(s, past)
    requires t == Step(c, s, CreateRecord(answers.created, answers.at))
    ensures t.pc == CallingProvider && t.mem == s.mem && Begun(t, past) && Records(t, |past|, answers)
    ensures t.api.hist == s.api.hist && t.api.secrets == s.api.secrets
    ensures t.log.commits == s.log.commits && t.log.pruned == s.log.pruned
  {
    assert t == StepCreateRecord(c, s, answers.created, answers.at);
  }

  lemma MarkingLeads(c: Config, d: State, p: Policy, past: seq<Attempt>, answers: Answers, t: State)
    requires d.pc.MarkingRotating? && Begun(d, past) && Current(d) == p && d.mem.version == |d.api.hist| - 1
    requires d.mem.obj == p.(status := p.status.(phase := Rotating)) && t == Run(c, d, Marking(answers))
    ensures t.pc == CallingProvider && Begun(t, past) && Records(t, |past|, answers)
    ensures Remembered(d, p, p.status.(phase := Rotating), t)
  {
    TwoSteps(c, d, PutPolicy(answers.mark), CreateRecord(answers.created, answers.at));
    var m := Step(c, d, PutPolicy(answers.mark));
    MarkingStep(c, d, answers.mark, p, m);
    CreatingStep(c, m, answers, past, t);
  }

  lemma FailedCallStep(c: Config, s: State, answers: Answers, past: seq<Attempt>, t: State)
    requires s.pc.CallingProvider? && Begun(s, past) && Records(s, |past|, answers)
    requires t == Step(c, s, CallProvider(Err(answers.error)))
    ensures t.pc == FailingRecord(ProviderFailed) && t.mem == s.mem && t.api == s.api
    ensures Begun(t, past) && Records(t, |past|, answers)
    ensures t.log.commits == s.log.commits && t.log.pruned == s.log.pruned
  {
    assert t == StepCallProvider(c, s, Err(answers.error));
  }

  lemma FailedRecordStep(c: Config, s: State, answers: Answers, past: seq<Attempt>, t: State)
    requires s.pc == FailingRecord(ProviderFailed) && Begun(s, past) && Records(s, |past|, answers)
    requires t == Step(c, s, PutRecord(answers.record))
    ensures t.pc == ReportingFailure && t.mem.version == s.mem.version && t.mem.obj.spec == s.mem.obj.spec
    ensures Statuses.ShowsFailure(s.mem.obj.status, t.mem.obj.status, s.mem.obj.spec.failurePolicy)
    ensures t.api == s.api.(records := t.api.records) && t.log == s.log
    ensures FailedOnRecord(t, |past|, answers)
  {
    assert t == StepFailRecord(s, answers.record);
    Statuses.FailureShows(s.mem.obj.spec, s.mem.obj.status);
  }

  /** If both calls for it were answered, the record says Failed. */
  ghost predicate FailedOnRecord(t: State, n: nat, answers: Answers) {
    answers.created.Accepted? && answers.record.Accepted? ==>
      && Own(n) in t.api.records && t.api.records[Own(n)].phase == RecordPhase.Failed
      && t.api.records[Own(n)].rotatedKeys == [] && t.api.records[Own(n)].restarts == []
  }

  lemma FailingLeads(c: Config, s: State, p: Policy, status: Status, past: seq<Attempt>, answers: Answers, t: State)
    requires s.pc.CallingProvider? && Begun(s, past) && Records(s, |past|, answers)
    requires s.mem.obj.spec == p.spec && s.mem.obj.status == status && t == Run(c, s, Failing(answers))
    ensures t.pc == ReportingFailure && t.mem.obj.spec == p.spec && FailedOnRecord(t, |past|, answers)
    ensures Statuses.ShowsFailure(status, t.mem.obj.status, p.spec.failurePolicy)
    ensures t.api.hist == s.api.hist && t.api.secrets == s.api.secrets
    ensures t.log.commits == s.log.commits && t.log.pruned == s.log.pruned
  {
    TwoSteps(c, s, CallProvider(Err(answers.error)), PutRecord(answers.record));
    var f := Step(c, s, CallProvider(Err(answers.error)));
    FailedCallStep(c, s, answers, past, f);
    FailedRecordStep(c, f, answers, past, t);
  }

  lemma ReportingLeads(c: Config, s: State, w: Write, t: State)
    requires s.pc.ReportingFailure? && t == Step(c, s, PutPolicy(w))
    ensures var backoff := s.mem.obj.spec.retryBackoff;
            t.pc == Idle(RequeueAfter(if backoff.Some? then backoff.value else 30 * SECOND))
    ensures t.mem.obj.status == s.mem.obj.status && t.api == s.api.(hist := t.api.hist) && t.log == s.log
    ensures Current(t) == Current(s).(status := if Applies(s, w) then s.mem.obj.status else Current(s).status)
  {
    assert t == StepReportFailure(s, w);
  }

  /** The state `r` is about to report the failure of a rotation of the policy as it was in `s`. */
  ghost predicate FailedSince(s: State, answers: Answers, r: State) {
    var p := Current(s);
    && r.pc == ReportingFailure && r.mem.obj.spec == p.spec && FailedOnRecord(r, |s.log.ledger|, answers)
    && Statuses.ShowsFailure(p.status.(phase := Rotating), r.mem.obj.status, p.spec.failurePolicy)
    && Current(r) == p.(status := Current(r).status) && r.api.secrets == s.api.secrets
    && r.log.commits == s.log.commits && r.log.pruned == s.log.pruned
  }

  lemma FailureReported(c: Config, s: State, answers: Answers, r: State)
    requires s.pc.Idle? && Commits.Workable(c, Current(s)) && Rotates(c, Current(s), s.clock)
    requires r == Run(c, s, Reading(s) + Marking(answers) + Failing(answers))
    ensures FailedSince(s, answers, r)
  {
    FailurePassesThrough(c, s, answers);
    var d := Commits.FreshDecision(c, s);
    FailurePasses(c, s, answers, d, Run(c, d, Marking(answers)), r);
  }

  lemma FailurePassesThrough(c: Config, s: State, answers: Answers)
    requires s.pc.Idle?
    ensures Run(c, s, Reading(s) + Marking(answers) + Failing(answers)) ==
      Run(c, Run(c, Commits.FreshDecision(c, s), Marking(answers)), Failing(answers))
  {
    RunAppend(c, s, Reading(s) + Marking(answers), Failing(answers));
    RunAppend(c, s, Reading(s), Marking(answers));
    TwoSteps(c, s, Fetch(Revision(|s.api.hist| - 1)), ReadClock);
  }

  lemma DecisionLeads(c: Config, s: State, d: State)
    requires s.pc.Idle? && Commits.Workable(c, Current(s)) && Rotates(c, Current(s), s.clock)
    requires d == Commits.FreshDecision(c, s)
    ensures d.pc == MarkingRotating && d.api == s.api && Begun(d, s.log.ledger)
    ensures d.log.commits == s.log.commits && d.log.pruned == s.log.pruned
    ensures d.mem == Memory(|s.api.hist| - 1, Current(s).(status := Current(s).status.(phase := Rotating)))
  {
    Commits.DueIffFallsDue(c, Current(s), s.clock);
    OpeningDecides(c, s);
    Commits.FetchThenDecide(c, s, StepFetch(c, s, Revision(|s.api.hist| - 1)));
  }

  lemma FailurePasses(c: Config, s: State, answers: Answers, d: State, m: State, r: State)
    requires s.pc.Idle? && Commits.Workable(c, Current(s)) && Rotates(c, Current(s), s.clock)
    requires d == Commits.FreshDecision(c, s)
    requires m == Run(c, d, Marking(answers)) && r == Run(c, m, Failing(answers))
    ensures FailedSince(s, answers, r)
  {
    DecisionLeads(c, s, d);
    MarkingLeads(c, d, Current(s), s.log.ledger, answers, m);
    FailingLeads(c, m, Current(s), Current(s).status.(phase := Rotating), s.log.ledger, answers, r);
  }

  /**
   A rotation whose provider call fails, from the decision to the end of the reconcile,
   however the server answers its calls. The status in memory ends with the phase Ready if
   failures are ignored and Failed otherwise, and it is not Ready; its other conditions and
   its times and record are those before; and a write that takes place stores exactly that.
   The request stays, nothing is written, committed or pruned, and the result is the
   back-off asked for, or 30 seconds.
   */
  lemma FailedRotationEnds(c: Config, s: State, answers: Answers, r: State, w: Write, t: State)
    requires s.pc.Idle? && Commits.Workable(c, Current(s)) && Rotates(c, Current(s), s.clock)
    requires r == Run(c, s, Reading(s) + Marking(answers) + Failing(answers)) && t == Step(c, r, PutPolicy(w))
    ensures var p, status := Current(s), t.mem.obj.status;
            && t.pc == Idle(RequeueAfter(if p.spec.retryBackoff.Some? then p.spec.retryBackoff.value else 30 * SECOND))
            && status == p.status.(phase := status.phase, conditions := status.conditions)
            && status.phase == (if p.spec.failurePolicy == Ignore then Phase.Ready else Phase.Failed)
            && FindCondition(status.conditions, ReadyCondition) == Some(false)
            && (forall kind :: kind != ReadyCondition ==>
                  FindCondition(status.conditions, kind) == FindCondition(p.status.conditions, kind))
            && (Applies(r, w) ==> Current(t) == p.(status := status))
            && Current(t).rotate == p.rotate && t.api.secrets == s.api.secrets
            && t.log.commits == s.log.commits && t.log.pruned == s.log.pruned
            && (answers.created.Accepted? && answers.record.Accepted? ==>
                  Own(|s.log.ledger|) in t.api.records
                  && t.api.records[Own(|s.log.ledger|)].phase == RecordPhase.Failed)
  {
    FailureReported(c, s, answers, r);
    ReportingLeads(c, r, w, t);
  }
}
