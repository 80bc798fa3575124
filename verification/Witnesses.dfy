/**
 Runs that show, state by state, where the code does not keep what it seems to promise:
 each ends in a reachable state that has the flaw.
 */
module Witnesses {
  import opened Prelude
  import opened Clock
  import opened Scheduler
  import opened Api
  import opened Provider
  import opened Machine
  import opened Progress
  import Commits
  import Mock
  import MockRuns
  import Secrets
  import Statuses

  // ---------- the setting ----------

  /** A schedule that is parsed but never fires, like the 30th of February. */
  function Never(t: Instant): Instant {
    ZERO_TIME
  }

  function Setting(name: string): Config {
    Config(name, name, _ => Some(Never), (_, _) => true)
  }

  const PASSWORD: seq<KeyMapping> := [KeyMapping("password", "password")]
  const SPEC := BLANK_SPEC.(keys := PASSWORD, secretRef := ObjectKey("", "target"))

  /** What a provider answers, and what becomes of it under `SPEC`. */
  function Answer(password: string): Secret {
    map["password" := password]
  }

  lemma NeverIsLawful(name: string)
    ensures LawfulParser(Setting(name).parse)
  {
    assert Describes(Never, iset{}, _ => ZERO_TIME);
  }

  lemma AnswerMaps(secret: Secret)
    requires "password" in secret
    ensures Mapped(secret, PASSWORD) == Ok(Answer(secret["password"]))
  {
    assert PASSWORD[..0] == [];
  }

  // ---------- from the beginning to the first rotation ----------

  const ADOPTING: seq<Input> := [Fetch(Revision(0)), PutPolicy(ACKNOWLEDGED)]

  /** A policy the controller has just put its finalizer on. */
  ghost predicate Adopted(s: State) {
    && s.pc.Idle? && s.api.present && s.clock == UNIX_EPOCH
    && s.log.ledger == [] && s.log.commits == [] && s.api.secrets == map[]
    && Current(s) == Policy(SPEC, None, false, true, EMPTY_STATUS, 0)
  }

  function Beginning(): State {
    Init(SPEC, None, UNIX_EPOCH)
  }

  lemma AdoptingLeads(name: string)
    ensures Adopted(Run(Setting(name), Beginning(), ADOPTING))
  {
    var c := Setting(name);
    TwoSteps(c, Beginning(), Fetch(Revision(0)), PutPolicy(ACKNOWLEDGED));
    var f := Step(c, Beginning(), Fetch(Revision(0)));
    assert f == StepFetch(c, Beginning(), Revision(0));
    assert Step(c, f, PutPolicy(ACKNOWLEDGED)) == StepAddFinalizer(f, ACKNOWLEDGED);
  }

  lemma AdoptedState(name: string) returns (s: State)
    ensures s == Run(Setting(name), Beginning(), ADOPTING) && Reachable(Setting(name), s) && Adopted(s)
  {
    s := Run(Setting(name), Beginning(), ADOPTING);
    AdoptingLeads(name);
    BeginningIsReachable(Setting(name));
    ReachableRun(Setting(name), Beginning(), ADOPTING);
  }

  // ---------- one rotation after another ----------

  /** A policy that every reconcile rotates. */
  ghost predicate Idling(s: State) {
    && s.pc.Idle? && s.api.present && s.clock == UNIX_EPOCH
    && Current(s).spec == SPEC && Current(s).finalizer && !Current(s).deleting
  }

  lemma IdlingIsDue(name: string, s: State)
    requires Idling(s)
    ensures Commits.Workable(Setting(name), Current(s)) && Due(Setting(name), Current(s), s.clock) == Ok(true)
  {
    var last := Current(s).status.lastRotationTime;
    if last.Some? {
      ExhaustedScheduleIsAlwaysDue(Setting(name).parse, "", last.value, 0, UNIX_EPOCH);
    }
  }

  /** A failed listing ends the reconcile. */
  const FAILED_LISTING: seq<Input> := [List(None), ReadClock]

  lemma FailedListingLeads(c: Config, s: State, t: State)
    requires s.pc == ListingHistory && t == Run(c, s, FAILED_LISTING)
    ensures t.pc.Idle? && t.api == s.api && t.log == s.log && t.clock == s.clock
  {
    TwoSteps(c, s, List(None), ReadClock);
    assert Step(c, s, List(None)) == StepList(c, s, None);
    assert Step(c, StepList(c, s, None), ReadClock) == StepFinish(c, StepList(c, s, None));
  }

  function Rotating(s: State, supply: Supply): seq<Input> {
    Calls(s, supply) + FAILED_LISTING
  }

  /** What the rotation has left behind. */
  ghost predicate Rotated(c: Config, s: State, supply: Supply, data: Secret, t: State) {
    var past, key := s.log.ledger, TargetKey(c, SPEC);
    && Idling(t) && !IsManual(Current(t)) && Current(t).edits == Current(s).edits
    && Begun(t, past) && Prepared(c, t, SPEC, data) && Recorded(t, |past|, PASSWORD)
    && |t.log.commits| > 0 && Last(t.log.commits).attempt == |past|
    && Current(t).status.lastRotationTime == StoredTime(UNIX_EPOCH) && Statuses.IsReady(Current(t).status) == Some(true)
    && supply.copy < |SecretsAt(s.api, key)|
    && var r := CreateOrUpdate(SecretsAt(s.api, key), supply.copy, data, c.name, |past|, Accepted);
    && SecretsAt(t.api, key) == r.0 && CurrentAttempt(t).write == r.1
  }

  lemma CompletedIsRotated(c: Config, s: State, supply: Supply, data: Secret, r: State, t: State)
    requires Idling(s) && Completed(c, s, supply, data, r)
    requires t.pc.Idle? && t.api == r.api && t.log == r.log && t.clock == r.clock
    ensures Rotated(c, s, supply, data, t)
  {
  }

  lemma RotatingLeads(name: string, s: State, supply: Supply, data: Secret, t: State)
    requires Idling(s) && t == Run(Setting(name), s, Rotating(s, supply))
    requires Mapped(supply.secret, PASSWORD) == Ok(data) && supply.updated == []
    requires var h := SecretsAt(s.api, TargetKey(Setting(name), SPEC));
             supply.copy < |h| && CreateOrUpdate(h, supply.copy, data, name, |s.log.ledger|, Accepted).1.Succeeded()
    ensures Rotated(Setting(name), s, supply, data, t)
  {
    var c := Setting(name);
    var r := Run(c, s, Calls(s, supply));
    IdlingIsDue(name, s);
    RunAppend(c, s, Calls(s, supply), FAILED_LISTING);
    RotationCompletes(c, s, supply, data, r);
    FailedListingLeads(c, r, t);
    CompletedIsRotated(c, s, supply, data, r, t);
  }

  lemma FirstRotation(name: string, supply: Supply, data: Secret) returns (s: State, t: State)
    requires Mapped(supply.secret, PASSWORD) == Ok(data) && supply.updated == [] && supply.copy == 0
    ensures Adopted(s) && s == Run(Setting(name), Beginning(), ADOPTING) && Reachable(Setting(name), t)
    ensures t == Run(Setting(name), s, Rotating(s, supply)) && Rotated(Setting(name), s, supply, data, t)
    ensures SecretsAt(t.api, TargetKey(Setting(name), SPEC)) == [Absent, Present(data, ManagedLabels(name), Some(0))]
    ensures CurrentAttempt(t).write == WriteResult.Written
  {
    var c := Setting(name);
    s := AdoptedState(name);
    t := Run(c, s, Rotating(s, supply));
    assert SecretsAt(s.api, TargetKey(c, SPEC)) == [Absent];
    FirstWrite(name, data);
    RotatingLeads(name, s, supply, data, t);
    ReachableRun(c, s, Rotating(s, supply));
  }

  lemma FirstWrite(name: string, data: Secret)
    ensures var r := CreateOrUpdate([Absent], 0, data, name, 0, Accepted);
            r.0 == [Absent, Present(data, ManagedLabels(name), Some(0))] && r.1 == WriteResult.Written
  {
    assert map[] + ManagedLabels(name) == ManagedLabels(name);
  }

  lemma BeginningIsReachable(c: Config)
    ensures Reachable(c, Beginning())
  {
    assert Beginning() == Run(c, Init(SPEC, None, UNIX_EPOCH), []);
  }

  // ---------- Ready without a next rotation time ----------

  /** A run that ends with a stored revision that is Ready and has no next rotation time. */
  lemma ReadyWithoutNextTime(name: string) returns (s: State)
    ensures Reachable(Setting(name), s) && LawfulParser(Setting(name).parse)
    ensures Statuses.IsReady(Current(s).status) == Some(true)
    ensures Current(s).status.lastRotationTime.Some? && Current(s).status.nextRotationTime.None?
  {
    NeverIsLawful(name);
    AnswerMaps(Answer("a"));
    var first;
    first, s := FirstRotation(name, Supply(UNIX_EPOCH, Answer("a"), 0, []), Answer("a"));
    Statuses.ReadyShowsNextTimeIff(Setting(name), s, |s.api.hist| - 1);
  }

  // ---------- a Failed record although the Secret was written ----------

  lemma LostPutLeads(name: string, s: State, data: Secret, t: State)
    requires s.pc == WritingSecret && Begun(s, []) && HasRecord(s, 0) && Prepared(Setting(name), s, SPEC, data)
    requires s.api.secrets == map[] && t == Step(Setting(name), s, PutSecret(0, Lost))
    ensures t.pc == FailingRecord(WriteFailed) && Begun(t, []) && HasRecord(t, 0)
    ensures SecretsAt(t.api, TargetKey(Setting(name), SPEC)) == [Absent, Present(data, ManagedLabels(name), Some(0))]
  {
    assert t == StepPutSecret(Setting(name), s, 0, Lost);
    assert map[] + ManagedLabels(name) == ManagedLabels(name);
  }

  lemma FailLeads(name: string, s: State, t: State)
    requires s.pc == FailingRecord(WriteFailed) && Begun(s, []) && HasRecord(s, 0)
    requires t == Step(Setting(name), s, PutRecord(Accepted))
    ensures Own(0) in t.api.records && t.api.records[Own(0)].phase.Failed? && t.api.secrets == s.api.secrets
  {
    assert t == StepFailRecord(s, Accepted);
  }

  lemma LostWriteLeads(name: string, s: State, data: Secret, t: State)
    requires s.pc == WritingSecret && Begun(s, []) && HasRecord(s, 0) && Prepared(Setting(name), s, SPEC, data)
    requires s.api.secrets == map[] && t == Run(Setting(name), s, [PutSecret(0, Lost), PutRecord(Accepted)])
    ensures Own(0) in t.api.records && t.api.records[Own(0)].phase.Failed?
    ensures SecretsAt(t.api, TargetKey(Setting(name), SPEC)) == [Absent, Present(data, ManagedLabels(name), Some(0))]
  {
    var w := Step(Setting(name), s, PutSecret(0, Lost));
    TwoSteps(Setting(name), s, PutSecret(0, Lost), PutRecord(Accepted));
    LostPutLeads(name, s, data, w);
    FailLeads(name, w, t);
  }

  /** A run that ends with a Failed record whose attempt has written the Secret: the answer to the write was lost. */
  lemma FailedRecordOfAWrittenSecret(name: string) returns (s: State)
    ensures Reachable(Setting(name), s)
    ensures Own(0) in s.api.records && s.api.records[Own(0)].phase.Failed?
    ensures var h := SecretsAt(s.api, TargetKey(Setting(name), SPEC));
            Secrets.WrittenBy(Last(h), 0) && Last(h).data == Answer("a")
  {
    var c := Setting(name);
    var supply := Supply(UNIX_EPOCH, Answer("a"), 0, []);
    var adopted := AdoptedState(name);
    AnswerMaps(Answer("a"));
    IdlingIsDue(name, adopted);
    CurrentCopyIsWritten([Absent], Answer("a"), name, 0);
    var writing := Run(c, adopted, Opening(adopted) + Calling(supply));
    ReachableRun(c, adopted, Opening(adopted) + Calling(supply));
    UpToWrite(c, adopted, supply, Answer("a"), writing);
    s := Run(c, writing, [PutSecret(0, Lost), PutRecord(Accepted)]);
    ReachableRun(c, writing, [PutSecret(0, Lost), PutRecord(Accepted)]);
    LostWriteLeads(name, writing, Answer("a"), s);
  }

  // ---------- a request served, and a record Succeeded, with nothing written ----------

  /** Two rotations, with different data. */
  lemma TwoRotations(name: string) returns (t: State)
    ensures Reachable(Setting(name), t) && Idling(t) && |t.log.ledger| == 2 && Current(t).edits == 0
    ensures SecretsAt(t.api, TargetKey(Setting(name), SPEC)) ==
      [Absent, Present(Answer("a"), ManagedLabels(name), Some(0)), Present(Answer("b"), ManagedLabels(name), Some(1))]
  {
    var c := Setting(name);
    AnswerMaps(Answer("a"));
    AnswerMaps(Answer("b"));
    var s, r := FirstRotation(name, Supply(UNIX_EPOCH, Answer("a"), 0, []), Answer("a"));
    var supply := Supply(UNIX_EPOCH, Answer("b"), 1, []);
    var h := SecretsAt(r.api, TargetKey(c, SPEC));
    SecondWrite(name, h);
    t := Run(c, r, Rotating(r, supply));
    ReachableRun(c, r, Rotating(r, supply));
    RotatingLeads(name, r, supply, Answer("b"), t);
  }

  lemma SecondWrite(name: string, h: SecretHistory)
    requires h == [Absent, Present(Answer("a"), ManagedLabels(name), Some(0))]
    ensures CreateOrUpdate(h, 1, Answer("b"), name, 1, Accepted) ==
      (h + [Present(Answer("b"), ManagedLabels(name), Some(1))], WriteResult.Written)
  {
    assert Answer("a")["password"] != Answer("b")["password"] by { assert "a"[0] != "b"[0]; }
    assert ManagedLabels(name) + ManagedLabels(name) == ManagedLabels(name);
  }

  lemma ThirdWrite(name: string, h: SecretHistory)
    requires h == [Absent, Present(Answer("a"), ManagedLabels(name), Some(0)),
                   Present(Answer("b"), ManagedLabels(name), Some(1))]
    ensures CreateOrUpdate(h, 1, Answer("a"), name, 2, Accepted) == (h, Kept) && Answer("a") != Answer("b")
  {
    assert Answer("a")["password"] != Answer("b")["password"] by { assert "a"[0] != "b"[0]; }
    assert ManagedLabels(name) + ManagedLabels(name) == ManagedLabels(name);
  }

  /**
   A run of three rotations with the data a, b and a again. The last one is requested by
   the annotation and reads a copy of the Secret from before the second. It ends with a
   Succeeded record, a commit and the request gone, wrote nothing, and left the data b.
   */
  lemma RequestServedByAnOutdatedCopy(name: string) returns (asked: State, s: State)
    ensures Reachable(Setting(name), asked) && IsManual(Current(asked))
    ensures s == Run(Setting(name), asked, Rotating(asked, Supply(UNIX_EPOCH, Answer("a"), 1, [])))
    ensures !IsManual(Current(s)) && Current(s).edits == Current(asked).edits
    ensures |s.log.ledger| == 3 && Last(s.log.ledger).write == Kept && Last(s.log.ledger).data == Answer("a")
    ensures Recorded(s, 2, PASSWORD) && |s.log.commits| > 0 && Last(s.log.commits).attempt == 2
    ensures var key := TargetKey(Setting(name), SPEC);
            && SecretsAt(s.api, key) == SecretsAt(asked.api, key) && Last(SecretsAt(s.api, key)).Present?
            && Last(SecretsAt(s.api, key)).data == Answer("b") != Answer("a")
  {
    var c := Setting(name);
    var t := TwoRotations(name);
    var request := Edit(SPEC, Some(ROTATE_NOW), true);
    asked := Step(c, t, request);
    ReachableStep(c, t, request);
    assert asked.api.secrets == t.api.secrets && Idling(asked) && asked.log == t.log;
    AnswerMaps(Answer("a"));
    ThirdWrite(name, SecretsAt(asked.api, TargetKey(c, SPEC)));
    var supply := Supply(UNIX_EPOCH, Answer("a"), 1, []);
    s := Run(c, asked, Rotating(asked, supply));
    RotatingLeads(name, asked, supply, Answer("a"), s);
  }

  // ---------- a version given out twice ----------

  lemma BeforeCall(name: string, s: State, supply: Supply, r: State)
    requires Idling(s) && r == Run(Setting(name), s, Opening(s) + [CreateRecord(Accepted, supply.created)])
    ensures r.pc == CallingProvider && r.mem.obj.spec == SPEC
  {
    var c := Setting(name);
    var create := CreateRecord(Accepted, supply.created);
    var d := Run(c, s, Opening(s));
    RunAppend(c, s, Opening(s), [create]);
    OneStep(c, d, create);
    IdlingIsDue(name, s);
    OpeningLeads(c, s, d);
    CreateLeads(c, d, Current(s), s.log.ledger, supply.created, r);
  }

  /** The calls of a rotation around the one of the provider. */
  lemma RotatingAround(s: State, supply: Supply)
    ensures var before := Opening(s) + [CreateRecord(Accepted, supply.created)];
            var after := [PutSecret(supply.copy, Accepted)] + Removing(Current(s)) + Closing(supply) + FAILED_LISTING;
            && Rotating(s, supply) == before + [CallProvider(Ok(supply.secret))] + after
            && MockRuns.LeavesProviderAlone(before) && MockRuns.LeavesProviderAlone(after)
  {
  }

  /** A rotation whose provider call gets the first version, as the first of its process does. */
  lemma ServedRotation(name: string, first: seq<Input>, s: State, supply: Supply)
    requires s == Run(Setting(name), Beginning(), first) && Idling(s)
    requires MockRuns.ServedByMock(Setting(name), Beginning(), first)
    requires MockRuns.Counter(Setting(name), Beginning(), first) == 0 && supply.secret == Mock.Values(map[], 1)
    ensures MockRuns.ServedByMock(Setting(name), Beginning(), first + Rotating(s, supply))
  {
    var c, start := Setting(name), Beginning();
    var before := Opening(s) + [CreateRecord(Accepted, supply.created)];
    var call := CallProvider(Ok(supply.secret));
    var after := [PutSecret(supply.copy, Accepted)] + Removing(Current(s)) + Closing(supply) + FAILED_LISTING;
    RotatingAround(s, supply);
    BeforeCall(name, s, supply, Run(c, s, before));
    RunAppend(c, start, first, before);
    MockRuns.ServedAround(c, start, first, before, call, after, Run(c, s, before));
  }

  /**
   A run served by the mock in which a restart lies between two rotations: both get the
   first version, so the second attempt has the data of the first and writes nothing.
   */
  lemma RestartRepeatsVersion(name: string) returns (inputs: seq<Input>, s: State)
    ensures s == Run(Setting(name), Beginning(), inputs) && MockRuns.ServedByMock(Setting(name), Beginning(), inputs)
    ensures Mock.Versioned(PASSWORD, "password")
    ensures |s.log.ledger| == 2 && s.log.ledger[0].data == s.log.ledger[1].data && s.log.ledger[1].write == Kept
    ensures !Secrets.FreshData(s.log.ledger)
  {
    var version := Mock.Values(map[], 1);
    var data := Answer(version["password"]);
    assert LastNaming(PASSWORD, "password", 0);
    AnswerMaps(version);
    var soFar, t, r := RotationAndRestart(name, version, data);
    var again := Supply(UNIX_EPOCH, version, 1, []);
    s := SecondRotation(name, t, r, again, data);
    inputs := soFar + Rotating(r, again);
    RunAppend(Setting(name), Beginning(), soFar, Rotating(r, again));
    ServedRotation(name, soFar, r, again);
  }

  /** The first rotation, from the state before a restart to the one after it. */
  lemma RotationAndRestart(name: string, version: Secret, data: Secret) returns (soFar: seq<Input>, t: State, r: State)
    requires version == Mock.Values(map[], 1) && Mapped(version, PASSWORD) == Ok(data)
    ensures r == Run(Setting(name), Beginning(), soFar) && Idling(r) && r.log == t.log && r.api == t.api
    ensures MockRuns.ServedByMock(Setting(name), Beginning(), soFar)
    ensures MockRuns.Counter(Setting(name), Beginning(), soFar) == 0
    ensures Begun(t, []) && Prepared(Setting(name), t, SPEC, data) && CurrentAttempt(t).write == WriteResult.Written
    ensures SecretsAt(t.api, TargetKey(Setting(name), SPEC)) == [Absent, Present(data, ManagedLabels(name), Some(0))]
  {
    var c, first := Setting(name), Supply(UNIX_EPOCH, version, 0, []);
    var adopted;
    adopted, t := FirstRotation(name, first, data);
    MockRuns.ServedQuietly(c, Beginning(), [], ADOPTING);
    assert [] + ADOPTING == ADOPTING;
    ServedRotation(name, ADOPTING, adopted, first);
    RunAppend(c, Beginning(), ADOPTING, Rotating(adopted, first));
    MockRuns.ServedUpToRestart(c, Beginning(), ADOPTING + Rotating(adopted, first));
    soFar := ADOPTING + Rotating(adopted, first) + [Interrupt];
    r := Run(c, Beginning(), soFar);
    InterruptLeads(c, ADOPTING + Rotating(adopted, first), t, r);
  }

  lemma InterruptLeads(c: Config, soFar: seq<Input>, t: State, r: State)
    requires t == Run(c, Beginning(), soFar) && r == Run(c, Beginning(), soFar + [Interrupt]) && Idling(t)
    ensures Idling(r) && r.log == t.log && r.api == t.api
  {
    assert (soFar + [Interrupt])[..|soFar|] == soFar;
    assert Step(c, t, Interrupt) == Stop(t, Interrupted);
  }

  lemma RepeatedWrite(name: string, data: Secret)
    ensures var h: SecretHistory := [Absent, Present(data, ManagedLabels(name), Some(0))];
            CreateOrUpdate(h, 1, data, name, 1, Accepted) == (h, Kept)
  {
    assert ManagedLabels(name) + ManagedLabels(name) == ManagedLabels(name);
  }

  lemma SecondRotation(name: string, t: State, r: State, supply: Supply, data: Secret) returns (s: State)
    requires Idling(r) && r.log == t.log && r.api == t.api && Begun(t, []) && Prepared(Setting(name), t, SPEC, data)
    requires CurrentAttempt(t).write == WriteResult.Written && supply.copy == 1 && supply.updated == []
    requires SecretsAt(t.api, TargetKey(Setting(name), SPEC)) == [Absent, Present(data, ManagedLabels(name), Some(0))]
    requires Mapped(supply.secret, PASSWORD) == Ok(data)
    ensures s == Run(Setting(name), r, Rotating(r, supply))
    ensures |s.log.ledger| == 2 && s.log.ledger[0].data == s.log.ledger[1].data == data && s.log.ledger[1].write == Kept
    ensures !Secrets.FreshData(s.log.ledger)
  {
    s := Run(Setting(name), r, Rotating(r, supply));
    RepeatedWrite(name, data);
    RotatingLeads(name, r, supply, data, s);
    assert s.log.ledger[0] == Last(t.log.ledger) && s.log.ledger[1] == Last(s.log.ledger);
    assert s.log.ledger[0].target == s.log.ledger[1].target;
  }
}
