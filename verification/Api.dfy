/** The custom resources the operator reads and writes. */
module Api {
  import opened Prelude
  import opened Clock

  const ROTATE_NOW := "now"

  datatype KeyMapping = KeyMapping(providerKey: string, secretKey: string)

  datatype ObjectKey = ObjectKey(namespace: string, name: string)

  datatype RestartTarget = RestartTarget(kind: string, name: string, namespace: string)

  datatype FailurePolicy = Unset | Fail | Ignore

  /** The schema gives `historyLimit` a minimum of 1. */
  datatype Spec = Spec(
    schedule: string, rotationWindow: Option<Duration>,
    provider: string, params: map<string, string>,
    keys: seq<KeyMapping>, secretRef: ObjectKey, restartTargets: seq<RestartTarget>,
    historyLimit: Option<nat>, suspend: bool, failurePolicy: FailurePolicy, retryBackoff: Option<Duration>)
  {
    function Window(): Duration {
      if rotationWindow.Some? then rotationWindow.value else 0
    }
  }

  /**
   How long before a fire time the rotation may start, by the field. The least duration is
   its own negative, and so counts as 2^63 nanoseconds.
   */
  function Lead(rotationWindow: Option<Duration>): int {
    match rotationWindow
    case None => 0
    case Some(d) => if d == MIN_DURATION then -MIN_DURATION else d
  }

  datatype Phase = NoPhase | Pending | Rotating | Ready | Failed | Suspended

  datatype ConditionType = ReadyCondition | Scheduled | ProviderHealthy | Degraded

  datatype Condition = Condition(kind: ConditionType, status: bool, reason: string)

  /** A record reference has no name when creating the record was not acknowledged. */
  datatype RecordRef = RecordRef(attempt: Option<nat>)

  datatype Status = Status(
    lastRotationTime: Option<Instant>, nextRotationTime: Option<Instant>,
    phase: Phase, lastRotationRecord: Option<RecordRef>, conditions: seq<Condition>)

  const EMPTY_STATUS := Status(None, None, NoPhase, None, [])

  /**
   A stored revision of a policy. `rotate` is the value of the rotate annotation
   and `edits` counts the user's edits of the object so far.
   */
  datatype Policy = Policy(
    spec: Spec, rotate: Option<string>, deleting: bool, finalizer: bool, status: Status, edits: nat)

  /** How a write ends: acknowledged, not applied, or applied with the acknowledgement lost. */
  datatype Reply = Accepted | Refused | Lost

  // ---------- conditions ----------

  /** Replaces the condition of the same type, or appends the new one. */
  function SetCondition(conditions: seq<Condition>, c: Condition): seq<Condition> {
    if conditions == [] then [c]
    else if conditions[0].kind == c.kind then [c] + conditions[1..]
    else [conditions[0]] + SetCondition(conditions[1..], c)
  }

  function FindCondition(conditions: seq<Condition>, kind: ConditionType): Option<bool> {
    if conditions == [] then None
    else if conditions[0].kind == kind then Some(conditions[0].status)
    else FindCondition(conditions[1..], kind)
  }

  /** The condition of that type has the value, and no other type has changed. */
  ghost predicate OnlySets(before: seq<Condition>, after: seq<Condition>, kind: ConditionType, value: bool) {
    && FindCondition(after, kind) == Some(value)
    && forall other :: other != kind ==> FindCondition(after, other) == FindCondition(before, other)
  }

  ghost predicate UniqueConditions(conditions: seq<Condition>) {
    forall i, j :: 0 <= i < j < |conditions| ==> conditions[i].kind != conditions[j].kind
  }

  lemma {:induction false} SetConditionKinds(conditions: seq<Condition>, c: Condition)
    ensures forall x :: x in SetCondition(conditions, c) ==> x == c || x in conditions
  {
    if conditions != [] && conditions[0].kind != c.kind {
      SetConditionKinds(conditions[1..], c);
    }
  }

  /** Setting a condition is read back, disturbs no other type and keeps one condition per type. */
  lemma {:induction false} SetThenFind(conditions: seq<Condition>, c: Condition)
    ensures FindCondition(SetCondition(conditions, c), c.kind) == Some(c.status)
    ensures forall kind :: kind != c.kind ==>
      FindCondition(SetCondition(conditions, c), kind) == FindCondition(conditions, kind)
    ensures UniqueConditions(conditions) ==> UniqueConditions(SetCondition(conditions, c))
  {
    if conditions != [] && conditions[0].kind != c.kind {
      var rest := conditions[1..];
      SetThenFind(rest, c);
      SetConditionKinds(rest, c);
      var r := SetCondition(conditions, c);
      assert r[1..] == SetCondition(rest, c);
      if UniqueConditions(conditions) {
        assert UniqueConditions(rest);
        forall x | x in r[1..] ensures x.kind != r[0].kind {
          assert x == c || x in rest;
        }
      }
    } else if conditions != [] {
      var r := SetCondition(conditions, c);
      assert r[1..] == conditions[1..];
    }
  }

  // ---------- serialization ----------

  /**
   A stored time keeps whole seconds; the zero time is stored as no time at all.
   Times are put into a status in this form, since nothing reads them before the
   status is written and a successful write answers with the stored form.
   */
  function StoredTime(t: Instant): Option<Instant> {
    if t == ZERO_TIME then None else Some(Truncate(t))
  }
}
