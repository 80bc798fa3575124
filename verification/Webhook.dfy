/** The admission webhooks: defaulting and validation of policies. */
module Webhook {
  import opened Prelude
  import opened Api
  import opened Scheduler
  import Clock

  const DEFAULT_HISTORY_LIMIT: nat := 10

  datatype Rejection = BadSchedule | NoSecretName | NoKeys

  function Default(spec: Spec): Spec {
    var limited := if spec.historyLimit.None? then spec.(historyLimit := Some(DEFAULT_HISTORY_LIMIT)) else spec;
    if limited.failurePolicy.Unset? then limited.(failurePolicy := Fail) else limited
  }

  function Validate(parse: Parser, spec: Spec): Result<(), Rejection> {
    if parse(spec.schedule).None? then Err(BadSchedule)
    else if spec.secretRef.name == "" then Err(NoSecretName)
    else if spec.keys == [] then Err(NoKeys)
    else Ok(())
  }

  /**
   A policy is admitted exactly if its schedule parses, it names its Secret and it maps at
   least one key; and a rejection names the first of these that fails.
   */
  lemma AdmittedIff(parse: Parser, spec: Spec)
    ensures Validate(parse, spec).Ok? <==> parse(spec.schedule).Some? && spec.secretRef.name != "" && spec.keys != []
    ensures Validate(parse, spec) == Err(NoSecretName) <==> parse(spec.schedule).Some? && spec.secretRef.name == ""
    ensures Validate(parse, spec) == Err(NoKeys)
      <==> parse(spec.schedule).Some? && spec.secretRef.name != "" && spec.keys == []
  {
  }

  /** An admitted schedule never makes the scheduler fail; a rejected one fails it once a rotation has happened. */
  lemma AdmissionAgreesWithScheduler(parse: Parser, spec: Spec, last: Option<Clock.Instant>, now: Clock.Instant)
    ensures Validate(parse, spec).Ok? ==> IsDue(parse, spec.schedule, last, spec.Window(), now).Ok?
    ensures Validate(parse, spec) == Err(BadSchedule)
      <==> IsDue(parse, spec.schedule, Some(now), spec.Window(), now) == Err(InvalidSchedule(spec.schedule))
  {
  }

  /**
   An absent limit becomes 10 and an unset failure policy `Fail`; nothing else changes, and
   doing it twice is doing it once.
   */
  lemma DefaultKeeps(spec: Spec)
    ensures var d := Default(spec);
            && d == spec.(historyLimit := d.historyLimit, failurePolicy := d.failurePolicy)
            && d.historyLimit == (if spec.historyLimit.Some? then spec.historyLimit else Some(10))
            && d.failurePolicy == (if spec.failurePolicy.Unset? then Fail else spec.failurePolicy)
    ensures Default(Default(spec)) == Default(spec)
  {
  }
}
