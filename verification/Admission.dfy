/** The defaulting webhook, which fills the defaults into the object it is given. */
module Admission {
  import opened Prelude
  import opened Api
  import opened Client
  import Webhook

  method Default(policy: PolicyObject)
    modifies policy`spec
    ensures policy.spec == Webhook.Default(old(policy.spec))
  {
    if policy.spec.historyLimit.None? {
      policy.spec := policy.spec.(historyLimit := Some(Webhook.DEFAULT_HISTORY_LIMIT));
    }
    if policy.spec.failurePolicy.Unset? {
      policy.spec := policy.spec.(failurePolicy := Fail);
    }
  }
}
