/**
 Where the Secrets go: over whole runs an attempt writes the Secret that the policy it
 read asks for, with the keys it asks for, and no other.
 */
module Targets {
  import opened Prelude
  import opened Clock
  import opened Api
  import opened Provider
  import opened Machine
  import opened Frames
  import opened Coherence
  import Secrets
  import Webhook

  /** The Secret the specification asks for, by the fields: in the policy's namespace unless it gives one. */
  ghost predicate Names(c: Config, spec: Spec, key: ObjectKey) {
    && key.name == spec.secretRef.name
    && (spec.secretRef.namespace != "" ==> key.namespace == spec.secretRef.namespace)
    && (spec.secretRef.namespace == "" ==> key.namespace == c.namespace)
  }

  /** The attempt is about the Secret and the keys that the revision it read asks for. */
  ghost predicate Aimed(c: Config, h: History, a: Attempt) {
    && a.decision.read < |h|
    && Names(c, h[a.decision.read].spec, a.target) && a.keys == h[a.decision.read].spec.keys
  }

  ghost predicate AllAimed(c: Config, s: State) {
    && (forall n :: 0 <= n < |s.log.ledger| && !s.log.ledger[n].write.NotTried? ==>
          Aimed(c, s.api.hist, s.log.ledger[n]))
    && (s.pc.WritingSecret? ==> s.log.ledger != [] && Aimed(c, s.api.hist, Last(s.log.ledger)))
  }

  // ---------- one step ----------

  lemma CallAims(c: Config, s: State, output: Result<Secret, ProviderError>)
    requires Coherent(c, s) && s.pc.CallingProvider?
    ensures var t := StepCallProvider(c, s, output);
            t.log.ledger != [] && Aimed(c, t.api.hist, Last(t.log.ledger))
  {
    var read := Last(s.log.ledger).decision.read;
    Webhook.DefaultKeeps(s.api.hist[read].spec);
    Webhook.DefaultKeeps(s.api.hist[s.mem.version].spec);
  }

  lemma PutKeepsAim(c: Config, s: State, seen: nat, reply: Reply)
    requires AllAimed(c, s) && s.pc.WritingSecret?
    ensures AllAimed(c, StepPutSecret(c, s, seen, reply))
  {
  }

  /** Attempts that have written keep their aim, whatever is added to the history. */
  lemma QuietStepKeepsAim(c: Config, s: State, i: Input, t: State)
    requires Secrets.Pending(s) && AllAimed(c, s) && Effects(s, i, t) && !(i.PutSecret? && s.pc.WritingSecret?)
    requires t.pc.WritingSecret? ==> t.log.ledger != [] && Aimed(c, t.api.hist, Last(t.log.ledger))
    ensures AllAimed(c, t)
  {
    Secrets.QuietLedger(s, i, t);
    assert s.api.hist <= t.api.hist;
  }

  lemma StepKeepsAim(c: Config, s: State, i: Input)
    requires Coherent(c, s) && Secrets.Pending(s) && AllAimed(c, s)
    ensures AllAimed(c, Step(c, s, i))
  {
    StepEffects(c, s, i);
    if i.PutSecret? && s.pc.WritingSecret? {
      Secrets.SecretIsTheStep(c, s, i.seen, i.reply);
      PutKeepsAim(c, s, i.seen, i.reply);
    } else {
      if i.CallProvider? && s.pc.CallingProvider? {
        Secrets.ProviderIsTheStep(c, s, i.output);
        CallAims(c, s, i.output);
      } else if Step(c, s, i).pc.WritingSecret? {
        Secrets.OnlyProviderLeadsToWriting(c, s, i);
      }
      QuietStepKeepsAim(c, s, i, Step(c, s, i));
    }
  }

  lemma {:induction false} RunKeepsAim(c: Config, start: State, inputs: seq<Input>)
    requires Coherent(c, start) && Secrets.SecretsTrue(c, start) && AllAimed(c, start)
    ensures AllAimed(c, Run(c, start, inputs))
  {
    if inputs != [] {
      var front := inputs[..|inputs| - 1];
      RunIsCoherent(c, start, front);
      Secrets.RunKeeps(c, start, front);
      RunKeepsAim(c, start, front);
      assert Secrets.Pending(Run(c, start, front));
      StepKeepsAim(c, Run(c, start, front), Last(inputs));
    }
  }

  lemma ReachableIsAimed(c: Config, s: State)
    requires Reachable(c, s)
    ensures AllAimed(c, s)
  {
    var spec, rotate, clock, inputs :| UNIX_EPOCH <= clock && s == Run(c, Init(spec, rotate, clock), inputs);
    InitIsCoherent(c, spec, rotate, clock);
    RunKeepsAim(c, Init(spec, rotate, clock), inputs);
  }

  // ---------- the theorems ----------

  /**
   In every reachable state an attempt that has tried its write has tried it on the Secret
   that the policy it read asks for by name, in the namespace it gives, or its own if it
   gives none; and what it wrote is its provider's answer, mapped by that policy's keys.
   */
  lemma AttemptsWriteWhatIsAsked(c: Config, s: State, n: nat)
    requires Reachable(c, s) && n < |s.log.ledger| && !s.log.ledger[n].write.NotTried?
    ensures s.log.ledger[n].decision.read < |s.api.hist|
    ensures var a, asked := s.log.ledger[n], s.api.hist[s.log.ledger[n].decision.read].spec;
            && a.target.name == asked.secretRef.name
            && (asked.secretRef.namespace != "" ==> a.target.namespace == asked.secretRef.namespace)
            && (asked.secretRef.namespace == "" ==> a.target.namespace == c.namespace)
            && a.output.Ok? && Mapped(a.output.value, asked.keys) == Ok(a.data)
  {
    ReachableIsAimed(c, s);
    Secrets.ReachableSecretsTrue(c, s);
    var a := s.log.ledger[n];
    assert Secrets.WriteTrue(c, n, a, SecretsAt(s.api, a.target));
  }

  /** No other Secret is ever touched: whatever revision an attempt left, of whatever Secret, was asked for. */
  lemma NoOtherSecretIsWritten(c: Config, s: State, key: ObjectKey, k: nat, n: nat)
    requires Reachable(c, s) && key in s.api.secrets && k < |s.api.secrets[key]|
    requires Secrets.WrittenBy(s.api.secrets[key][k], n)
    ensures n < |s.log.ledger| && s.log.ledger[n].decision.read < |s.api.hist|
    ensures var a, asked := s.log.ledger[n], s.api.hist[s.log.ledger[n].decision.read].spec;
            && key.name == asked.secretRef.name
            && key.namespace == (if asked.secretRef.namespace != "" then asked.secretRef.namespace else c.namespace)
            && a.output.Ok? && Mapped(a.output.value, asked.keys) == Ok(s.api.secrets[key][k].data)
  {
    Secrets.ReachableSecretsTrue(c, s);
    assert Secrets.HistoryTrue(c, s.log.ledger, key, s.api.secrets[key]);
    assert Secrets.RevisionTrue(c, s.log.ledger, key, s.api.secrets[key], k);
    AttemptsWriteWhatIsAsked(c, s, n);
  }
}
