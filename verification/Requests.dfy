/**
 Manual rotation requests over whole runs: the controller takes the annotation away
 only in an attempt that had read it and had written the Secret, and only while
 nobody has edited the policy since that read.
 */
module Requests {
  import opened Prelude
  import opened Api
  import opened Machine
  import opened Frames
  import opened Coherence
  import Clock
  import Secrets
  import Webhook

  // ---------- user edits ----------

  /** Revisions between two user edits differ only by what the controller writes. */
  ghost predicate EditsOrdered(h: History) {
    && (forall j, k :: 0 <= j <= k < |h| ==> h[j].edits <= h[k].edits)
    && (forall j, k :: 0 <= j <= k < |h| && h[j].edits == h[k].edits ==> SameIntent(h[j], h[k]))
  }

  lemma AppendKeepsEdits(h: History, p: Policy)
    requires EditsOrdered(h)
    requires Last(h).edits < p.edits || SameIntent(Last(h), p)
    ensures EditsOrdered(h + [p])
  {
  }

  lemma NewRevisionKeepsIntent(c: Config, s: State, i: Input, t: State)
    requires Coherent(c, s) && Effects(s, i, t) && t.api.hist != s.api.hist
    ensures t.api.hist == s.api.hist + [Current(t)]
    ensures Current(s).edits < Current(t).edits || SameIntent(Current(s), Current(t))
  {
    Webhook.DefaultKeeps(s.mem.obj.spec);
  }

  lemma StepKeepsEdits(c: Config, s: State, i: Input, t: State)
    requires Coherent(c, s) && EditsOrdered(s.api.hist) && Effects(s, i, t)
    ensures EditsOrdered(t.api.hist)
  {
    if t.api.hist != s.api.hist {
      NewRevisionKeepsIntent(c, s, i, t);
      AppendKeepsEdits(s.api.hist, Current(t));
    }
  }

  // ---------- removals of the annotation ----------

  /** Revision `k` is the controller's removal of a manual request. */
  ghost predicate Removes(h: History, k: nat) {
    0 < k < |h| && h[k].edits == h[k - 1].edits && IsManual(h[k - 1]) && !IsManual(h[k])
  }

  /** Attempt `n` had read the request and written the Secret, and the policy was as it had read it. */
  ghost predicate Served(s: State, k: nat, n: nat) {
    && 0 < k < |s.api.hist| && n < |s.log.ledger|
    && var a := s.log.ledger[n];
    && a.decision.manual && a.decision.read < k && IsManual(s.api.hist[a.decision.read])
    && SameIntent(s.api.hist[a.decision.read], s.api.hist[k - 1])
    && a.write.Succeeded()
  }

  ghost predicate RemovalsServed(s: State) {
    && (forall k :: 0 <= k < |s.api.hist| && Removes(s.api.hist, k) ==> k in s.log.removals)
    && (forall k :: k in s.log.removals ==> Served(s, k, s.log.removals[k]))
    && (BeforeWrite(s.pc) ==> forall k :: k in s.log.removals ==> s.log.removals[k] < |s.log.ledger| - 1)
  }

  lemma ServedStays(s: State, i: Input, t: State, k: nat, n: nat)
    requires Served(s, k, n) && Effects(s, i, t) && (BeforeWrite(s.pc) ==> n < |s.log.ledger| - 1)
    ensures Served(t, k, n)
  {
    assert t.api.hist[k - 1] == s.api.hist[k - 1];
    if n < |s.log.ledger| - 1 {
      assert t.log.ledger[n] == s.log.ledger[n];
    }
  }

  /** No other step of the controller touches the annotation. */
  lemma QuietStepRemovesNothing(c: Config, s: State, i: Input, t: State)
    requires Coherent(c, s) && Effects(s, i, t) && !(i.PutPolicy? && s.pc.RemovingAnnotation?)
    requires |t.api.hist| > |s.api.hist|
    ensures !Removes(t.api.hist, |s.api.hist|)
  {
  }

  lemma QuietStepKeeps(c: Config, s: State, i: Input, t: State)
    requires Coherent(c, s) && RemovalsServed(s) && Effects(s, i, t) && !(i.PutPolicy? && s.pc.RemovingAnnotation?)
    ensures RemovalsServed(t)
  {
    forall k | 0 <= k < |t.api.hist| && Removes(t.api.hist, k) ensures k in t.log.removals {
      if k < |s.api.hist| {
        assert Removes(s.api.hist, k);
      } else {
        QuietStepRemovesNothing(c, s, i, t);
      }
    }
    forall k | k in t.log.removals ensures Served(t, k, t.log.removals[k]) {
      ServedStays(s, i, t, k, s.log.removals[k]);
    }
    if BeforeWrite(t.pc) {
      forall k | k in t.log.removals ensures t.log.removals[k] < |t.log.ledger| - 1 {
        assert Served(s, k, s.log.removals[k]);
      }
    }
  }

  lemma RemovalKeeps(c: Config, s: State, i: Input)
    requires Coherent(c, s) && RemovalsServed(s) && i.PutPolicy? && s.pc.RemovingAnnotation?
    ensures RemovalsServed(StepRemoveAnnotation(s, i.write))
  {
    var t := StepRemoveAnnotation(s, i.write);
    RemoveAnnotationEffects(s, i);
    ObjectStoredOnTop(c, s, i.write);
    forall k | 0 <= k < |t.api.hist| && Removes(t.api.hist, k) ensures k in t.log.removals {
      if k < |s.api.hist| {
        assert Removes(s.api.hist, k);
      }
    }
    forall k | k in t.log.removals ensures Served(t, k, t.log.removals[k]) {
      if Applies(s, i.write) && k == |s.api.hist| {
        RemovalIsServed(c, s, i.write);
      } else {
        ServedStays(s, i, t, k, s.log.removals[k]);
      }
    }
  }

  lemma RemovalIsServed(c: Config, s: State, w: Write)
    requires Coherent(c, s) && s.pc.RemovingAnnotation? && Applies(s, w)
    ensures Served(StepRemoveAnnotation(s, w), |s.api.hist|, AttemptId(s))
  {
    ObjectStoredOnTop(c, s, w);
    var a := Last(s.log.ledger);
    assert Justified(c, s.api.hist, a.decision);
    assert StepRemoveAnnotation(s, w).log.ledger == s.log.ledger;
  }

  lemma StepKeepsRemovals(c: Config, s: State, i: Input)
    requires Coherent(c, s) && RemovalsServed(s)
    ensures RemovalsServed(Step(c, s, i))
  {
    if i.PutPolicy? && s.pc.RemovingAnnotation? {
      RemovalKeeps(c, s, i);
      RemovalIsTheStep(c, s, i.write);
    } else {
      StepEffects(c, s, i);
      QuietStepKeeps(c, s, i, Step(c, s, i));
    }
  }

  lemma {:induction false} RunServesRequests(c: Config, start: State, inputs: seq<Input>)
    requires Coherent(c, start) && EditsOrdered(start.api.hist) && RemovalsServed(start)
    ensures var t := Run(c, start, inputs); EditsOrdered(t.api.hist) && RemovalsServed(t)
  {
    if inputs != [] {
      var n := |inputs| - 1;
      var before := Run(c, start, inputs[..n]);
      RunIsCoherent(c, start, inputs[..n]);
      RunServesRequests(c, start, inputs[..n]);
      StepKeepsRemovals(c, before, inputs[n]);
      StepEffects(c, before, inputs[n]);
      StepKeepsEdits(c, before, inputs[n], Step(c, before, inputs[n]));
    }
  }

  lemma ReachableServesRequests(c: Config, s: State)
    requires Reachable(c, s)
    ensures Coherent(c, s) && EditsOrdered(s.api.hist) && RemovalsServed(s)
  {
    var spec, rotate, clock, inputs :| Clock.UNIX_EPOCH <= clock && s == Run(c, Init(spec, rotate, clock), inputs);
    InitIsCoherent(c, spec, rotate, clock);
    RunIsCoherent(c, Init(spec, rotate, clock), inputs);
    RunServesRequests(c, Init(spec, rotate, clock), inputs);
  }

  // ---------- no request is lost ----------

  lemma {:induction false} FirstRemoval(h: History, v: nat, u: nat) returns (k: nat)
    requires EditsOrdered(h) && v < u < |h| && h[v].edits == h[u].edits && IsManual(h[v]) && !IsManual(h[u])
    ensures v < k <= u && Removes(h, k)
    decreases u
  {
    assert h[v].edits <= h[u - 1].edits <= h[u].edits;
    if IsManual(h[u - 1]) {
      k := u;
    } else {
      k := FirstRemoval(h, v, u - 1);
    }
  }

  /**
   If a request made in revision `v` is gone in revision `u` and no user has edited the
   policy in between, an attempt has served it: it read the request, wrote the Secret or
   found the wanted Secret in its cached copy, and only then removed the annotation, from
   a policy nobody had edited, suspended or deleted since its read.
   */
  lemma NoRequestIsLost(c: Config, s: State, v: nat, u: nat) returns (k: nat, n: nat)
    requires Reachable(c, s) && v < u < |s.api.hist|
    requires s.api.hist[v].rotate == Some("now") && s.api.hist[u].rotate != Some("now")
    requires s.api.hist[v].edits == s.api.hist[u].edits
    ensures v < k <= u && n < |s.log.ledger|
    ensures var a, h := s.log.ledger[n], s.api.hist;
            && a.decision.manual && a.decision.read < k && Secrets.WrittenOrKept(c, s, n)
            && h[a.decision.read].rotate == Some("now") && h[a.decision.read].edits == h[v].edits
            && forall r :: a.decision.read <= r < k ==> h[r].edits == h[v].edits && !h[r].deleting && !h[r].spec.suspend
  {
    ReachableServesRequests(c, s);
    k := FirstRemoval(s.api.hist, v, u);
    n := s.log.removals[k];
    assert Served(s, k, n);
    Secrets.SuccessIsWrittenOrKept(c, s, n);
    var d := s.log.ledger[n].decision;
    assert Justified(c, s.api.hist, d);
    forall r | d.read <= r < k
      ensures s.api.hist[r].edits == s.api.hist[v].edits && !s.api.hist[r].deleting && !s.api.hist[r].spec.suspend
    {
      UneditedBetween(s.api.hist, d.read, r, k - 1);
      assert s.api.hist[v].edits <= s.api.hist[k - 1].edits <= s.api.hist[u].edits;
    }
  }

  /** The attempt's data was fresh to its own Secret, since some baseline only attempts have written. */
  ghost predicate FreshSinceBaseline(s: State, a: Attempt) {
    exists b :: Secrets.OnlyAttemptsSince(SecretsAt(s.api, a.target), b)
             && Secrets.NewSince(SecretsAt(s.api, a.target), b, a.data)
  }

  /**
   With fresh data a request that is gone has left a revision of the Secret with the data
   of the attempt that served it, however many Secrets there are and whoever wrote them
   before.
   */
  lemma FreshRequestWroteTheSecret(c: Config, s: State, v: nat, u: nat) returns (k: nat, n: nat)
    requires Reachable(c, s) && v < u < |s.api.hist|
    requires s.api.hist[v].rotate == Some("now") && s.api.hist[u].rotate != Some("now")
    requires s.api.hist[v].edits == s.api.hist[u].edits
    requires Secrets.FreshData(s.log.ledger)
    requires forall a :: a in s.log.ledger && a.decision.manual && a.write.Succeeded() ==> FreshSinceBaseline(s, a)
    ensures v < k <= u && n < |s.log.ledger|
    ensures var a, h := s.log.ledger[n], SecretsAt(s.api, s.log.ledger[n].target);
            && a.decision.manual && a.decision.read < k && Secrets.HasData(a)
            && a.revision < |h| && Secrets.WrittenBy(h[a.revision], n) && h[a.revision].data == a.data
  {
    k, n := NoRequestIsLost(c, s, v, u);
    var a := s.log.ledger[n];
    assert FreshSinceBaseline(s, a);
    var b :| Secrets.OnlyAttemptsSince(SecretsAt(s.api, a.target), b)
          && Secrets.NewSince(SecretsAt(s.api, a.target), b, a.data);
    Secrets.FreshDataIsAlwaysWritten(c, s, n, b);
  }

  lemma UneditedBetween(h: History, j: nat, r: nat, k: nat)
    requires EditsOrdered(h) && j <= r <= k < |h| && h[j].edits == h[k].edits
    ensures h[r].edits == h[k].edits && h[r].deleting == h[j].deleting && h[r].spec.suspend == h[j].spec.suspend
  {
    assert SameIntent(h[j], h[r]);
    Webhook.DefaultKeeps(h[j].spec);
    Webhook.DefaultKeeps(h[r].spec);
  }

  /** An edit since the read makes the removal conflict: the annotation, and the whole policy, stay as they are. */
  lemma EditedPolicyKeepsItsRequest(c: Config, s: State, w: Write)
    requires Reachable(c, s) && s.pc.RemovingAnnotation?
    ensures s.log.ledger != [] && Last(s.log.ledger).decision.read < |s.api.hist|
    ensures s.api.hist[Last(s.log.ledger).decision.read].edits < Current(s).edits ==>
      StepRemoveAnnotation(s, w).api == s.api && StepRemoveAnnotation(s, w).pc == Restarting
  {
    ReachableIsCoherent(c, s);
  }
}
