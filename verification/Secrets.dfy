/**
 The target Secrets over whole runs: every revision an attempt wrote holds exactly
 the mapped output of its provider call, and the attempts that wrote one appear in
 order.
 */
module Secrets {
  import opened Prelude
  import opened Clock
  import opened Api
  import opened Provider
  import opened Machine
  import opened Frames

  // ---------- the invariant ----------

  /** The attempt's data is what its provider returned, mapped. */
  ghost predicate HasData(a: Attempt) {
    a.output.Ok? && Mapped(a.output.value, a.keys) == Ok(a.data)
  }

  function Labels(r: SecretRevision): map<string, string> {
    if r.Present? then r.labels else map[]
  }

  predicate WrittenBy(r: SecretRevision, n: nat) {
    r.Present? && r.writer == Some(n)
  }

  /** A revision written by an attempt holds its data, and keeps the labels of the revision before. */
  ghost predicate RevisionTrue(c: Config, ledger: seq<Attempt>, key: ObjectKey, h: SecretHistory, k: nat)
    requires k < |h|
  {
    && (k == 0 ==> h[k].Absent?)
    && (h[k].Present? && h[k].writer.Some? ==>
          && k > 0 && h[k].writer.value < |ledger|
          && var a := ledger[h[k].writer.value];
          && a.target == key && a.revision == k && a.write.Applied() && h[k].data == a.data
          && h[k].labels == Labels(h[k - 1]) + ManagedLabels(c.name))
  }

  /** What an attempt's write left behind: its own revision, or a cached copy with the same data. */
  ghost predicate WriteTrue(c: Config, n: nat, a: Attempt, h: SecretHistory) {
    && (!a.write.NotTried? ==> HasData(a))
    && (a.write.Applied() ==> 0 < a.revision < |h| && WrittenBy(h[a.revision], n))
    && (a.write.Kept? ==> a.copy < a.revision <= |h| && IsWanted(h[a.copy], a.data, c.name))
  }

  ghost predicate WritersAscend(h: SecretHistory) {
    forall j, k :: 0 <= j < k < |h| && h[j].Present? && h[j].writer.Some? && h[k].Present? && h[k].writer.Some? ==>
      h[j].writer.value < h[k].writer.value
  }

  ghost predicate HistoryTrue(c: Config, ledger: seq<Attempt>, key: ObjectKey, h: SecretHistory) {
    WritersAscend(h) && forall k :: 0 <= k < |h| ==> RevisionTrue(c, ledger, key, h, k)
  }

  ghost predicate SecretsTrue(c: Config, s: State) {
    && (forall key :: key in s.api.secrets ==> HistoryTrue(c, s.log.ledger, key, s.api.secrets[key]))
    && (forall n :: 0 <= n < |s.log.ledger| ==>
          WriteTrue(c, n, s.log.ledger[n], SecretsAt(s.api, s.log.ledger[n].target)))
    && Pending(s)
  }

  /** Up to the write of the Secret the current attempt has written nothing. */
  ghost predicate Pending(s: State) {
    && (BeforeWrite(s.pc) ==> s.log.ledger != [] && Last(s.log.ledger).write.NotTried?)
    && (s.pc.WritingSecret? ==> s.log.ledger != [] && HasData(Last(s.log.ledger)))
  }

  // ---------- create-or-update ----------

  /** The cached copy already is the wanted Secret, by its fields: it has the data and the two labels. */
  predicate IsWanted(copy: SecretRevision, data: Secret, name: string) {
    && copy.Present? && copy.data == data
    && "secrets.keysmith.io/managed-by" in copy.labels && copy.labels["secrets.keysmith.io/managed-by"] == "keysmith"
    && "secrets.keysmith.io/policy" in copy.labels && copy.labels["secrets.keysmith.io/policy"] == name
  }

  /** The comparison of the mutated copy with the copy finds no difference exactly then. */
  lemma SameContentIff(copy: SecretRevision, data: Secret, name: string, n: nat)
    ensures SameContent(copy, Wanted(copy, data, name, n)) <==> IsWanted(copy, data, name)
  {
    var labels := ManagedLabels(name);
    assert MANAGED_BY != POLICY_LABEL by { assert |MANAGED_BY| != |POLICY_LABEL|; }
    if IsWanted(copy, data, name) {
      assert copy.labels + labels == copy.labels;
    }
    if copy.Present? && copy.labels + labels == copy.labels {
      assert MANAGED_BY in labels && POLICY_LABEL in labels;
      assert copy.labels[MANAGED_BY] == labels[MANAGED_BY] && copy.labels[POLICY_LABEL] == labels[POLICY_LABEL];
    }
  }

  /**
   What one create-or-update does to the Secret: it appends the data and the two labels,
   on top of the labels there are, or nothing. It keeps the copy exactly if it reached the
   server and the copy already is the wanted Secret, and writes if it reached the server,
   the copy is not, and nobody has written since.
   */
  lemma CreateOrUpdateIs(h: SecretHistory, seen: nat, data: Secret, name: string, n: nat, reply: Reply)
    requires seen < |h|
    ensures var r := CreateOrUpdate(h, seen, data, name, n, reply);
            && (r.1.Applied() ==> r.0 == h + [Present(data, Labels(Last(h)) + ManagedLabels(name), Some(n))])
            && (!r.1.Applied() ==> r.0 == h)
            && (r.1.Kept? <==> !reply.Refused? && IsWanted(h[seen], data, name))
            && (r.1.Applied() <==> !reply.Refused? && !IsWanted(h[seen], data, name)
                                   && if h[seen].Absent? then Last(h).Absent? else seen == |h| - 1)
            && (r.1.Written? <==> r.1.Applied() && reply.Accepted?)
            && !r.1.NotTried?
            && ManagedLabels(name) ==
                 map["secrets.keysmith.io/managed-by" := "keysmith", "secrets.keysmith.io/policy" := name]
  {
    SameContentIff(h[seen], data, name, n);
  }

  /**
   After a create-or-update without an error the Secret has the wanted data exactly
   when the cached copy was not yet the wanted Secret, so that it was written, or the
   data has not changed since that copy.
   */
  lemma SuccessShowsDataIff(h: SecretHistory, seen: nat, data: Secret, name: string, n: nat, reply: Reply)
    requires seen < |h| && CreateOrUpdate(h, seen, data, name, n, reply).1.Succeeded()
    ensures var after := Last(CreateOrUpdate(h, seen, data, name, n, reply).0);
            (after.Present? && after.data == data)
            <==> (|| !IsWanted(h[seen], data, name)
                  || (Last(h).Present? && Last(h).data == h[seen].data))
  {
    CreateOrUpdateIs(h, seen, data, name, n, reply);
  }

  /**
   A create-or-update that fails has changed the Secret exactly when its answer was lost,
   the copy was not yet the wanted Secret, and the copy was current.
   */
  lemma FailureWritesIff(h: SecretHistory, seen: nat, data: Secret, name: string, n: nat, reply: Reply)
    requires seen < |h| && !CreateOrUpdate(h, seen, data, name, n, reply).1.Succeeded()
    ensures CreateOrUpdate(h, seen, data, name, n, reply).0 != h <==> WritesUnreported(h, seen, data, name, reply)
    ensures CreateOrUpdate(h, seen, data, name, n, reply).1 ==
      Unwritten(WritesUnreported(h, seen, data, name, reply))
  {
    SameContentIff(h[seen], data, name, n);
  }

  /** The guard under which a write takes place although it is answered with an error. */
  predicate WritesUnreported(h: SecretHistory, seen: nat, data: Secret, name: string, reply: Reply)
    requires seen < |h|
  {
    && reply.Lost?
    && !IsWanted(h[seen], data, name)
    && (if h[seen].Absent? then Last(h).Absent? else seen == |h| - 1)
  }

  // ---------- one step ----------

  /** Attempts that have written keep everything the Secrets depend on. */
  ghost predicate WritersKept(s: seq<Attempt>, t: seq<Attempt>) {
    && |s| <= |t|
    && forall n :: 0 <= n < |s| && !s[n].write.NotTried? ==>
         t[n] == s[n].(handle := t[n].handle, restarted := t[n].restarted, stamp := t[n].stamp)
  }

  lemma HistoryStaysTrue(c: Config, s: seq<Attempt>, t: seq<Attempt>, key: ObjectKey, h: SecretHistory)
    requires HistoryTrue(c, s, key, h) && WritersKept(s, t)
    ensures HistoryTrue(c, t, key, h)
  {
    forall k | 0 <= k < |h| ensures RevisionTrue(c, t, key, h, k) {
      assert RevisionTrue(c, s, key, h, k);
    }
  }

  lemma QuietLedger(s: State, i: Input, t: State)
    requires Pending(s) && LedgerEffect(s, i, t) && WorkerEffect(s, i, t) && !(i.PutSecret? && s.pc.WritingSecret?)
    ensures WritersKept(s.log.ledger, t.log.ledger)
    ensures forall n :: 0 <= n < |t.log.ledger| ==>
      t.log.ledger[n].write.NotTried? || (n < |s.log.ledger| && !s.log.ledger[n].write.NotTried?)
    ensures BeforeWrite(t.pc) ==> t.log.ledger != [] && Last(t.log.ledger).write.NotTried?
  {
  }

  lemma QuietStepKeeps(c: Config, s: State, i: Input, t: State)
    requires SecretsTrue(c, s) && Effects(s, i, t)
    requires t.api.secrets == s.api.secrets && !(i.PutSecret? && s.pc.WritingSecret?)
    requires t.pc.WritingSecret? ==> t.log.ledger != [] && HasData(Last(t.log.ledger))
    ensures SecretsTrue(c, t)
  {
    QuietLedger(s, i, t);
    forall key | key in t.api.secrets ensures HistoryTrue(c, t.log.ledger, key, t.api.secrets[key]) {
      HistoryStaysTrue(c, s.log.ledger, t.log.ledger, key, s.api.secrets[key]);
    }
    forall n | 0 <= n < |t.log.ledger|
      ensures WriteTrue(c, n, t.log.ledger[n], SecretsAt(t.api, t.log.ledger[n].target))
    {
      if !t.log.ledger[n].write.NotTried? {
        assert WriteTrue(c, n, s.log.ledger[n], SecretsAt(s.api, s.log.ledger[n].target));
      }
    }
  }

  /** Only the provider's answer leads to the write of the Secret, and it brings the data along. */
  lemma WritingHasData(c: Config, s: State, i: Input)
    requires Pending(s) && Step(c, s, i).pc.WritingSecret?
    ensures var t := Step(c, s, i); t.log.ledger != [] && HasData(Last(t.log.ledger))
  {
    StepEffects(c, s, i);
    if i.CallProvider? && s.pc.CallingProvider? {
      ProviderIsTheStep(c, s, i.output);
    } else if i.PutSecret? && s.pc.WritingSecret? {
      SecretIsTheStep(c, s, i.seen, i.reply);
    } else {
      OnlyProviderLeadsToWriting(c, s, i);
    }
  }

  lemma OnlyProviderLeadsToWriting(c: Config, s: State, i: Input)
    requires !(i.CallProvider? && s.pc.CallingProvider?) && !(i.PutSecret? && s.pc.WritingSecret?)
    requires Step(c, s, i).pc.WritingSecret?
    ensures s.pc.WritingSecret? && Step(c, s, i).log.ledger == s.log.ledger
  {
    StepEffects(c, s, i);
  }

  lemma ProviderIsTheStep(c: Config, s: State, output: Result<Secret, ProviderError>)
    requires s.pc.CallingProvider?
    ensures Step(c, s, CallProvider(output)) == StepCallProvider(c, s, output)
  {
  }

  lemma SecretIsTheStep(c: Config, s: State, seen: nat, reply: Reply)
    requires s.pc.WritingSecret?
    ensures Step(c, s, PutSecret(seen, reply)) == StepPutSecret(c, s, seen, reply)
  {
  }

  lemma ForeignWriteKeeps(c: Config, s: State, i: Input)
    requires SecretsTrue(c, s) && i.ForeignSecret?
    ensures SecretsTrue(c, EnvironmentStep(c, s, i))
  {
    var t := EnvironmentStep(c, s, i);
    var h := SecretsAt(s.api, i.key);
    var h' := t.api.secrets[i.key];
    assert t.log == s.log && t.pc == s.pc;
    assert HistoryTrue(c, s.log.ledger, i.key, h);
    forall k | 0 <= k < |h'| ensures RevisionTrue(c, s.log.ledger, i.key, h', k) {
      if k < |h| {
        assert RevisionTrue(c, s.log.ledger, i.key, h, k);
      }
    }
    forall n | 0 <= n < |s.log.ledger|
      ensures WriteTrue(c, n, s.log.ledger[n], SecretsAt(t.api, s.log.ledger[n].target))
    {
      assert WriteTrue(c, n, s.log.ledger[n], SecretsAt(s.api, s.log.ledger[n].target));
    }
  }

  /** The attempt's own write: its revision comes on top, and follows every earlier writer. */
  lemma OwnWriteKeepsHistory(c: Config, s: seq<Attempt>, t: seq<Attempt>, key: ObjectKey, h: SecretHistory,
                             h': SecretHistory)
    requires s != [] && |t| == |s| && HistoryTrue(c, s, key, h) && WritersKept(s, t)
    requires Last(s).write.NotTried?
    requires var a := Last(t);
      && a.target == key && a.revision == |h|
      && h' == if !a.write.Applied() then h
               else h + [Present(a.data, Labels(Last(h)) + ManagedLabels(c.name), Some(|s| - 1))]
    ensures HistoryTrue(c, t, key, h')
  {
    HistoryStaysTrue(c, s, t, key, h);
    forall k | 0 <= k < |h'| ensures RevisionTrue(c, t, key, h', k) {
      if k < |h| {
        assert RevisionTrue(c, t, key, h, k);
      }
    }
    forall j | 0 <= j < |h| && h[j].Present? && h[j].writer.Some? ensures h[j].writer.value < |s| - 1 {
      assert RevisionTrue(c, s, key, h, j);
    }
  }

  lemma OwnWriteKeepsHistories(c: Config, s: State, seen: nat, reply: Reply)
    requires SecretsTrue(c, s) && s.pc.WritingSecret? && seen < |SecretsAt(s.api, Last(s.log.ledger).target)|
    ensures var t := StepPutSecret(c, s, seen, reply);
            forall key :: key in t.api.secrets ==> HistoryTrue(c, t.log.ledger, key, t.api.secrets[key])
  {
    var t := StepPutSecret(c, s, seen, reply);
    var a := Last(s.log.ledger);
    var h := SecretsAt(s.api, a.target);
    CreateOrUpdateIs(h, seen, a.data, c.name, AttemptId(s), reply);
    assert HistoryTrue(c, s.log.ledger, a.target, h);
    assert WritersKept(s.log.ledger, t.log.ledger);
    forall key | key in t.api.secrets ensures HistoryTrue(c, t.log.ledger, key, t.api.secrets[key]) {
      if key == a.target {
        OwnWriteKeepsHistory(c, s.log.ledger, t.log.ledger, key, h, t.api.secrets[key]);
      } else {
        HistoryStaysTrue(c, s.log.ledger, t.log.ledger, key, s.api.secrets[key]);
      }
    }
  }

  lemma OwnWriteKeeps(c: Config, s: State, seen: nat, reply: Reply)
    requires SecretsTrue(c, s) && s.pc.WritingSecret? && seen < |SecretsAt(s.api, Last(s.log.ledger).target)|
    ensures SecretsTrue(c, StepPutSecret(c, s, seen, reply))
  {
    var t := StepPutSecret(c, s, seen, reply);
    var a := Last(s.log.ledger);
    CreateOrUpdateIs(SecretsAt(s.api, a.target), seen, a.data, c.name, AttemptId(s), reply);
    OwnWriteKeepsHistories(c, s, seen, reply);
    forall n | 0 <= n < |t.log.ledger|
      ensures WriteTrue(c, n, t.log.ledger[n], SecretsAt(t.api, t.log.ledger[n].target))
    {
      assert WriteTrue(c, n, s.log.ledger[n], SecretsAt(s.api, s.log.ledger[n].target));
    }
  }

  lemma StepKeeps(c: Config, s: State, i: Input)
    requires SecretsTrue(c, s)
    ensures SecretsTrue(c, Step(c, s, i))
  {
    StepEffects(c, s, i);
    if i.ForeignSecret? {
      ForeignWriteKeeps(c, s, i);
      EnvironmentIsTheStep(c, s, i);
    } else if i.PutSecret? && s.pc.WritingSecret? {
      SecretIsTheStep(c, s, i.seen, i.reply);
      if i.seen < |SecretsAt(s.api, Last(s.log.ledger).target)| {
        OwnWriteKeeps(c, s, i.seen, i.reply);
      }
    } else {
      var t := Step(c, s, i);
      if t.pc.WritingSecret? {
        WritingHasData(c, s, i);
      }
      QuietStepKeeps(c, s, i, t);
    }
  }

  lemma EnvironmentIsTheStep(c: Config, s: State, i: Input)
    requires FromEnvironment(i)
    ensures Step(c, s, i) == EnvironmentStep(c, s, i)
  {
  }

  lemma {:induction false} RunKeeps(c: Config, start: State, inputs: seq<Input>)
    requires SecretsTrue(c, start)
    ensures SecretsTrue(c, Run(c, start, inputs))
  {
    if inputs != [] {
      RunKeeps(c, start, inputs[..|inputs| - 1]);
      StepKeeps(c, Run(c, start, inputs[..|inputs| - 1]), Last(inputs));
    }
  }

  lemma ReachableSecretsTrue(c: Config, s: State)
    requires Reachable(c, s)
    ensures SecretsTrue(c, s)
  {
    var spec, rotate, clock, inputs :| UNIX_EPOCH <= clock && s == Run(c, Init(spec, rotate, clock), inputs);
    RunKeeps(c, Init(spec, rotate, clock), inputs);
  }

  // ---------- the theorems ----------

  /** After revision `b` nobody but the policy's attempts has written or removed the Secret. */
  ghost predicate OnlyAttemptsSince(h: SecretHistory, b: nat) {
    b < |h| && forall k :: b < k < |h| ==> h[k].Present? && h[k].writer.Some?
  }

  /** A write keeps the labels it finds, so those of the baseline are never lost. */
  lemma {:induction false} LabelsSince(c: Config, ledger: seq<Attempt>, key: ObjectKey, h: SecretHistory, b: nat,
                                       k: nat)
    requires OnlyAttemptsSince(h, b) && b < k < |h|
    requires forall j :: 0 <= j < |h| ==> RevisionTrue(c, ledger, key, h, j)
    ensures h[k].Present? && h[k].labels == Labels(h[b]) + ManagedLabels(c.name)
  {
    assert RevisionTrue(c, ledger, key, h, k);
    if k > b + 1 {
      LabelsSince(c, ledger, key, h, b, k - 1);
      var managed := ManagedLabels(c.name);
      assert Labels(h[b]) + managed + managed == Labels(h[b]) + managed;
    }
  }

  /** The attempt has written this Secret, whether or not it was told so. */
  predicate WroteTo(a: Attempt, key: ObjectKey) {
    a.target == key && a.write.Applied()
  }

  /**
   From any baseline revision on, while only the policy's attempts write: either none of
   their writes has taken place since, or the Secret holds the mapped provider output of
   the latest attempt whose write took place, with exactly the requested keys, and the
   labels of the baseline besides the managed ones. The baseline is the Secret as the
   policy found it, or as somebody else last left it.
   */
  lemma SecretHoldsLatestWrite(c: Config, s: State, key: ObjectKey, b: nat)
    requires Reachable(c, s) && OnlyAttemptsSince(SecretsAt(s.api, key), b)
    ensures var h := SecretsAt(s.api, key);
            if |h| - 1 == b then
              forall n :: 0 <= n < |s.log.ledger| && WroteTo(s.log.ledger[n], key) ==> s.log.ledger[n].revision <= b
            else
              && Last(h).Present? && Last(h).writer.Some? && Last(h).writer.value < |s.log.ledger|
              && var a := s.log.ledger[Last(h).writer.value];
              && WroteTo(a, key) && HasData(a) && Last(h).data == a.data
              && Last(h).data.Keys == Elements(SecretKeys(a.keys))
              && Last(h).labels == Labels(h[b]) + map["secrets.keysmith.io/managed-by" := "keysmith",
                                                      "secrets.keysmith.io/policy" := c.name]
              && forall n :: 0 <= n < |s.log.ledger| && WroteTo(s.log.ledger[n], key) ==> n <= Last(h).writer.value
  {
    ReachableSecretsTrue(c, s);
    var h := SecretsAt(s.api, key);
    if b < |h| - 1 {
      LatestWriter(c, s, key, b);
    }
    forall n | 0 <= n < |s.log.ledger| && WroteTo(s.log.ledger[n], key)
      ensures s.log.ledger[n].revision < |h| && (b < |h| - 1 ==> n <= Last(h).writer.value)
    {
      WriterIsAtMostLatest(c, s, key, n);
    }
  }

  lemma LatestWriter(c: Config, s: State, key: ObjectKey, b: nat)
    requires SecretsTrue(c, s) && OnlyAttemptsSince(SecretsAt(s.api, key), b) && b < |SecretsAt(s.api, key)| - 1
    ensures var h := SecretsAt(s.api, key);
            && Last(h).Present? && Last(h).writer.Some? && Last(h).writer.value < |s.log.ledger|
            && var a := s.log.ledger[Last(h).writer.value];
            && WroteTo(a, key) && HasData(a) && Last(h).data == a.data
            && Last(h).data.Keys == Elements(SecretKeys(a.keys))
            && Last(h).labels == Labels(h[b]) + ManagedLabels(c.name)
  {
    var h := SecretsAt(s.api, key);
    var last := |h| - 1;
    assert HistoryTrue(c, s.log.ledger, key, h);
    assert RevisionTrue(c, s.log.ledger, key, h, last);
    var n := Last(h).writer.value;
    assert WriteTrue(c, n, s.log.ledger[n], h);
    MappedContents(s.log.ledger[n].output.value, s.log.ledger[n].keys);
    LabelsSince(c, s.log.ledger, key, h, b, last);
  }

  lemma WriterIsAtMostLatest(c: Config, s: State, key: ObjectKey, n: nat)
    requires SecretsTrue(c, s) && n < |s.log.ledger| && WroteTo(s.log.ledger[n], key)
    ensures var h := SecretsAt(s.api, key);
            && s.log.ledger[n].revision < |h|
            && (Last(h).Present? && Last(h).writer.Some? ==> n <= Last(h).writer.value)
  {
    var h := SecretsAt(s.api, key);
    assert WriteTrue(c, n, s.log.ledger[n], h);
    assert HistoryTrue(c, s.log.ledger, key, h);
  }

  /** What a write reported as done means: its revision is there, or the cached copy already was the wanted Secret. */
  ghost predicate WrittenOrKept(c: Config, s: State, n: nat) {
    && n < |s.log.ledger|
    && var a := s.log.ledger[n];
    && var h := SecretsAt(s.api, a.target);
    && HasData(a)
    && (|| (&& a.write.Written? && a.revision < |h| && WrittenBy(h[a.revision], n) && h[a.revision].data == a.data)
        || (&& a.write.Kept? && a.copy < a.revision <= |h|
            && IsWanted(h[a.copy], a.data, c.name)))
  }

  lemma SuccessIsWrittenOrKept(c: Config, s: State, n: nat)
    requires Reachable(c, s) && n < |s.log.ledger| && s.log.ledger[n].write.Succeeded()
    ensures WrittenOrKept(c, s, n)
  {
    ReachableSecretsTrue(c, s);
    var a := s.log.ledger[n];
    var h := SecretsAt(s.api, a.target);
    assert WriteTrue(c, n, a, h);
    if a.write.Written? {
      assert HistoryTrue(c, s.log.ledger, a.target, h);
      assert RevisionTrue(c, s.log.ledger, a.target, h, a.revision);
    }
  }

  /** No two attempts that tried to write the same Secret had the same data for it. */
  ghost predicate FreshData(ledger: seq<Attempt>) {
    forall m, n ::
      0 <= m < n < |ledger| && !ledger[m].write.NotTried? && !ledger[n].write.NotTried?
      && ledger[m].target == ledger[n].target
      ==> ledger[m].data != ledger[n].data
  }

  /** The data is none that the Secret had up to the baseline. */
  ghost predicate NewSince(h: SecretHistory, b: nat, data: Secret) {
    forall k :: 0 <= k <= b && k < |h| && h[k].Present? ==> h[k].data != data
  }

  /**
   With fresh data an outdated copy cannot pass for the wanted Secret: every write
   reported as done was done, after the baseline.
   */
  lemma FreshDataIsAlwaysWritten(c: Config, s: State, n: nat, b: nat)
    requires Reachable(c, s) && n < |s.log.ledger| && FreshData(s.log.ledger)
    requires var h := SecretsAt(s.api, s.log.ledger[n].target);
             OnlyAttemptsSince(h, b) && NewSince(h, b, s.log.ledger[n].data)
    ensures !s.log.ledger[n].write.Kept?
    ensures s.log.ledger[n].write.Succeeded() ==>
      var a := s.log.ledger[n];
      var h := SecretsAt(s.api, a.target);
      b < a.revision < |h| && WrittenBy(h[a.revision], n) && h[a.revision].data == a.data
  {
    ReachableSecretsTrue(c, s);
    var a := s.log.ledger[n];
    var h := SecretsAt(s.api, a.target);
    assert WriteTrue(c, n, a, h);
    assert HistoryTrue(c, s.log.ledger, a.target, h);
    assert a.write.Kept? ==> RevisionTrue(c, s.log.ledger, a.target, h, a.copy);
    if a.write.Succeeded() {
      SuccessIsWrittenOrKept(c, s, n);
    }
  }

  /**
   The latest attempt reported as successful is the one the Secret shows, unless a later write
   took place unreported.
   */
  lemma SecretShowsLatestSuccess(c: Config, s: State, n: nat, b: nat)
    requires Reachable(c, s) && n < |s.log.ledger| && FreshData(s.log.ledger)
    requires s.log.ledger[n].write.Succeeded()
    requires var h := SecretsAt(s.api, s.log.ledger[n].target);
             OnlyAttemptsSince(h, b) && NewSince(h, b, s.log.ledger[n].data)
    requires forall m :: n < m < |s.log.ledger| && s.log.ledger[m].target == s.log.ledger[n].target ==>
      !s.log.ledger[m].write.Applied()
    ensures var current, a := Last(SecretsAt(s.api, s.log.ledger[n].target)), s.log.ledger[n];
            current.Present? && a.output.Ok? && Mapped(a.output.value, a.keys) == Ok(current.data)
  {
    FreshDataIsAlwaysWritten(c, s, n, b);
    SecretHoldsLatestWrite(c, s, s.log.ledger[n].target, b);
  }
}
