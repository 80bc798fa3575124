/**
 Runs whose provider is the counting mock. Its counter lives in the process: it counts
 the calls since the last restart. A version is given out twice exactly when a call comes
 after a restart that lies behind another call.
 */
module MockRuns {
  import opened Prelude
  import opened Clock
  import opened Api
  import opened Machine
  import opened Frames
  import opened Coherence
  import Mock
  import Secrets

  // ---------- the provider of a run ----------

  predicate AsksProvider(pc: Pc, i: Input) {
    pc.CallingProvider? && i.CallProvider?
  }

  /** The counter after a run: an interruption ends the process, and the next one starts counting anew. */
  function Counter(c: Config, start: State, inputs: seq<Input>): Duration {
    if inputs == [] then 0
    else
      var front := inputs[..|inputs| - 1];
      if Last(inputs).Interrupt? then 0
      else if AsksProvider(Run(c, start, front).pc, Last(inputs)) then Mock.Increment(Counter(c, start, front))
      else Counter(c, start, front)
  }

  /** Every call of the provider is answered by the mock, with the parameters the worker has. */
  ghost predicate ServedByMock(c: Config, start: State, inputs: seq<Input>) {
    inputs == []
    || var front := inputs[..|inputs| - 1];
       var s := Run(c, start, front);
       && ServedByMock(c, start, front)
       && (AsksProvider(s.pc, Last(inputs)) ==>
             Last(inputs).output == Ok(Mock.Values(s.mem.obj.spec.params, Counter(c, start, inputs))))
  }

  /** The calls of the provider in a run. */
  function ProviderCalls(c: Config, start: State, inputs: seq<Input>): nat {
    if inputs == [] then 0
    else
      var front := inputs[..|inputs| - 1];
      ProviderCalls(c, start, front) + if AsksProvider(Run(c, start, front).pc, Last(inputs)) then 1 else 0
  }

  /** Some call comes after a restart that lies behind an earlier call: the counter is behind the calls. */
  predicate Repeats(c: Config, start: State, inputs: seq<Input>) {
    inputs != []
    && var front := inputs[..|inputs| - 1];
       || Repeats(c, start, front)
       || (&& AsksProvider(Run(c, start, front).pc, Last(inputs))
           && Counter(c, start, front) < ProviderCalls(c, start, front))
  }

  /** The counter never overtakes the calls; at a call that repeats nothing it has counted them all. */
  lemma {:induction false} CounterIsBehind(c: Config, start: State, inputs: seq<Input>)
    requires ProviderCalls(c, start, inputs) <= MAX_DURATION
    ensures 0 <= Counter(c, start, inputs) <= ProviderCalls(c, start, inputs)
    ensures !Repeats(c, start, inputs) ==> Counter(c, start, inputs) in {0, ProviderCalls(c, start, inputs) as int}
  {
    if inputs != [] {
      CounterIsBehind(c, start, inputs[..|inputs| - 1]);
    }
  }

  /** Without a restart nothing repeats. */
  lemma {:induction false} NoRestartNoRepeat(c: Config, start: State, inputs: seq<Input>)
    requires ProviderCalls(c, start, inputs) <= MAX_DURATION && forall i :: i in inputs ==> !i.Interrupt?
    ensures !Repeats(c, start, inputs) && Counter(c, start, inputs) == ProviderCalls(c, start, inputs)
  {
    if inputs != [] {
      NoRestartNoRepeat(c, start, inputs[..|inputs| - 1]);
    }
  }

  predicate LeavesProviderAlone(inputs: seq<Input>) {
    forall i :: i in inputs ==> !i.CallProvider? && !i.Interrupt?
  }

  lemma ServedOneMore(c: Config, start: State, first: seq<Input>, i: Input)
    requires ServedByMock(c, start, first) && !i.CallProvider? && !i.Interrupt?
    ensures ServedByMock(c, start, first + [i]) && Counter(c, start, first + [i]) == Counter(c, start, first)
  {
    assert (first + [i])[..|first|] == first;
  }

  lemma {:induction false} ServedQuietly(c: Config, start: State, first: seq<Input>, second: seq<Input>)
    requires ServedByMock(c, start, first) && LeavesProviderAlone(second)
    ensures ServedByMock(c, start, first + second) && Counter(c, start, first + second) == Counter(c, start, first)
  {
    if second == [] {
      assert first + second == first;
    } else {
      var n := |second| - 1;
      assert first + second == first + second[..n] + [second[n]];
      ServedQuietly(c, start, first, second[..n]);
      ServedOneMore(c, start, first + second[..n], second[n]);
    }
  }

  lemma ServedOnce(c: Config, start: State, first: seq<Input>, i: Input)
    requires ServedByMock(c, start, first) && AsksProvider(Run(c, start, first).pc, i)
    requires var version := Mock.Increment(Counter(c, start, first));
             i.output == Ok(Mock.Values(Run(c, start, first).mem.obj.spec.params, version))
    ensures ServedByMock(c, start, first + [i])
  {
    assert (first + [i])[..|first|] == first;
  }

  lemma ServedUpToCall(c: Config, start: State, first: seq<Input>, before: seq<Input>, call: Input, r: State)
    requires ServedByMock(c, start, first) && LeavesProviderAlone(before)
    requires r == Run(c, start, first + before) && AsksProvider(r.pc, call)
    requires call.output == Ok(Mock.Values(r.mem.obj.spec.params, Mock.Increment(Counter(c, start, first))))
    ensures ServedByMock(c, start, first + before + [call])
  {
    ServedQuietly(c, start, first, before);
    ServedOnce(c, start, first + before, call);
  }

  /** One call of the provider among others. */
  lemma ServedAround(c: Config, start: State, first: seq<Input>, before: seq<Input>, call: Input, after: seq<Input>,
                     r: State)
    requires ServedByMock(c, start, first) && LeavesProviderAlone(before) && LeavesProviderAlone(after)
    requires r == Run(c, start, first + before) && AsksProvider(r.pc, call)
    requires call.output == Ok(Mock.Values(r.mem.obj.spec.params, Mock.Increment(Counter(c, start, first))))
    ensures ServedByMock(c, start, first + (before + [call] + after))
  {
    Regroup(first, before, [call], after);
    ServedUpToCall(c, start, first, before, call, r);
    ServedQuietly(c, start, first + before + [call], after);
  }

  lemma Regroup<T>(a: seq<T>, b: seq<T>, c: seq<T>, d: seq<T>)
    ensures a + (b + c + d) == a + b + c + d
  {
  }

  lemma ServedUpToRestart(c: Config, start: State, first: seq<Input>)
    requires ServedByMock(c, start, first)
    ensures ServedByMock(c, start, first + [Interrupt]) && Counter(c, start, first + [Interrupt]) == 0
  {
    assert (first + [Interrupt])[..|first|] == first;
  }

  // ---------- versions ascend ----------

  /** Which version each attempt got, and with which parameters; the versions ascend up to `top`. */
  ghost predicate Versions(ledger: seq<Attempt>, versions: seq<nat>, params: seq<map<string, string>>, top: nat) {
    && |versions| == |ledger| == |params|
    && (forall n :: 0 <= n < |ledger| && ledger[n].output.Ok? ==>
          versions[n] <= top && ledger[n].output.value == Mock.Values(params[n], versions[n]))
    && (forall m, n :: 0 <= m < n < |ledger| && ledger[m].output.Ok? && ledger[n].output.Ok? ==>
          versions[m] < versions[n])
  }

  /** No other step changes what the provider has answered. */
  ghost predicate SameOutputs(s: seq<Attempt>, t: seq<Attempt>) {
    && |s| <= |t|
    && (forall n :: 0 <= n < |s| ==> t[n].output == s[n].output)
    && (forall n :: |s| <= n < |t| ==> t[n].output.Err?)
  }

  lemma QuietStepOutputs(s: State, i: Input, t: State)
    requires Effects(s, i, t) && !AsksProvider(s.pc, i)
    ensures SameOutputs(s.log.ledger, t.log.ledger) && |t.log.ledger| <= |s.log.ledger| + 1
  {
  }

  lemma ProviderStepOutputs(c: Config, s: State, i: Input)
    requires AsksProvider(s.pc, i) && s.log.ledger != []
    ensures var t, n := Step(c, s, i), |s.log.ledger| - 1;
            && |t.log.ledger| == n + 1 && t.log.ledger[n].output == i.output
            && forall m :: 0 <= m < n ==> t.log.ledger[m] == s.log.ledger[m]
  {
    Secrets.ProviderIsTheStep(c, s, i.output);
  }

  lemma QuietVersions(s: seq<Attempt>, t: seq<Attempt>, versions: seq<nat>, params: seq<map<string, string>>, top: nat)
    returns (v: seq<nat>, p: seq<map<string, string>>)
    requires Versions(s, versions, params, top) && SameOutputs(s, t) && |t| <= |s| + 1
    ensures Versions(t, v, p, top)
  {
    v, p := if |t| > |s| then versions + [0] else versions, if |t| > |s| then params + [map[]] else params;
  }

  lemma ProviderVersions(s: seq<Attempt>, t: seq<Attempt>, versions: seq<nat>, params: seq<map<string, string>>,
                         top: nat,
                         given: map<string, string>)
    requires Versions(s, versions, params, top) && s != [] && |t| == |s|
    requires forall m :: 0 <= m < |s| - 1 ==> t[m] == s[m]
    requires Last(t).output == Ok(Mock.Values(given, top + 1))
    ensures Versions(t, versions[|s| - 1 := top + 1], params[|s| - 1 := given], top + 1)
  {
  }

  /** One step, which asks for the next version if it asks at all. */
  lemma StepVersions(c: Config, s: State, i: Input, versions: seq<nat>, params: seq<map<string, string>>, top: nat)
    returns (v: seq<nat>, p: seq<map<string, string>>)
    requires Versions(s.log.ledger, versions, params, top) && (s.pc.CallingProvider? ==> s.log.ledger != [])
    requires AsksProvider(s.pc, i) ==> i.output == Ok(Mock.Values(s.mem.obj.spec.params, top + 1))
    ensures Versions(Step(c, s, i).log.ledger, v, p, if AsksProvider(s.pc, i) then top + 1 else top)
  {
    var t := Step(c, s, i);
    if AsksProvider(s.pc, i) {
      ProviderStepOutputs(c, s, i);
      ProviderVersions(s.log.ledger, t.log.ledger, versions, params, top, s.mem.obj.spec.params);
      var n := |s.log.ledger| - 1;
      v, p := versions[n := top + 1], params[n := s.mem.obj.spec.params];
    } else {
      StepEffects(c, s, i);
      QuietStepOutputs(s, i, t);
      v, p := QuietVersions(s.log.ledger, t.log.ledger, versions, params, top);
    }
  }

  lemma {:induction false} RunVersions(c: Config, start: State, inputs: seq<Input>)
    returns (versions: seq<nat>, params: seq<map<string, string>>)
    requires Coherent(c, start) && start.log.ledger == [] && ServedByMock(c, start, inputs)
    requires !Repeats(c, start, inputs) && ProviderCalls(c, start, inputs) <= MAX_DURATION
    ensures Versions(Run(c, start, inputs).log.ledger, versions, params, ProviderCalls(c, start, inputs))
  {
    versions, params := [], [];
    if inputs != [] {
      var front := inputs[..|inputs| - 1];
      versions, params := RunVersions(c, start, front);
      RunIsCoherent(c, start, front);
      CounterIsBehind(c, start, front);
      versions, params := StepVersions(c, Run(c, start, front), Last(inputs), versions, params,
                                       ProviderCalls(c, start, front));
    }
  }

  // ---------- versions repeat ----------

  predicate BeforeAnswer(pc: Pc) {
    pc.MarkingRotating? || pc.CreatingRecord? || pc.CallingProvider?
  }

  /** Up to the answer of its provider call an attempt has none. */
  ghost predicate NotYetAnswered(s: State) {
    BeforeAnswer(s.pc) ==> s.log.ledger != [] && Last(s.log.ledger).output.Err?
  }

  lemma OtherStepsDoNotLeadThere(c: Config, s: State, i: Input)
    requires Expected(s.pc, i) && !s.pc.MarkingRotating? && !s.pc.CreatingRecord?
    ensures var t := Step(c, s, i); BeforeAnswer(t.pc) ==> Begins(s, t)
  {
  }

  lemma StepNotYetAnswered(c: Config, s: State, i: Input)
    requires NotYetAnswered(s)
    ensures NotYetAnswered(Step(c, s, i))
  {
    StepEffects(c, s, i);
    if Expected(s.pc, i) && !s.pc.MarkingRotating? && !s.pc.CreatingRecord? {
      OtherStepsDoNotLeadThere(c, s, i);
    }
  }

  lemma {:induction false} RunNotYetAnswered(c: Config, start: State, inputs: seq<Input>)
    requires NotYetAnswered(start)
    ensures NotYetAnswered(Run(c, start, inputs))
  {
    if inputs != [] {
      RunNotYetAnswered(c, start, inputs[..|inputs| - 1]);
      StepNotYetAnswered(c, Run(c, start, inputs[..|inputs| - 1]), Last(inputs));
    }
  }

  /** An answer, once given to an attempt, stays. */
  lemma AnswersStay(c: Config, s: State, i: Input, n: nat)
    requires NotYetAnswered(s) && n < |s.log.ledger| && s.log.ledger[n].output.Ok?
    ensures var t := Step(c, s, i); n < |t.log.ledger| && t.log.ledger[n].output == s.log.ledger[n].output
  {
    if AsksProvider(s.pc, i) {
      ProviderStepOutputs(c, s, i);
    } else {
      StepEffects(c, s, i);
      QuietStepOutputs(s, i, Step(c, s, i));
    }
  }

  ghost predicate IsFirst(ledger: seq<Attempt>, n: nat, params: map<string, string>) {
    n < |ledger| && ledger[n].output == Ok(Mock.Values(params, 1))
  }

  /** Once there has been a call, some attempt has the first version. */
  lemma {:induction false} FirstVersion(c: Config, start: State, inputs: seq<Input>)
    returns (n: nat, params: map<string, string>)
    requires NotYetAnswered(start) && ServedByMock(c, start, inputs)
    requires 0 < ProviderCalls(c, start, inputs) <= MAX_DURATION
    ensures IsFirst(Run(c, start, inputs).log.ledger, n, params)
  {
    var front := inputs[..|inputs| - 1];
    var s, i := Run(c, start, front), Last(inputs);
    RunNotYetAnswered(c, start, front);
    if ProviderCalls(c, start, front) > 0 {
      n, params := FirstVersion(c, start, front);
      AnswersStay(c, s, i, n);
    } else {
      CounterIsBehind(c, start, front);
      ProviderStepOutputs(c, s, i);
      n, params := |s.log.ledger| - 1, s.mem.obj.spec.params;
    }
  }

  /** A call that repeats gives the first version to another attempt than the one that has it. */
  lemma RepeatingCall(c: Config, s: State, i: Input, m: nat, p: map<string, string>)
    requires NotYetAnswered(s) && AsksProvider(s.pc, i) && IsFirst(s.log.ledger, m, p)
    requires i.output == Ok(Mock.Values(s.mem.obj.spec.params, 1))
    ensures var n, t := |s.log.ledger| - 1, Step(c, s, i);
            m < n && IsFirst(t.log.ledger, m, p) && IsFirst(t.log.ledger, n, s.mem.obj.spec.params)
  {
    ProviderStepOutputs(c, s, i);
  }

  lemma FirstsStay(c: Config, s: State, i: Input, n: nat, p: map<string, string>)
    requires NotYetAnswered(s) && IsFirst(s.log.ledger, n, p)
    ensures IsFirst(Step(c, s, i).log.ledger, n, p)
  {
    AnswersStay(c, s, i, n);
  }

  /** A run that repeats has given the first version to two attempts. */
  lemma {:induction false} FirstVersionTwice(c: Config, start: State, inputs: seq<Input>)
    returns (m: nat, n: nat, p: map<string, string>, q: map<string, string>)
    requires NotYetAnswered(start) && ServedByMock(c, start, inputs)
    requires Repeats(c, start, inputs) && ProviderCalls(c, start, inputs) <= MAX_DURATION
    ensures m < n && IsFirst(Run(c, start, inputs).log.ledger, m, p) && IsFirst(Run(c, start, inputs).log.ledger, n, q)
  {
    var front := inputs[..|inputs| - 1];
    var s := Run(c, start, front);
    RunNotYetAnswered(c, start, front);
    if Repeats(c, start, front) {
      m, n, p, q := FirstVersionTwice(c, start, front);
      FirstsStay(c, s, Last(inputs), m, p);
      FirstsStay(c, s, Last(inputs), n, q);
    } else {
      CounterIsBehind(c, start, front);
      m, p := FirstVersion(c, start, front);
      RepeatingCall(c, s, Last(inputs), m, p);
      n, q := |s.log.ledger| - 1, s.mem.obj.spec.params;
    }
  }

  lemma TwiceFirstDoesNotAscend(ledger: seq<Attempt>, versions: seq<nat>, params: seq<map<string, string>>, top: nat,
                                m: nat, n: nat, p: map<string, string>, q: map<string, string>)
    requires m < n && IsFirst(ledger, m, p) && IsFirst(ledger, n, q)
    ensures !Versions(ledger, versions, params, top)
  {
    if Versions(ledger, versions, params, top) {
      var v := if versions[m] != 1 then m else n;
      var given := if versions[m] != 1 then p else q;
      Mock.VersionsAreDistinct(params[v], versions[v], given, 1);
    }
  }

  /** The attempts' versions ascend, up to the number of calls. */
  ghost predicate VersionsAscend(c: Config, start: State, inputs: seq<Input>) {
    exists versions, params ::
      Versions(Run(c, start, inputs).log.ledger, versions, params, ProviderCalls(c, start, inputs))
  }

  /**
   Short of an overflow of the counter, the versions that the mock gives to the attempts
   of a run ascend exactly if no call comes after a restart that lies behind an earlier
   call.
   */
  lemma VersionsAscendIff(c: Config, start: State, inputs: seq<Input>)
    requires Coherent(c, start) && start.log.ledger == [] && NotYetAnswered(start)
    requires ServedByMock(c, start, inputs) && ProviderCalls(c, start, inputs) <= MAX_DURATION
    ensures VersionsAscend(c, start, inputs) <==> !Repeats(c, start, inputs)
  {
    if Repeats(c, start, inputs) {
      var m, n, p, q := FirstVersionTwice(c, start, inputs);
      forall versions, params
        ensures !Versions(Run(c, start, inputs).log.ledger, versions, params, ProviderCalls(c, start, inputs))
      {
        TwiceFirstDoesNotAscend(Run(c, start, inputs).log.ledger, versions, params, ProviderCalls(c, start, inputs),
                                m, n, p, q);
      }
    } else {
      var versions, params := RunVersions(c, start, inputs);
    }
  }

  /**
   So, while no call repeats a version and the counter does not overflow, attempts served
   by the mock have pairwise different data for the same Secret, whatever is edited, if
   each maps a versioned value to some common key.
   */
  lemma MockDataIsFresh(c: Config, spec: Spec, rotate: Option<string>, clock: Instant, inputs: seq<Input>, s: State,
                        key: string)
    requires UNIX_EPOCH <= clock && s == Run(c, Init(spec, rotate, clock), inputs)
    requires ServedByMock(c, Init(spec, rotate, clock), inputs)
    requires !Repeats(c, Init(spec, rotate, clock), inputs)
    requires ProviderCalls(c, Init(spec, rotate, clock), inputs) <= MAX_DURATION
    requires forall n :: 0 <= n < |s.log.ledger| && s.log.ledger[n].output.Ok? ==>
      Mock.Versioned(s.log.ledger[n].keys, key)
    ensures Secrets.FreshData(s.log.ledger)
  {
    var start := Init(spec, rotate, clock);
    InitIsCoherent(c, spec, rotate, clock);
    var versions, params := RunVersions(c, start, inputs);
    Secrets.RunKeeps(c, start, inputs);
    VersionsAreFresh(c, s, key, versions, params, ProviderCalls(c, start, inputs));
  }

  lemma VersionsAreFresh(c: Config, s: State, key: string, versions: seq<nat>, params: seq<map<string, string>>,
                         top: nat)
    requires Secrets.SecretsTrue(c, s) && Versions(s.log.ledger, versions, params, top)
    requires forall n :: 0 <= n < |s.log.ledger| && s.log.ledger[n].output.Ok? ==>
      Mock.Versioned(s.log.ledger[n].keys, key)
    ensures Secrets.FreshData(s.log.ledger)
  {
    var ledger := s.log.ledger;
    forall m, n | 0 <= m < n < |ledger| && !ledger[m].write.NotTried? && !ledger[n].write.NotTried?
      && ledger[m].target == ledger[n].target
      ensures ledger[m].data != ledger[n].data
    {
      assert Secrets.WriteTrue(c, m, ledger[m], SecretsAt(s.api, ledger[m].target));
      assert Secrets.WriteTrue(c, n, ledger[n], SecretsAt(s.api, ledger[n].target));
      Mock.MappedVersionsDiffer(key, ledger[m].keys, params[m], versions[m], ledger[n].keys, params[n], versions[n]);
    }
  }
}
