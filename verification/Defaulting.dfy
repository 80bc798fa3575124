/**
 Defaulting preserves behaviour: a run on defaulted specifications goes through the
 same states, step by step, as the run on the specifications as written, apart from
 the defaulted fields themselves.
 */
module Defaulting {
  import opened Prelude
  import opened Clock
  import opened Api
  import opened Provider
  import opened Machine
  import opened Frames
  import Webhook

  // ---------- defaulting a whole state ----------

  function DefaultPolicy(p: Policy): Policy {
    p.(spec := Webhook.Default(p.spec))
  }

  function DefaultHistory(h: History): (r: History)
    ensures |r| == |h| && forall k :: 0 <= k < |h| ==> r[k] == DefaultPolicy(h[k])
  {
    seq(|h|, k requires 0 <= k < |h| => DefaultPolicy(h[k]))
  }

  function DefaultServer(api: Server): Server {
    api.(hist := DefaultHistory(api.hist))
  }

  function DefaultState(s: State): State {
    s.(api := DefaultServer(s.api), mem := s.mem.(obj := DefaultPolicy(s.mem.obj)))
  }

  function DefaultInput(i: Input): Input {
    if i.Edit? then i.(spec := Webhook.Default(i.spec)) else i
  }

  function DefaultInputs(inputs: seq<Input>): (r: seq<Input>)
    ensures |r| == |inputs| && forall k :: 0 <= k < |inputs| ==> r[k] == DefaultInput(inputs[k])
  {
    seq(|inputs|, k requires 0 <= k < |inputs| => DefaultInput(inputs[k]))
  }

  // ---------- writes ----------

  lemma DefaultAppend(api: Server, p: Policy)
    ensures Append(api.(hist := DefaultHistory(api.hist)), DefaultPolicy(p)).hist == DefaultHistory(Append(api, p).hist)
  {
  }

  lemma StatusWrite(s: State, w: Write)
    ensures var d := DefaultState(s);
            && Applies(d, w) == Applies(s, w)
            && StatusStored(d, w) == StatusStored(s, w).(hist := DefaultHistory(StatusStored(s, w).hist))
            && Answer(d, w, StatusStored(d, w)) ==
                 var m := Answer(s, w, StatusStored(s, w)); m.(obj := DefaultPolicy(m.obj))
  {
    var d := DefaultState(s);
    assert Current(d) == DefaultPolicy(Current(s));
    assert WithStoredStatus(d) == DefaultPolicy(WithStoredStatus(s));
    assert StatusStored(d, w).hist == DefaultHistory(StatusStored(s, w).hist);
  }

  lemma ObjectWrite(s: State, w: Write)
    ensures var d := DefaultState(s);
            && Applies(d, w) == Applies(s, w)
            && ObjectStored(d, w) == ObjectStored(s, w).(hist := DefaultHistory(ObjectStored(s, w).hist))
            && Answer(d, w, ObjectStored(d, w)) ==
                 var m := Answer(s, w, ObjectStored(s, w)); m.(obj := DefaultPolicy(m.obj))
  {
    var d := DefaultState(s);
    Webhook.DefaultKeeps(s.mem.obj.spec);
    assert WithStoredObject(d, w) == DefaultPolicy(WithStoredObject(s, w));
    DefaultAppend(s.api, WithStoredObject(s, w));
  }

  lemma StatusWritesCommute(s: State, w: Write)
    requires WritesStatus(s.pc)
    ensures StepPutPolicy(DefaultState(s), w) == DefaultState(StepPutPolicy(s, w))
  {
    StatusWrite(s, w);
    assert Backoff(DefaultState(s).mem.obj.spec) == Backoff(s.mem.obj.spec);
  }

  lemma FinalizerWritesCommute(s: State, w: Write)
    ensures s.pc.DroppingFinalizer? ==> StepDropFinalizer(DefaultState(s), w) == DefaultState(StepDropFinalizer(s, w))
    ensures s.pc.AddingFinalizer? ==> StepAddFinalizer(DefaultState(s), w) == DefaultState(StepAddFinalizer(s, w))
  {
    ObjectWrite(s, w);
  }

  lemma RemovalCommutes(s: State, w: Write)
    requires s.pc.RemovingAnnotation?
    ensures StepRemoveAnnotation(DefaultState(s), w) == DefaultState(StepRemoveAnnotation(s, w))
  {
    ObjectWrite(s, w);
  }

  lemma PutPolicyCommutes(s: State, w: Write)
    ensures StepPutPolicy(DefaultState(s), w) == DefaultState(StepPutPolicy(s, w))
  {
    if WritesStatus(s.pc) {
      StatusWritesCommute(s, w);
    } else if s.pc.RemovingAnnotation? {
      RemovalCommutes(s, w);
    } else {
      FinalizerWritesCommute(s, w);
    }
  }

  // ---------- the other calls ----------

  lemma FetchCommutes(c: Config, s: State, got: Got)
    requires s.pc.Idle?
    ensures StepFetch(c, DefaultState(s), got) == DefaultState(StepFetch(c, s, got))
  {
  }

  lemma DecideCommutes(c: Config, s: State)
    requires s.pc.Deciding?
    ensures StepDecide(c, DefaultState(s)) == DefaultState(StepDecide(c, s))
  {
    assert Due(c, DefaultState(s).mem.obj, s.clock) == Due(c, s.mem.obj, s.clock);
  }

  lemma WaitCommutes(c: Config, s: State)
    requires s.pc.Waiting?
    ensures StepWait(c, DefaultState(s)) == DefaultState(StepWait(c, s))
  {
    var p, d := s.mem.obj, DefaultState(s).mem.obj;
    assert d.spec.schedule == p.spec.schedule && d.spec.Window() == p.spec.Window() && d.status == p.status;
    assert Degrade(DefaultState(s)) == DefaultState(Degrade(s));
  }

  lemma StampCommutes(c: Config, s: State)
    requires s.pc.Stamping?
    ensures StepStamp(c, DefaultState(s)) == DefaultState(StepStamp(c, s))
  {
  }

  lemma FinishCommutes(c: Config, s: State)
    requires s.pc.Finishing?
    ensures StepFinish(c, DefaultState(s)) == DefaultState(StepFinish(c, s))
  {
  }

  lemma ReadClockCommutes(c: Config, s: State)
    ensures StepReadClock(c, DefaultState(s)) == DefaultState(StepReadClock(c, s))
  {
    match s.pc
    case Deciding => DecideCommutes(c, s);
    case Waiting(_) => WaitCommutes(c, s);
    case Stamping => StampCommutes(c, s);
    case Finishing => FinishCommutes(c, s);
    case _ =>
  }

  lemma CreateRecordCommutes(c: Config, s: State, reply: Reply, created: Instant)
    requires s.pc.CreatingRecord?
    ensures StepCreateRecord(c, DefaultState(s), reply, created) == DefaultState(StepCreateRecord(c, s, reply, created))
  {
  }

  lemma PutRecordCommutes(s: State, reply: Reply)
    ensures StepPutRecord(DefaultState(s), reply) == DefaultState(StepPutRecord(s, reply))
  {
    Webhook.DefaultKeeps(s.mem.obj.spec);
  }

  lemma ProviderCommutes(c: Config, s: State, output: Result<Secret, ProviderError>)
    requires s.pc.CallingProvider?
    ensures StepCallProvider(c, DefaultState(s), output) == DefaultState(StepCallProvider(c, s, output))
  {
    Webhook.DefaultKeeps(s.mem.obj.spec);
  }

  lemma SecretCommutes(c: Config, s: State, seen: nat, reply: Reply)
    requires s.pc.WritingSecret?
    ensures StepPutSecret(c, DefaultState(s), seen, reply) == DefaultState(StepPutSecret(c, s, seen, reply))
  {
  }

  lemma RestartCommutes(s: State, updated: seq<bool>)
    requires s.pc.Restarting?
    ensures StepRestart(DefaultState(s), updated) == DefaultState(StepRestart(s, updated))
  {
    Webhook.DefaultKeeps(s.mem.obj.spec);
  }

  /** The limit an absent one stands for is the limit defaulting fills in. */
  lemma SameLimit(spec: Spec)
    ensures Limit(Webhook.Default(spec)) == Limit(spec)
  {
  }

  lemma ListCommutes(c: Config, s: State, listing: Option<seq<RecordId>>)
    requires s.pc.ListingHistory?
    ensures StepList(c, DefaultState(s), listing) == DefaultState(StepList(c, s, listing))
  {
    SameLimit(s.mem.obj.spec);
  }

  lemma DeleteCommutes(s: State, reply: Reply)
    requires s.pc.Pruning? && s.pc.todo != []
    ensures StepDelete(DefaultState(s), reply) == DefaultState(StepDelete(s, reply))
  {
  }

  lemma EditCommutes(api: Server, spec: Spec, rotate: Option<string>, finalizer: bool)
    ensures EditApi(DefaultServer(api), Webhook.Default(spec), rotate, finalizer) ==
      DefaultServer(EditApi(api, spec, rotate, finalizer))
  {
    var p := Last(api.hist);
    DefaultAppend(api, p.(spec := spec, rotate := rotate, finalizer := finalizer, edits := p.edits + 1));
  }

  lemma DeletionCommutes(api: Server)
    ensures DeleteApi(DefaultServer(api)) == DefaultServer(DeleteApi(api))
  {
    var p := Last(api.hist);
    DefaultAppend(api, p.(deleting := true, edits := p.edits + 1));
  }

  lemma EnvironmentCommutes(c: Config, s: State, i: Input)
    requires FromEnvironment(i)
    ensures EnvironmentStep(c, DefaultState(s), DefaultInput(i)) == DefaultState(EnvironmentStep(c, s, i))
  {
    if i.Edit? {
      EditCommutes(s.api, i.spec, i.rotate, i.finalizer);
    } else if i.Delete? {
      DeletionCommutes(s.api);
    }
  }

  // ---------- all steps ----------

  lemma WorkerCommutes(c: Config, s: State, i: Input)
    requires Expected(s.pc, i)
    ensures WorkerStep(c, DefaultState(s), i) == DefaultState(WorkerStep(c, s, i))
  {
    match i
    case Fetch(got) => FetchCommutes(c, s, got);
    case ReadClock => ReadClockCommutes(c, s);
    case PutPolicy(w) => PutPolicyCommutes(s, w);
    case CreateRecord(reply, created) => CreateRecordCommutes(c, s, reply, created);
    case CallProvider(output) => ProviderCommutes(c, s, output);
    case PutSecret(seen, reply) => SecretCommutes(c, s, seen, reply);
    case PutRecord(reply) => PutRecordCommutes(s, reply);
    case RestartWorkloads(updated) => RestartCommutes(s, updated);
    case List(listing) => ListCommutes(c, s, listing);
    case DeleteRecord(reply) => DeleteCommutes(s, reply);
  }

  lemma StepCommutes(c: Config, s: State, i: Input)
    ensures Step(c, DefaultState(s), DefaultInput(i)) == DefaultState(Step(c, s, i))
  {
    if FromEnvironment(i) {
      EnvironmentCommutes(c, s, i);
    } else if Expected(s.pc, i) {
      WorkerCommutes(c, s, i);
    }
  }

  lemma {:induction false} RunCommutes(c: Config, s: State, inputs: seq<Input>)
    ensures Run(c, DefaultState(s), DefaultInputs(inputs)) == DefaultState(Run(c, s, inputs))
  {
    if inputs != [] {
      var n := |inputs| - 1;
      RunCommutes(c, s, inputs[..n]);
      assert DefaultInputs(inputs)[..n] == DefaultInputs(inputs[..n]);
      StepCommutes(c, Run(c, s, inputs[..n]), inputs[n]);
    }
  }

  /**
   Whatever happens, the run on defaulted specifications makes the same calls with the
   same results: the same outcomes and delays, Secrets, records, prunes, statuses and
   annotations in every revision. Only the two defaulted fields can differ.
   */
  lemma DefaultingChangesNothingElse(c: Config, spec: Spec, rotate: Option<string>, clock: Instant, inputs: seq<Input>)
    ensures var s := Run(c, Init(spec, rotate, clock), inputs);
            var d := Run(c, Init(Webhook.Default(spec), rotate, clock), DefaultInputs(inputs));
            && d.pc == s.pc && d.clock == s.clock && d.log == s.log
            && d.api.secrets == s.api.secrets && d.api.records == s.api.records && d.api.live == s.api.live
            && d.api.present == s.api.present && |d.api.hist| == |s.api.hist|
            && forall k :: 0 <= k < |s.api.hist| ==>
                 d.api.hist[k] == s.api.hist[k].(spec := Webhook.Default(s.api.hist[k].spec))
  {
    assert DefaultHistory(Init(spec, rotate, clock).api.hist) == Init(Webhook.Default(spec), rotate, clock).api.hist;
    RunCommutes(c, Init(spec, rotate, clock), inputs);
  }
}
