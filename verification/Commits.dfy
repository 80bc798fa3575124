/**
 The stored rotation times over whole runs: at most one per slot of the schedule,
 never lost, never moving back, whatever is edited, refused, lost or read stale.
 */
module Commits {
  import opened Prelude
  import opened Clock
  import opened Scheduler
  import opened Api
  import opened Machine
  import opened Frames
  import opened Coherence
  import Secrets
  import Webhook

  // ---------- the invariant ----------

  function LastAt(commits: seq<Commit>): Option<Instant> {
    if commits == [] then None else Last(commits).at
  }

  /** A commit was stored by an attempt that had written the Secret, on top of the time that attempt had seen. */
  ghost predicate Earned(s: State, e: Commit) {
    && e.attempt < |s.log.ledger| && e.base < |s.api.hist|
    && var a := s.log.ledger[e.attempt];
    && a.decision.read <= e.base && SameIntent(s.api.hist[a.decision.read], s.api.hist[e.base])
    && a.decision.seen == e.prev && e.at == StoredTime(a.stamp)
    && a.decision.at <= a.stamp <= s.clock
    && a.write.Succeeded()
  }

  /** Each commit starts from the previous one, and came before anything the next attempt did. */
  ghost predicate Linked(s: State, k: nat)
    requires k < |s.log.commits|
  {
    var e := s.log.commits[k];
    && Earned(s, e)
    && e.prev == LastAt(s.log.commits[..k])
    && (k > 0 ==> s.log.commits[k - 1].attempt < |s.log.ledger|)
    && (k > 0 ==> s.log.ledger[s.log.commits[k - 1].attempt].stamp <= s.log.ledger[e.attempt].decision.at)
  }

  /** The current attempt is later than every commit. */
  ghost predicate Ahead(s: State) {
    && (forall k :: 0 <= k < |s.log.commits| ==> s.log.commits[k].attempt < |s.log.ledger| - 1)
    && (s.log.commits != [] && s.log.ledger != [] ==>
          var e := Last(s.log.commits);
          e.attempt < |s.log.ledger| && s.log.ledger[e.attempt].stamp <= Last(s.log.ledger).decision.at)
  }

  ghost predicate AllLinked(s: State) {
    forall k :: 0 <= k < |s.log.commits| ==> Linked(s, k)
  }

  ghost predicate Chained(s: State) {
    && Current(s).status.lastRotationTime == LastAt(s.log.commits)
    && AllLinked(s)
    && (BeforeCommit(s.pc) ==> Ahead(s))
  }

  // ---------- one step ----------

  /** Attempts that have committed are not filled in any more. */
  ghost predicate CommittedKept(s: State, t: State) {
    forall k :: 0 <= k < |s.log.commits| && s.log.commits[k].attempt < |s.log.ledger| ==>
      && s.log.commits[k].attempt < |t.log.ledger|
      && t.log.ledger[s.log.commits[k].attempt] == s.log.ledger[s.log.commits[k].attempt]
  }

  lemma LinkedStays(s: State, t: State)
    requires AllLinked(s) && CommittedKept(s, t)
    requires s.log.commits <= t.log.commits && s.api.hist <= t.api.hist && s.clock <= t.clock
    ensures forall k :: 0 <= k < |s.log.commits| ==> k < |t.log.commits| && Linked(t, k)
  {
    forall k | 0 <= k < |s.log.commits| ensures k < |t.log.commits| && Linked(t, k) {
      assert Linked(s, k);
      assert t.log.commits[k] == s.log.commits[k];
      assert t.log.commits[..k] == s.log.commits[..k];
      if k > 0 {
        assert t.log.commits[k - 1] == s.log.commits[k - 1];
      }
    }
  }

  lemma LastTimeStays(c: Config, s: State, i: Input, t: State)
    requires Coherent(c, s) && Effects(s, i, t)
    requires !(i.PutPolicy? && s.pc.Committing?)
    ensures Current(t).status.lastRotationTime == Current(s).status.lastRotationTime
  {
  }

  lemma CommittedStays(s: State, i: Input, t: State)
    requires Chained(s) && Effects(s, i, t)
    ensures CommittedKept(s, t)
  {
  }

  lemma AheadStays(s: State, i: Input, t: State)
    requires Chained(s) && Effects(s, i, t) && !(i.PutPolicy? && s.pc.Committing?)
    requires BeforeCommit(t.pc)
    ensures Ahead(t)
  {
    forall k | 0 <= k < |s.log.commits| ensures t.log.commits[k].attempt < |t.log.ledger| - 1 {
      assert Linked(s, k);
    }
    if s.log.commits != [] {
      assert Linked(s, |s.log.commits| - 1);
    }
  }

  /** Every step but the commit itself. */
  lemma QuietStepKeeps(c: Config, s: State, i: Input, t: State)
    requires Coherent(c, s) && Chained(s) && Effects(s, i, t) && !(i.PutPolicy? && s.pc.Committing?)
    ensures Chained(t)
  {
    LastTimeStays(c, s, i, t);
    CommittedStays(s, i, t);
    LinkedStays(s, t);
    if BeforeCommit(t.pc) {
      AheadStays(s, i, t);
    }
  }

  lemma CommitStepKeeps(c: Config, s: State, i: Input)
    requires Coherent(c, s) && Chained(s) && i.PutPolicy? && s.pc.Committing?
    ensures Chained(StepCommit(s, i.write))
  {
    var t := StepCommit(s, i.write);
    CommitEffects(s, i);
    CommittedStays(s, i, t);
    StatusStoredOnTop(c, s, i.write);
    LinkedStays(s, t);
    if Applies(s, i.write) {
      NewCommitIsLinked(c, s, i.write);
    }
  }

  lemma NewCommitIsLinked(c: Config, s: State, w: Write)
    requires Coherent(c, s) && Chained(s) && s.pc.Committing? && Applies(s, w)
    ensures var t := StepCommit(s, w); t.log.commits != [] && Linked(t, |t.log.commits| - 1)
  {
    var t := StepCommit(s, w);
    var n := |s.log.commits|;
    StatusStoredOnTop(c, s, w);
    assert t.log.commits[..n] == s.log.commits;
    assert t.log.ledger == s.log.ledger;
  }

  lemma StepKeepsChain(c: Config, s: State, i: Input)
    requires Coherent(c, s) && Chained(s)
    ensures Chained(Step(c, s, i))
  {
    StepEffects(c, s, i);
    if i.PutPolicy? && s.pc.Committing? {
      CommitStepKeeps(c, s, i);
      CommitIsTheStep(c, s, i.write);
    } else {
      QuietStepKeeps(c, s, i, Step(c, s, i));
    }
  }

  lemma {:induction false} RunIsChained(c: Config, start: State, inputs: seq<Input>)
    requires Coherent(c, start) && Chained(start)
    ensures Chained(Run(c, start, inputs))
  {
    if inputs != [] {
      var before := Run(c, start, inputs[..|inputs| - 1]);
      RunIsCoherent(c, start, inputs[..|inputs| - 1]);
      RunIsChained(c, start, inputs[..|inputs| - 1]);
      StepKeepsChain(c, before, Last(inputs));
    }
  }

  lemma ReachableIsChained(c: Config, s: State)
    requires Reachable(c, s)
    ensures Coherent(c, s) && Chained(s)
  {
    var spec, rotate, clock, inputs :| UNIX_EPOCH <= clock && s == Run(c, Init(spec, rotate, clock), inputs);
    InitIsCoherent(c, spec, rotate, clock);
    RunIsCoherent(c, Init(spec, rotate, clock), inputs);
    RunIsChained(c, Init(spec, rotate, clock), inputs);
  }

  // ---------- what a commit means ----------

  /** The revision a commit was stored on, and so the schedule and window it obeyed. */
  ghost function BaseSpec(s: State, k: nat): Spec
    requires k < |s.log.commits| && s.log.commits[k].base < |s.api.hist|
  {
    s.api.hist[s.log.commits[k].base].spec
  }

  ghost function AttemptOf(s: State, k: nat): Attempt
    requires k < |s.log.commits| && s.log.commits[k].attempt < |s.log.ledger|
  {
    s.log.ledger[s.log.commits[k].attempt]
  }

  lemma SameIntentSameSchedule(p: Policy, q: Policy)
    requires SameIntent(p, q)
    ensures p.spec.schedule == q.spec.schedule && p.spec.rotationWindow == q.spec.rotationWindow
  {
    Webhook.DefaultKeeps(p.spec);
    Webhook.DefaultKeeps(q.spec);
  }

  /**
   The schedule calls for a rotation, by the fields: there was none before, or the time
   has come at which the schedule fires next after the last one, less the window.
   */
  ghost predicate FallsDue(c: Config, spec: Spec, last: Option<Instant>, now: Instant) {
    var next := c.parse(spec.schedule);
    last.None? || (next.Some? && now >= next.value(last.value) - Lead(spec.rotationWindow))
  }

  /** What the scheduler finds, and when it fails. */
  lemma DueIffFallsDue(c: Config, p: Policy, now: Instant)
    ensures Due(c, p, now) == Ok(true) <==> FallsDue(c, p.spec, p.status.lastRotationTime, now)
    ensures Due(c, p, now).Err? <==> p.status.lastRotationTime.Some? && c.parse(p.spec.schedule).None?
  {
  }

  lemma CommitIsEarned(c: Config, s: State, k: nat)
    requires Reachable(c, s) && k < |s.log.commits|
    ensures s.log.commits[k].base < |s.api.hist| && s.log.commits[k].attempt < |s.log.ledger|
    ensures var e, a, spec := s.log.commits[k], AttemptOf(s, k), BaseSpec(s, k);
            && a.write.Succeeded()
            && a.decision.at <= a.stamp <= s.clock && e.at == StoredTime(a.stamp)
            && e.prev == LastAt(s.log.commits[..k])
            && (e.prev.Some? ==> c.parse(spec.schedule).Some?)
            && (FallsDue(c, spec, e.prev, a.decision.at) || a.decision.manual)
            && a.decision.read < |s.api.hist| && a.decision.manual == IsManual(s.api.hist[a.decision.read])
            && !spec.suspend && !s.api.hist[e.base].deleting
  {
    ReachableIsChained(c, s);
    assert Linked(s, k);
    var e := s.log.commits[k];
    var d := s.log.ledger[e.attempt].decision;
    assert Justified(c, s.api.hist, d);
    SameIntentSameSchedule(s.api.hist[d.read], s.api.hist[e.base]);
    DueIffFallsDue(c, s.api.hist[d.read], d.at);
    Webhook.DefaultKeeps(s.api.hist[d.read].spec);
    Webhook.DefaultKeeps(s.api.hist[e.base].spec);
  }

  /**
   At least once: in every reachable state each stored rotation time was stored by an
   attempt that had written the Secret, or found the wanted Secret in its cached copy;
   that had found the rotation due by the schedule and window of the revision it was
   stored on, or read a manual request; and that saw the time stored just before. A
   schedule that does not parse allows no commit but the first.
   */
  lemma EveryCommitIsJustified(c: Config, s: State, k: nat)
    requires Reachable(c, s) && k < |s.log.commits|
    ensures s.log.commits[k].base < |s.api.hist| && s.log.commits[k].attempt < |s.log.ledger|
    ensures var e, a, spec := s.log.commits[k], AttemptOf(s, k), BaseSpec(s, k);
            && Secrets.WrittenOrKept(c, s, e.attempt)
            && a.decision.at <= a.stamp <= s.clock && e.at == StoredTime(a.stamp)
            && e.prev == LastAt(s.log.commits[..k])
            && (e.prev.Some? ==> c.parse(spec.schedule).Some?)
            && (FallsDue(c, spec, e.prev, a.decision.at) || a.decision.manual)
            && a.decision.read < |s.api.hist|
            && (a.decision.manual <==> s.api.hist[a.decision.read].rotate == Some("now"))
            && !spec.suspend && !s.api.hist[e.base].deleting
  {
    CommitIsEarned(c, s, k);
    Secrets.SuccessIsWrittenOrKept(c, s, s.log.commits[k].attempt);
  }

  /** With fresh data every stored rotation time means a revision of the Secret with that attempt's data. */
  lemma FreshCommitWroteTheSecret(c: Config, s: State, k: nat, b: nat)
    requires Reachable(c, s) && k < |s.log.commits| && s.log.commits[k].attempt < |s.log.ledger|
    requires Secrets.FreshData(s.log.ledger)
    requires var h := SecretsAt(s.api, AttemptOf(s, k).target);
             Secrets.OnlyAttemptsSince(h, b) && Secrets.NewSince(h, b, AttemptOf(s, k).data)
    ensures var a, h := AttemptOf(s, k), SecretsAt(s.api, AttemptOf(s, k).target);
            && b < a.revision < |h| && Secrets.WrittenBy(h[a.revision], s.log.commits[k].attempt)
            && h[a.revision].data == a.data && Secrets.HasData(a)
  {
    EveryCommitIsJustified(c, s, k);
    Secrets.FreshDataIsAlwaysWritten(c, s, s.log.commits[k].attempt, b);
  }

  lemma StampIsModern(c: Config, s: State, k: nat)
    requires Reachable(c, s) && k < |s.log.commits|
    ensures s.log.commits[k].attempt < |s.log.ledger| && UNIX_EPOCH <= AttemptOf(s, k).stamp
  {
    ReachableIsChained(c, s);
    assert Linked(s, k);
  }

  lemma CommitTimesAreSome(c: Config, s: State, k: nat)
    requires Reachable(c, s) && k < |s.log.commits|
    ensures s.log.commits[k].at.Some?
    ensures s.log.commits[k].attempt < |s.log.ledger|
    ensures s.log.commits[k].at.value == Truncate(AttemptOf(s, k).stamp) >= UNIX_EPOCH
    ensures k > 0 ==> s.log.commits[k].prev == s.log.commits[k - 1].at
  {
    CommitIsEarned(c, s, k);
    StampIsModern(c, s, k);
    TruncateWhole(AttemptOf(s, k).stamp, UNIX_EPOCH);
    if k > 0 {
      assert Last(s.log.commits[..k]) == s.log.commits[k - 1];
    }
  }

  // ---------- at most one commit per slot ----------

  function CommitTime(s: State, k: nat): Instant
    requires k < |s.log.commits| && s.log.commits[k].at.Some?
  {
    s.log.commits[k].at.value
  }

  /** The attempt behind a commit acted on the schedule, whether or not it read a manual request as well. */
  ghost predicate FoundDue(c: Config, s: State, k: nat)
    requires k < |s.log.commits| && s.log.commits[k].base < |s.api.hist| && s.log.commits[k].attempt < |s.log.ledger|
  {
    FallsDue(c, BaseSpec(s, k), s.log.commits[k].prev, AttemptOf(s, k).decision.at)
  }

  /** No window, or one that does not open before the fire time. */
  ghost predicate NeverEarly(spec: Spec) {
    spec.rotationWindow.None? || MIN_DURATION < spec.rotationWindow.value <= 0
  }

  /** With no early window, a scheduled commit is at or after the end of the slot of the commit before it. */
  lemma ScheduledCommitIsLater(c: Config, s: State, k: nat)
    requires Reachable(c, s) && LawfulParser(c.parse) && 0 < k < |s.log.commits|
    requires s.log.commits[k].base < |s.api.hist| && s.log.commits[k].attempt < |s.log.ledger|
    requires FoundDue(c, s, k) && NeverEarly(BaseSpec(s, k))
    ensures s.log.commits[k - 1].at.Some? && s.log.commits[k].at.Some? && c.parse(BaseSpec(s, k).schedule).Some?
    ensures c.parse(BaseSpec(s, k).schedule).value(CommitTime(s, k - 1)) <= CommitTime(s, k)
  {
    CommitTimesAreSome(c, s, k - 1);
    CommitTimesAreSome(c, s, k);
    CommitIsEarned(c, s, k);
    var a, spec := AttemptOf(s, k), BaseSpec(s, k);
    DueEntersLaterSlot(c.parse, spec.schedule, CommitTime(s, k - 1), spec.Window(), a.decision.at, a.stamp);
  }

  /**
   One rotation per slot: a scheduled commit never falls into the slot of any earlier
   commit, by the schedule in force at the later one. Slots missed in between, by
   suspension or failures, are made up for by that one commit.
   */
  lemma OneCommitPerSlot(c: Config, s: State, j: nat, k: nat)
    requires Reachable(c, s) && LawfulParser(c.parse) && j < k < |s.log.commits|
    requires s.log.commits[k].base < |s.api.hist| && s.log.commits[k].attempt < |s.log.ledger|
    requires FoundDue(c, s, k) && NeverEarly(BaseSpec(s, k))
    ensures s.log.commits[j].at.Some? && s.log.commits[k].at.Some? && c.parse(BaseSpec(s, k).schedule).Some?
    ensures var next := c.parse(BaseSpec(s, k).schedule).value;
            && next(CommitTime(s, j)) <= CommitTime(s, k)
            && forall from: Instant :: !(from <= CommitTime(s, j) < next(from) && from <= CommitTime(s, k) < next(from))
  {
    ScheduledCommitIsLater(c, s, k);
    CommitTimesAreSome(c, s, j);
    CommitTimesAscend(c, s, j, k - 1);
    CommitTimesAscend(c, s, k - 1, k);
    LaterSlot(c.parse(BaseSpec(s, k).schedule).value, CommitTime(s, j), CommitTime(s, k - 1), CommitTime(s, k));
  }

  lemma LaterSlot(next: Cron, t: Instant, u: Instant, v: Instant)
    requires Lawful(next) && t <= u <= v && next(u) <= v && t > ZERO_TIME
    ensures next(t) <= v
    ensures forall from: Instant :: !(from <= t < next(from) && from <= v < next(from))
  {
    if next(t) != ZERO_TIME && u < next(t) {
      SlotHasOneEnd(next, t, u);
    }
    forall from: Instant | from <= t < next(from) && from <= v < next(from) ensures false {
      SlotHasOneEnd(next, from, t);
    }
  }

  ghost predicate NeverManual(h: History) {
    forall k :: 0 <= k < |h| ==> !IsManual(h[k])
  }

  /** Without manual requests every commit is a scheduled one. */
  lemma WithoutRequestsEveryCommitIsDue(c: Config, s: State, k: nat)
    requires Reachable(c, s) && NeverManual(s.api.hist) && k < |s.log.commits|
    ensures s.log.commits[k].base < |s.api.hist| && s.log.commits[k].attempt < |s.log.ledger|
    ensures FoundDue(c, s, k)
  {
    CommitIsEarned(c, s, k);
    ReachableIsChained(c, s);
    assert Linked(s, k);
    assert Justified(c, s.api.hist, AttemptOf(s, k).decision);
  }

  ghost predicate FixedSchedule(h: History, schedule: string) {
    forall k :: 0 <= k < |h| ==> h[k].spec.schedule == schedule
  }

  /**
   Under one schedule, with no early window and no manual requests, no two stored
   rotation times ever share a slot, whatever is edited, fails or is read stale.
   */
  lemma FixedScheduleCommitsOncePerSlot(c: Config, s: State, schedule: string, from: Instant, j: nat, k: nat)
    requires Reachable(c, s) && LawfulParser(c.parse) && NeverManual(s.api.hist) && FixedSchedule(s.api.hist, schedule)
    requires forall r :: 0 <= r < |s.api.hist| ==> NeverEarly(s.api.hist[r].spec)
    requires c.parse(schedule).Some? && j < k < |s.log.commits|
    ensures s.log.commits[j].at.Some? && s.log.commits[k].at.Some?
    ensures var next := c.parse(schedule).value;
            !(from <= CommitTime(s, j) < next(from) && from <= CommitTime(s, k) < next(from))
  {
    WithoutRequestsEveryCommitIsDue(c, s, k);
    OneCommitPerSlot(c, s, j, k);
  }

  /** Stored rotation times never go back. */
  lemma {:induction false} CommitTimesAscend(c: Config, s: State, j: nat, k: nat)
    requires Reachable(c, s) && j <= k < |s.log.commits|
    ensures s.log.commits[j].at.Some? && s.log.commits[k].at.Some?
    ensures CommitTime(s, j) <= CommitTime(s, k) <= s.clock
    decreases k
  {
    CommitTimesAreSome(c, s, k);
    CommitIsEarned(c, s, k);
    if j < k {
      CommitTimesAscend(c, s, j, k - 1);
      CommitTimesAreSome(c, s, k - 1);
      ReachableIsChained(c, s);
      assert Linked(s, k);
      TruncateMonotone(AttemptOf(s, k - 1).stamp, AttemptOf(s, k).stamp);
    }
  }

  lemma TruncateMonotone(t: Instant, u: Instant)
    requires t <= u
    ensures Truncate(t) <= Truncate(u)
  {
    TruncateWhole(u, Truncate(t));
  }

  lemma CommitsAreKept(c: Config, s: State, i: Input)
    ensures s.log.commits <= Step(c, s, i).log.commits
  {
    StepEffects(c, s, i);
    if i.PutPolicy? && s.pc.Committing? {
      CommitIsTheStep(c, s, i.write);
    }
  }

  lemma {:induction false} RunKeepsCommits(c: Config, s: State, inputs: seq<Input>)
    ensures s.log.commits <= Run(c, s, inputs).log.commits
  {
    if inputs != [] {
      RunKeepsCommits(c, s, inputs[..|inputs| - 1]);
      CommitsAreKept(c, Run(c, s, inputs[..|inputs| - 1]), Last(inputs));
    }
  }

  lemma LaterCommitIsLater(c: Config, t: State, earlier: seq<Commit>)
    requires Reachable(c, t) && earlier != [] && earlier <= t.log.commits
    ensures LastAt(earlier).Some? && LastAt(t.log.commits).Some? && LastAt(earlier).value <= LastAt(t.log.commits).value
  {
    CommitTimesAscend(c, t, |earlier| - 1, |t.log.commits| - 1);
    assert Last(earlier) == t.log.commits[|earlier| - 1];
  }

  lemma StoredTimeIsTheLastCommit(c: Config, s: State)
    requires Reachable(c, s)
    ensures Current(s).status.lastRotationTime == LastAt(s.log.commits)
  {
    ReachableIsChained(c, s);
  }

  /** The stored LastRotationTime is never cleared and never moves back, in any run. */
  lemma LastRotationTimeNeverGoesBack(c: Config, s: State, inputs: seq<Input>, t: State)
    requires Reachable(c, s) && t == Run(c, s, inputs)
    ensures var before, after := Current(s).status.lastRotationTime, Current(t).status.lastRotationTime;
            before.Some? ==> after.Some? && before.value <= after.value
  {
    ReachableRun(c, s, inputs);
    StoredTimeIsTheLastCommit(c, s);
    StoredTimeIsTheLastCommit(c, t);
    RunKeepsCommits(c, s, inputs);
    if s.log.commits != [] {
      LaterCommitIsLater(c, t, s.log.commits);
    }
  }

  // ---------- unparseable schedules ----------

  /** A schedule that does not parse allows a single commit, the first one, manual requests included. */
  lemma UnparseableCommitsOnce(c: Config, s: State, k: nat)
    requires Reachable(c, s) && k < |s.log.commits|
    ensures s.log.commits[k].base < |s.api.hist|
    ensures c.parse(BaseSpec(s, k).schedule).None? ==> k == 0
  {
    CommitIsEarned(c, s, k);
    CommitTimesAreSome(c, s, k);
    if k > 0 {
      CommitTimesAreSome(c, s, k - 1);
    }
  }

  lemma FixedUnparseableScheduleCommitsOnce(c: Config, s: State, schedule: string)
    requires Reachable(c, s) && FixedSchedule(s.api.hist, schedule) && c.parse(schedule).None?
    ensures |s.log.commits| <= 1
  {
    if |s.log.commits| > 1 {
      UnparseableCommitsOnce(c, s, 1);
    }
  }

  // ---------- nothing due is skipped ----------

  /**
   A stored rotation time covers the rest of its slot: the policy is due again exactly from its
   end, less the window.
   */
  lemma CommitCoversItsSlot(c: Config, s: State, w: Write, u: Instant)
    requires Reachable(c, s) && LawfulParser(c.parse) && s.pc.Committing? && Applies(s, w)
    ensures s.log.ledger != []
    ensures c.parse(s.mem.obj.spec.schedule).Some? ==>
            var t, spec, stamp := StepCommit(s, w), s.mem.obj.spec, Last(s.log.ledger).stamp;
            var next := c.parse(spec.schedule).value(stamp);
            && (Due(c, Current(t), u) == Ok(true) <==> u >= next - Lead(spec.rotationWindow))
            && (Due(c, Current(t), stamp) == Ok(true) <==> next - stamp <= Lead(spec.rotationWindow))
  {
    CommitStores(c, s, w);
    var p, stamp := Current(StepCommit(s, w)), Last(s.log.ledger).stamp;
    if c.parse(p.spec.schedule).Some? {
      TruncationKeepsNext(c.parse(p.spec.schedule).value, stamp);
      DueIffFallsDue(c, p, u);
      DueIffFallsDue(c, p, stamp);
    }
  }

  lemma CommitStores(c: Config, s: State, w: Write)
    requires Reachable(c, s) && s.pc.Committing? && Applies(s, w)
    ensures s.log.ledger != []
    ensures var p, stamp := Current(StepCommit(s, w)), Last(s.log.ledger).stamp;
            p.spec == s.mem.obj.spec && p.status.lastRotationTime == Some(Truncate(stamp))
  {
    ReachableIsCoherent(c, s);
    StatusStoredOnTop(c, s, w);
    assert UNIX_EPOCH <= Last(s.log.ledger).stamp by {
      assert Last(s.log.ledger) == s.log.ledger[|s.log.ledger| - 1];
    }
  }

  lemma {:induction false} RunKeepsTime(c: Config, s: State, inputs: seq<Input>)
    ensures s.clock <= Run(c, s, inputs).clock
    ensures s.api.hist <= Run(c, s, inputs).api.hist
  {
    if inputs != [] {
      RunKeepsTime(c, s, inputs[..|inputs| - 1]);
      StepEffects(c, Run(c, s, inputs[..|inputs| - 1]), Last(inputs));
    }
  }

  /**
   Once a rotation is due it stays due until one is committed: in any run without a
   commit that leaves the schedule and window as they were, failures included.
   */
  lemma DueUntilCommitted(c: Config, s: State, inputs: seq<Input>, t: State)
    requires Reachable(c, s) && t == Run(c, s, inputs)
    requires t.log.commits == s.log.commits
    requires Current(t).spec.schedule == Current(s).spec.schedule
    requires Lead(Current(t).spec.rotationWindow) == Lead(Current(s).spec.rotationWindow)
    requires FallsDue(c, Current(s).spec, Current(s).status.lastRotationTime, s.clock)
    ensures Due(c, Current(t), t.clock) == Ok(true)
    ensures FallsDue(c, Current(t).spec, Current(t).status.lastRotationTime, t.clock)
  {
    ReachableIsChained(c, s);
    RunIsChained(c, s, inputs);
    RunKeepsTime(c, s, inputs);
    DueIffFallsDue(c, Current(s), s.clock);
    DueIffFallsDue(c, Current(t), t.clock);
  }

  /** What an idle worker does next when its read is current: the two steps up to the decision. */
  ghost function FreshDecision(c: Config, s: State): State
    requires s.pc.Idle?
  {
    Step(c, Step(c, s, Fetch(Revision(|s.api.hist| - 1))), ReadClock)
  }

  predicate Workable(c: Config, p: Policy) {
    !p.deleting && p.finalizer && !p.spec.suspend && c.healthy(p.spec.provider, p.spec.params)
  }

  lemma FetchThenDecide(c: Config, s: State, f: State)
    requires s.pc.Idle? && f == StepFetch(c, s, Revision(|s.api.hist| - 1))
    ensures FreshDecision(c, s) == if f.pc.Deciding? then StepDecide(c, f) else f
    ensures f.pc.Deciding? <==> Workable(c, Current(s))
    ensures f.pc.Deciding? ==> f.mem.obj == Current(s) && f.log == s.log && f.clock == s.clock
    ensures !f.pc.MarkingRotating?
  {
    assert Step(c, s, Fetch(Revision(|s.api.hist| - 1))) == f;
  }

  /**
   A reconcile that reads the current revision starts an attempt exactly when the
   policy can be worked on and falls due or is manually requested; a schedule that cannot
   be evaluated stops even a manual request.
   */
  lemma FreshReconcileRotatesIff(c: Config, s: State)
    requires s.pc.Idle?
    ensures var p, t := Current(s), FreshDecision(c, s);
            var last, manual := p.status.lastRotationTime, p.rotate == Some("now");
            var fails := last.Some? && c.parse(p.spec.schedule).None?;
            && (t.pc.MarkingRotating? <==>
                  Workable(c, p) && !fails && (manual || FallsDue(c, p.spec, last, s.clock)))
            && (t.pc.MarkingRotating? ==>
                  |t.log.ledger| == |s.log.ledger| + 1 && Last(t.log.ledger).decision.manual == manual)
            && (Workable(c, p) && fails ==> t.pc == Reporting(Reason.BadSchedule))
  {
    FetchThenDecide(c, s, StepFetch(c, s, Revision(|s.api.hist| - 1)));
    DueIffFallsDue(c, Current(s), s.clock);
  }

  /**
   The window, by the field: without one a reconcile that reads the current revision
   begins an attempt exactly from the next fire time on, and with one exactly from that
   time less the window on; the least duration reaches back by 2^63 nanoseconds.
   */
  lemma WindowDecides(c: Config, s: State, next: Cron, last: Instant)
    requires s.pc.Idle? && Workable(c, Current(s)) && Current(s).rotate != Some("now")
    requires Current(s).status.lastRotationTime == Some(last) && c.parse(Current(s).spec.schedule) == Some(next)
    ensures var window, t := Current(s).spec.rotationWindow, FreshDecision(c, s);
            && (window == None ==> (t.pc.MarkingRotating? <==> s.clock >= next(last)))
            && (window.Some? && window.value != MIN_DURATION ==>
                  (t.pc.MarkingRotating? <==> s.clock >= next(last) - window.value))
            && (window == Some(MIN_DURATION) ==>
                  (t.pc.MarkingRotating? <==> s.clock >= next(last) - 0x8000_0000_0000_0000))
            && (t.pc.MarkingRotating? <==> |t.log.ledger| == |s.log.ledger| + 1)
            && (!t.pc.MarkingRotating? ==> t.pc == Waiting(s.clock) && t.log == s.log)
  {
    FetchThenDecide(c, s, StepFetch(c, s, Revision(|s.api.hist| - 1)));
  }
}
