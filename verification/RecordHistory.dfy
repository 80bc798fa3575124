/**
 The bounded history of records: pruning never deletes a record that is among the
 newest, however outdated its listing, and keeps the number of records in check.
 */
module RecordHistory {
  import opened Prelude
  import opened Clock
  import opened Api
  import opened Machine
  import opened Frames
  import opened Coherence
  import Audit
  import Secrets

  // ---------- records stay what they are ----------

  ghost predicate SameOrigin(r: Record, q: Record) {
    r.policy == q.policy && r.namespace == q.namespace && r.created == q.created
  }

  /** Records are only added; where one comes from and when never changes. */
  ghost predicate Grown(s: map<RecordId, Record>, t: map<RecordId, Record>) {
    forall id :: id in s ==> id in t && SameOrigin(s[id], t[id])
  }

  lemma CallGrows(c: Config, s: State, i: Input)
    requires Audit.Truthful(c, s) && Audit.Advances(s.pc, i) && (i.CreateRecord? || i.PutRecord?)
    ensures i.CreateRecord? ==> Grown(s.api.records, StepCreateRecord(c, s, i.reply, i.created).api.records)
    ensures i.PutRecord? && s.pc.FailingRecord? ==> Grown(s.api.records, StepFailRecord(s, i.reply).api.records)
    ensures i.PutRecord? && s.pc.FinishingRecord? ==> Grown(s.api.records, StepFinishRecord(s, i.reply).api.records)
  {
  }

  lemma StepGrows(c: Config, s: State, i: Input)
    requires Audit.Truthful(c, s)
    ensures Grown(s.api.records, Step(c, s, i).api.records)
  {
    if i.TouchRecord? || i.ForeignRecord? {
      Secrets.EnvironmentIsTheStep(c, s, i);
    } else if Audit.Advances(s.pc, i) && (i.CreateRecord? || i.PutRecord?) {
      CallGrows(c, s, i);
      Audit.AdvanceIsTheStep(c, s, i);
    } else {
      StepEffects(c, s, i);
    }
  }

  // ---------- pruning is safe ----------

  /** The policy's other records, ever created, that are not older than `id`. */
  ghost function NotOlder(c: Config, records: map<RecordId, Record>, id: RecordId): set<RecordId>
    requires id in records
  {
    set other | other in records && other != id && Matches(c, records[other])
             && records[other].created >= records[id].created
  }

  ghost predicate Expendable(c: Config, records: map<RecordId, Record>, id: RecordId, limit: nat) {
    id in records && Matches(c, records[id]) && |NotOlder(c, records, id)| >= limit
  }

  lemma ExpendableStays(c: Config, s: map<RecordId, Record>, t: map<RecordId, Record>, id: RecordId, limit: nat)
    requires Expendable(c, s, id, limit) && Grown(s, t)
    ensures Expendable(c, t, id, limit)
  {
    SubsetCardinality(NotOlder(c, s, id), NotOlder(c, t, id));
  }

  /** Whatever a listing omits, a record it puts before `limit` others has that many that are not older. */
  lemma EarlyInListingIsExpendable(c: Config, records: map<RecordId, Record>, order: seq<RecordId>, limit: nat, i: nat)
    requires SortedListing(c, records, order) && limit <= |order| && i < |order| - limit
    ensures Expendable(c, records, order[i], limit)
  {
    var kept := order[|order| - limit..];
    DistinctCardinality(kept);
    assert Elements(kept) <= NotOlder(c, records, order[i]);
    SubsetCardinality(Elements(kept), NotOlder(c, records, order[i]));
  }

  /** By the field: each revision allows at least so many records, and 10 if it says nothing. */
  ghost predicate LimitAtLeast(h: History, limit: nat) {
    forall k :: 0 <= k < |h| ==> match h[k].spec.historyLimit case Some(n) => n >= limit case None => 10 >= limit
  }

  ghost predicate PrunesSafely(c: Config, s: State, limit: nat) {
    && (forall id :: id in s.log.pruned ==> Expendable(c, s.api.records, id, limit))
    && (s.pc.Pruning? ==> forall id :: id in s.pc.todo ==> Expendable(c, s.api.records, id, limit))
  }

  lemma ListKeepsSafe(c: Config, s: State, listing: Option<seq<RecordId>>, limit: nat)
    requires Coherent(c, s) && PrunesSafely(c, s, limit) && LimitAtLeast(s.api.hist, limit) && s.pc.ListingHistory?
    ensures PrunesSafely(c, StepList(c, s, listing), limit)
  {
    var t := StepList(c, s, listing);
    if t.pc.Pruning? {
      var order := listing.value;
      var n := Limit(s.mem.obj.spec);
      assert s.api.hist[s.mem.version].spec == s.mem.obj.spec;
      forall id | id in t.pc.todo ensures Expendable(c, s.api.records, id, limit) {
        var i :| 0 <= i < |t.pc.todo| && t.pc.todo[i] == id;
        EarlyInListingIsExpendable(c, s.api.records, order, n, i);
      }
    }
  }

  lemma DeleteKeepsSafe(c: Config, s: State, reply: Reply, limit: nat)
    requires PrunesSafely(c, s, limit) && s.pc.Pruning? && s.pc.todo != []
    ensures PrunesSafely(c, StepDelete(s, reply), limit)
  {
  }

  lemma QuietStepKeepsSafe(c: Config, s: State, i: Input, t: State, limit: nat)
    requires PrunesSafely(c, s, limit) && Effects(s, i, t) && Grown(s.api.records, t.api.records)
    requires t.log.pruned == s.log.pruned && (t.pc.Pruning? ==> t.pc == s.pc)
    ensures PrunesSafely(c, t, limit)
  {
    forall id | id in t.log.pruned || (t.pc.Pruning? && id in t.pc.todo)
      ensures Expendable(c, t.api.records, id, limit)
    {
      ExpendableStays(c, s.api.records, t.api.records, id, limit);
    }
  }

  predicate Prunes(pc: Pc, i: Input) {
    (i.List? && pc.ListingHistory?) || (i.DeleteRecord? && pc.Pruning? && pc.todo != [])
  }

  lemma PruneIsTheStep(c: Config, s: State, i: Input)
    requires Prunes(s.pc, i)
    ensures i.List? ==> Step(c, s, i) == StepList(c, s, i.listing)
    ensures i.DeleteRecord? ==> Step(c, s, i) == StepDelete(s, i.reply)
  {
  }

  lemma OtherStepsDoNotPrune(c: Config, s: State, i: Input)
    requires !Prunes(s.pc, i)
    ensures var t := Step(c, s, i);
            t.log.pruned == s.log.pruned && t.log.pruneFaults == s.log.pruneFaults && (t.pc.Pruning? ==> t.pc == s.pc)
  {
    StepEffects(c, s, i);
  }

  lemma StepKeepsSafe(c: Config, s: State, i: Input, limit: nat)
    requires Coherent(c, s) && Audit.Truthful(c, s) && PrunesSafely(c, s, limit) && LimitAtLeast(s.api.hist, limit)
    ensures PrunesSafely(c, Step(c, s, i), limit)
  {
    if Prunes(s.pc, i) {
      PruneIsTheStep(c, s, i);
      if i.List? { ListKeepsSafe(c, s, i.listing, limit); } else { DeleteKeepsSafe(c, s, i.reply, limit); }
    } else {
      StepEffects(c, s, i);
      StepGrows(c, s, i);
      OtherStepsDoNotPrune(c, s, i);
      QuietStepKeepsSafe(c, s, i, Step(c, s, i), limit);
    }
  }

  lemma {:induction false} RunKeepsSafe(c: Config, start: State, inputs: seq<Input>, limit: nat)
    requires Coherent(c, start) && Secrets.SecretsTrue(c, start) && Audit.Truthful(c, start)
      && PrunesSafely(c, start, limit)
    requires LimitAtLeast(Run(c, start, inputs).api.hist, limit)
    ensures PrunesSafely(c, Run(c, start, inputs), limit)
  {
    if inputs != [] {
      var n := |inputs| - 1;
      var before := Run(c, start, inputs[..n]);
      HistoryIsPrefix(c, before, inputs[n]);
      RunIsCoherent(c, start, inputs[..n]);
      Audit.RunKeeps(c, start, inputs[..n]);
      RunKeepsSafe(c, start, inputs[..n], limit);
      StepKeepsSafe(c, before, inputs[n], limit);
    }
  }

  lemma HistoryIsPrefix(c: Config, s: State, i: Input)
    ensures var h := Step(c, s, i).api.hist;
            |s.api.hist| <= |h| && forall k :: 0 <= k < |s.api.hist| ==> h[k] == s.api.hist[k]
  {
    StepEffects(c, s, i);
  }

  /**
   Pruning is safe however outdated its listings: every record it ever deleted is the
   policy's, and at least `limit` other records ever created for the policy are not
   older, where no revision asked for a smaller limit.
   */
  lemma NewestAreNeverPruned(c: Config, s: State, limit: nat, id: RecordId)
    requires Reachable(c, s) && LimitAtLeast(s.api.hist, limit) && id in s.log.pruned
    ensures id in s.api.records
    ensures s.api.records[id].policy == c.name && s.api.records[id].namespace == c.namespace
    ensures |NotOlder(c, s.api.records, id)| >= limit
  {
    var spec, rotate, clock, inputs :| UNIX_EPOCH <= clock && s == Run(c, Init(spec, rotate, clock), inputs);
    InitIsCoherent(c, spec, rotate, clock);
    RunKeepsSafe(c, Init(spec, rotate, clock), inputs, limit);
  }

  /** The policy's records, ever created, that are newer than `id`. */
  ghost function Newer(c: Config, records: map<RecordId, Record>, id: RecordId): set<RecordId>
    requires id in records
  {
    set other | other in records && Matches(c, records[other]) && records[other].created > records[id].created
  }

  ghost predicate DistinctTimes(c: Config, records: map<RecordId, Record>) {
    forall a, b :: a in records && b in records && a != b && Matches(c, records[a]) && Matches(c, records[b]) ==>
      records[a].created != records[b].created
  }

  /**
   With distinct creation times the newest `limit` records ever created are never pruned,
   however outdated the listings.
   */
  lemma NewestSurvive(c: Config, s: State, limit: nat, id: RecordId)
    requires Reachable(c, s) && LimitAtLeast(s.api.hist, limit) && DistinctTimes(c, s.api.records)
    requires id in s.api.records && Matches(c, s.api.records[id]) && |Newer(c, s.api.records, id)| < limit
    ensures id !in s.log.pruned
  {
    assert NotOlder(c, s.api.records, id) == Newer(c, s.api.records, id);
    if id in s.log.pruned {
      NewestAreNeverPruned(c, s, limit, id);
    }
  }

  // ---------- the number of records is bounded ----------

  /** By the field: no revision allows more records, where one that says nothing allows 10. */
  ghost predicate LimitAtMost(h: History, limit: nat) {
    forall k :: 0 <= k < |h| ==> match h[k].spec.historyLimit case Some(n) => n <= limit case None => 10 <= limit
  }

  function Announced(pc: Pc): nat {
    if Audit.Uncreated(pc) then 1 else 0
  }

  ghost predicate Bounded(c: Config, s: State, limit: nat) {
    && s.api.live <= s.api.records.Keys
    && (s.log.pruneFaults == 0 ==>
          && |LiveMatching(c, s.api)| + Announced(s.pc) <= limit + s.log.arrivals
          && (s.pc.Pruning? ==> |LiveMatching(c, s.api) - Elements(s.pc.todo)| <= limit + s.log.lateArrivals))
  }

  /** A current listing counts the live records, and those it keeps are no more than the limit. */
  lemma CurrentListingCounts(live: set<RecordId>, order: seq<RecordId>, limit: nat)
    requires Elements(order) == live && Distinct(order)
    ensures |live| == |order|
    ensures |order| > limit ==> |live - Elements(order[..|order| - limit])| <= limit
  {
    DistinctCardinality(order);
    if |order| > limit {
      var kept := order[|order| - limit..];
      DistinctCardinality(kept);
      assert live - Elements(order[..|order| - limit]) <= Elements(kept);
      SubsetCardinality(live - Elements(order[..|order| - limit]), Elements(kept));
    }
  }

  /** A listing that is taken up decides what to prune. */
  ghost predicate TakenUp(c: Config, s: State, t: State, order: seq<RecordId>, limit: nat) {
    && Distinct(order) && t.api == s.api && t.log.lateArrivals == 0
    && (t.log.pruneFaults == 0 ==> s.log.pruneFaults == 0 && Elements(order) == LiveMatching(c, s.api))
    && t.log.arrivals == (if |order| <= limit then 0 else s.log.arrivals)
    && t.pc == if |order| <= limit then Finishing else Pruning(order[..|order| - limit])
  }

  lemma ListTakesUp(c: Config, s: State, order: seq<RecordId>)
    requires s.pc.ListingHistory?
    ensures var t := StepList(c, s, Some(order)); t == s || TakenUp(c, s, t, order, Limit(s.mem.obj.spec))
  {
  }

  lemma TakenUpKeepsBound(c: Config, s: State, t: State, order: seq<RecordId>, own: nat, limit: nat)
    requires Bounded(c, s, limit) && TakenUp(c, s, t, order, own) && own <= limit
    ensures Bounded(c, t, limit)
  {
    if t.log.pruneFaults == 0 {
      CurrentListingCounts(LiveMatching(c, s.api), order, own);
    }
  }

  lemma ListKeepsBound(c: Config, s: State, listing: Option<seq<RecordId>>, limit: nat)
    requires Coherent(c, s) && Bounded(c, s, limit) && LimitAtMost(s.api.hist, limit) && s.pc.ListingHistory?
    ensures Bounded(c, StepList(c, s, listing), limit)
  {
    assert s.api.hist[s.mem.version].spec == s.mem.obj.spec;
    if listing.Some? {
      ListTakesUp(c, s, listing.value);
      if StepList(c, s, listing) != s {
        TakenUpKeepsBound(c, s, StepList(c, s, listing), listing.value, Limit(s.mem.obj.spec), limit);
      }
    }
  }

  /** A deletion that is not refused takes its record away, and no other. */
  ghost predicate Deleted(s: State, t: State) {
    && s.pc.Pruning? && s.pc.todo != []
    && t.api == s.api.(live := t.api.live) && t.api.live <= s.api.live
    && t.pc == (if |s.pc.todo| == 1 then Finishing else Pruning(s.pc.todo[1..]))
    && t.log.arrivals == (if |s.pc.todo| == 1 then s.log.lateArrivals else s.log.arrivals)
    && t.log.lateArrivals == s.log.lateArrivals && s.log.pruneFaults <= t.log.pruneFaults
    && (t.log.pruneFaults == 0 ==> s.pc.todo[0] !in t.api.live)
  }

  lemma DeleteDeletes(s: State, reply: Reply)
    requires s.pc.Pruning? && s.pc.todo != []
    ensures Deleted(s, StepDelete(s, reply))
  {
  }

  /** What is left once the first of the records to delete is gone. */
  lemma LeftAfterFirst<T>(before: set<T>, after: set<T>, todo: seq<T>)
    requires todo != [] && after <= before && todo[0] !in after
    ensures |after| <= |before| && |after - Elements(todo[1..])| <= |before - Elements(todo)|
    ensures |todo| == 1 ==> after - Elements(todo[1..]) == after
  {
    assert todo == [todo[0]] + todo[1..];
    SubsetCardinality(after, before);
    SubsetCardinality(after - Elements(todo[1..]), before - Elements(todo));
  }

  lemma DeletedKeepsBound(c: Config, s: State, t: State, limit: nat)
    requires Bounded(c, s, limit) && Deleted(s, t)
    ensures Bounded(c, t, limit)
  {
    assert LiveMatching(c, t.api) <= LiveMatching(c, s.api);
    if t.log.pruneFaults == 0 {
      LeftAfterFirst(LiveMatching(c, s.api), LiveMatching(c, t.api), s.pc.todo);
    }
  }

  lemma DeleteKeepsBound(c: Config, s: State, reply: Reply, limit: nat)
    requires Bounded(c, s, limit) && s.pc.Pruning? && s.pc.todo != []
    ensures Bounded(c, StepDelete(s, reply), limit)
  {
    DeleteDeletes(s, reply);
    DeletedKeepsBound(c, s, StepDelete(s, reply), limit);
  }

  lemma OneMore<T>(a: set<T>, b: set<T>, x: T)
    requires a <= b + {x}
    ensures |a| <= |b| + 1
  {
    SubsetCardinality(a, b + {x});
  }

  lemma CreateKeepsBound(c: Config, s: State, reply: Reply, created: Instant, limit: nat)
    requires Bounded(c, s, limit) && Audit.Truthful(c, s) && s.pc.CreatingRecord?
    ensures Bounded(c, StepCreateRecord(c, s, reply, created), limit)
  {
    var t := StepCreateRecord(c, s, reply, created);
    OneMore(LiveMatching(c, t.api), LiveMatching(c, s.api), Own(AttemptId(s)));
  }

  lemma ForeignKeepsBound(c: Config, s: State, i: Input, limit: nat)
    requires Bounded(c, s, limit) && i.ForeignRecord?
    ensures Bounded(c, EnvironmentStep(c, s, i), limit)
  {
    var t := EnvironmentStep(c, s, i);
    var id := Other(i.n);
    if id !in s.api.records && Matches(c, i.record) {
      OneMore(LiveMatching(c, t.api), LiveMatching(c, s.api), id);
      if s.pc.Pruning? {
        var todo := Elements(s.pc.todo);
        OneMore(LiveMatching(c, t.api) - todo, LiveMatching(c, s.api) - todo, id);
      }
    } else {
      assert LiveMatching(c, t.api) == LiveMatching(c, s.api);
    }
  }

  /** Fewer records, and a worker that announces no more of them than have arrived. */
  lemma FewerKeepBound(c: Config, s: State, t: State, limit: nat)
    requires Bounded(c, s, limit) && Grown(s.api.records, t.api.records)
    requires t.api.records.Keys == s.api.records.Keys && t.api.live <= s.api.live
    requires t.log.pruneFaults == s.log.pruneFaults && (t.pc.Pruning? ==> t.pc == s.pc)
    requires t.log.arrivals - Announced(t.pc) >= s.log.arrivals - Announced(s.pc)
      && t.log.lateArrivals >= s.log.lateArrivals
    ensures Bounded(c, t, limit)
  {
    var live, live' := LiveMatching(c, s.api), LiveMatching(c, t.api);
    forall id | id in live' ensures id in live {
      assert SameOrigin(s.api.records[id], t.api.records[id]);
    }
    SubsetCardinality(live', live);
    if t.pc.Pruning? {
      var todo := Elements(t.pc.todo);
      SubsetCardinality(live' - todo, live - todo);
    }
  }

  /** Steps that create no record, list none and delete none. */
  predicate Quiet(pc: Pc, i: Input) {
    !Prunes(pc, i) && !i.ForeignRecord? && !(i.CreateRecord? && pc.CreatingRecord?)
  }

  lemma QuietStepBrings(c: Config, s: State, i: Input)
    requires Quiet(s.pc, i)
    ensures var t := Step(c, s, i);
            && t.log.arrivals - Announced(t.pc) >= s.log.arrivals - Announced(s.pc)
            && t.log.lateArrivals >= s.log.lateArrivals
  {
    StepEffects(c, s, i);
  }

  lemma QuietStepRecords(c: Config, s: State, i: Input)
    requires Quiet(s.pc, i)
    ensures var t := Step(c, s, i); t.api.records.Keys == s.api.records.Keys && t.api.live <= s.api.live
  {
    StepEffects(c, s, i);
    if i.RemoveRecord? || i.TouchRecord? {
      Secrets.EnvironmentIsTheStep(c, s, i);
    } else if i.PutRecord? && Expected(s.pc, i) {
      Audit.AdvanceIsTheStep(c, s, i);
    }
  }

  lemma StepKeepsBound(c: Config, s: State, i: Input, limit: nat)
    requires Coherent(c, s) && Audit.Truthful(c, s) && Bounded(c, s, limit) && LimitAtMost(s.api.hist, limit)
    ensures Bounded(c, Step(c, s, i), limit)
  {
    if Prunes(s.pc, i) {
      PruneIsTheStep(c, s, i);
      if i.List? { ListKeepsBound(c, s, i.listing, limit); } else { DeleteKeepsBound(c, s, i.reply, limit); }
    } else if i.ForeignRecord? {
      Secrets.EnvironmentIsTheStep(c, s, i);
      ForeignKeepsBound(c, s, i, limit);
    } else if i.CreateRecord? && s.pc.CreatingRecord? {
      Audit.AdvanceIsTheStep(c, s, i);
      CreateKeepsBound(c, s, i.reply, i.created, limit);
    } else {
      StepGrows(c, s, i);
      OtherStepsDoNotPrune(c, s, i);
      QuietStepRecords(c, s, i);
      QuietStepBrings(c, s, i);
      FewerKeepBound(c, s, Step(c, s, i), limit);
    }
  }

  lemma {:induction false} RunKeepsBound(c: Config, start: State, inputs: seq<Input>, limit: nat)
    requires Coherent(c, start) && Secrets.SecretsTrue(c, start) && Audit.Truthful(c, start) && Bounded(c, start, limit)
    requires LimitAtMost(Run(c, start, inputs).api.hist, limit)
    ensures Bounded(c, Run(c, start, inputs), limit)
  {
    if inputs != [] {
      var n := |inputs| - 1;
      var before := Run(c, start, inputs[..n]);
      HistoryIsPrefix(c, before, inputs[n]);
      RunIsCoherent(c, start, inputs[..n]);
      Audit.RunKeeps(c, start, inputs[..n]);
      RunKeepsBound(c, start, inputs[..n], limit);
      StepKeepsBound(c, before, inputs[n], limit);
    }
  }

  /**
   While every listing was current and every deletion took place, the policy's live
   records never outnumber the limit plus what has arrived since the listing of the
   last completed prune, though attempts that fail create records and prune nothing.
   */
  lemma HistoryIsBounded(c: Config, s: State, limit: nat)
    requires Reachable(c, s) && LimitAtMost(s.api.hist, limit) && s.log.pruneFaults == 0
    ensures var mine := set id | id in s.api.live && id in s.api.records
                               && s.api.records[id].policy == c.name && s.api.records[id].namespace == c.namespace;
            |mine| <= limit + s.log.arrivals
  {
    assert LiveMatching(c, s.api) == set id | id in s.api.live && id in s.api.records
      && s.api.records[id].policy == c.name && s.api.records[id].namespace == c.namespace;
    var spec, rotate, clock, inputs :| UNIX_EPOCH <= clock && s == Run(c, Init(spec, rotate, clock), inputs);
    InitIsCoherent(c, spec, rotate, clock);
    RunKeepsBound(c, Init(spec, rotate, clock), inputs, limit);
  }

  // ---------- one prune ----------

  function Deletions(replies: seq<Reply>): (inputs: seq<Input>)
    ensures |inputs| == |replies|
  {
    seq(|replies|, i requires 0 <= i < |replies| => DeleteRecord(replies[i]))
  }

  ghost predicate AllTakePlace(replies: seq<Reply>) {
    forall r :: r in replies ==> !r.Refused?
  }

  /** Deletions in a row take the records to delete away one by one, and nothing else. */
  lemma {:induction false} DeletionsInARow(c: Config, s: State, replies: seq<Reply>)
    requires s.pc.Pruning? && 0 < |replies| <= |s.pc.todo| && AllTakePlace(replies)
    ensures var t := Run(c, s, Deletions(replies));
            && t.api == s.api.(live := s.api.live - Elements(s.pc.todo[..|replies|]))
            && t.pc == (if |replies| < |s.pc.todo| then Pruning(s.pc.todo[|replies|..]) else Finishing)
            && t.mem == s.mem
  {
    var n, todo := |replies| - 1, s.pc.todo;
    var before := Run(c, s, Deletions(replies[..n]));
    assert Deletions(replies)[..n] == Deletions(replies[..n]);
    if n > 0 {
      DeletionsInARow(c, s, replies[..n]);
    } else {
      assert Elements(todo[..0]) == {} && todo[0..] == todo;
    }
    assert Last(Deletions(replies)) == DeleteRecord(replies[n]);
    PruneIsTheStep(c, before, DeleteRecord(replies[n]));
    assert Elements(todo[..n + 1]) == Elements(todo[..n]) + {todo[n]};
  }

  lemma {:induction false} FrontIsOldest(c: Config, records: map<RecordId, Record>, order: seq<RecordId>, k: nat)
    requires SortedListing(c, records, order) && k <= |order|
    ensures forall gone, kept :: gone in order[..k] && kept in order[k..] ==>
      gone in records && kept in records && records[gone].created <= records[kept].created
    ensures Elements(order) - Elements(order[..k]) == Elements(order[k..]) && |Elements(order[k..])| == |order| - k
  {
    DistinctCardinality(order[k..]);
    forall gone, kept | gone in order[..k] && kept in order[k..]
      ensures gone in records && kept in records && records[gone].created <= records[kept].created && gone != kept
    {
      var i :| 0 <= i < k && order[i] == gone;
      var j :| k <= j < |order| && order[j] == kept;
    }
    assert order == order[..k] + order[k..];
  }

  /** The number of records a prune must delete. */
  function Excess(listed: nat, limit: nat): nat {
    if listed <= limit then 0 else listed - limit
  }

  /** By the field: the number of records the specification allows, and 10 if it says nothing. */
  ghost predicate Allows(spec: Spec, limit: nat) {
    match spec.historyLimit
    case Some(n) => limit == n
    case None => limit == 10
  }

  /** A listing and the deletions it asks for, in a row. */
  lemma PruneInARow(c: Config, s: State, order: seq<RecordId>, replies: seq<Reply>, limit: nat)
    requires Allows(s.mem.obj.spec, limit) && s.pc.ListingHistory? && SortedListing(c, s.api.records, order)
    requires |replies| == Excess(|order|, limit) && AllTakePlace(replies)
    ensures var t := Run(c, s, [List(Some(order))] + Deletions(replies));
            && t.api == s.api.(live := s.api.live - Elements(order[..|replies|]))
            && t.pc == Finishing && t.mem == s.mem
  {
    var list := List(Some(order));
    var listed := StepList(c, s, Some(order));
    PruneIsTheStep(c, s, list);
    assert Run(c, s, [list]) == listed by { assert Run(c, s, [list][..0]) == s; }
    RunAppend(c, s, [list], Deletions(replies));
    if replies != [] {
      DeletionsInARow(c, listed, replies);
      assert listed.pc.todo[..|replies|] == order[..|replies|];
    } else {
      assert Deletions(replies) == [];
      assert Elements(order[..0]) == {} && s.api.live - {} == s.api.live;
    }
  }

  /**
   One prune on a current listing, whose deletions all take place, leaves as many
   records as the limit allows; none kept is older than one deleted, and nothing else
   on the server changes: not the records of other policies, not the records' contents.
   */
  lemma OnePrune(c: Config, s: State, order: seq<RecordId>, replies: seq<Reply>, limit: nat)
    requires s.mem.obj.spec.historyLimit == Some(limit) || (s.mem.obj.spec.historyLimit == None && limit == 10)
    requires s.pc.ListingHistory? && SortedListing(c, s.api.records, order) && Elements(order) == LiveMatching(c, s.api)
    requires |replies| == Excess(|order|, limit) && AllTakePlace(replies)
    ensures var t := Run(c, s, [List(Some(order))] + Deletions(replies));
            var kept, gone := LiveMatching(c, t.api), LiveMatching(c, s.api) - LiveMatching(c, t.api);
            && t.pc == Finishing && t.api == s.api.(live := s.api.live - gone)
            && |kept| == (if |order| <= limit then |order| else limit)
            && (forall id :: id in gone ==>
                  s.api.records[id].policy == c.name && s.api.records[id].namespace == c.namespace)
            && forall k, g :: k in kept && g in gone ==> s.api.records[g].created <= s.api.records[k].created
  {
    PruneInARow(c, s, order, replies, limit);
    FrontIsOldest(c, s.api.records, order, |replies|);
    RemainingRecords(c, s.api, order[..|replies|]);
  }

  lemma RemainingRecords(c: Config, api: Server, removed: seq<RecordId>)
    requires Elements(removed) <= LiveMatching(c, api)
    ensures var kept := LiveMatching(c, api.(live := api.live - Elements(removed)));
            kept == LiveMatching(c, api) - Elements(removed) && LiveMatching(c, api) - kept == Elements(removed)
  {
  }

  /** The record whose creation is strictly the latest survives every such prune, if the limit keeps any. */
  lemma LatestRecordSurvives(c: Config, s: State, order: seq<RecordId>, replies: seq<Reply>, limit: nat,
                            latest: RecordId)
    requires s.mem.obj.spec.historyLimit == Some(limit) || (s.mem.obj.spec.historyLimit == None && limit == 10)
    requires s.pc.ListingHistory? && SortedListing(c, s.api.records, order) && Elements(order) == LiveMatching(c, s.api)
    requires |replies| == Excess(|order|, limit) && AllTakePlace(replies)
    requires limit >= 1 && latest in LiveMatching(c, s.api)
    requires forall id :: id in LiveMatching(c, s.api) && id != latest ==>
      s.api.records[id].created < s.api.records[latest].created
    ensures latest in Run(c, s, [List(Some(order))] + Deletions(replies)).api.live
  {
    PruneInARow(c, s, order, replies, limit);
    assert latest in order;
    var newest := Last(order);
    assert newest in LiveMatching(c, s.api) && s.api.records[newest].created >= s.api.records[latest].created;
    assert latest == newest && latest !in order[..|replies|];
  }
}
