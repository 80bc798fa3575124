# The rotation protocol of the keysmith operator, proved

This project models the secret-rotation controller of keysmith and proves what its
runs can and cannot do. It covers the reconcile loop with everything it calls: the
cron scheduler, the rotation itself, the annotation that asks for a rotation, the audit
records and their bounded history, rolling restarts, the mapping of keys, the two
built-in providers and the admission webhooks. `dafny verify dfyconfig.toml` checks all
of it.

## How it is modelled

**The state machine (`Machine`).** The API server keeps every revision of the policy and
of each target Secret; the position of a revision in its list is its resource version.
The worker has a program counter that names the next call it makes, the policy object it
holds in memory, and a ledger of attempts. Each call is one step. Between any two calls
anything else may happen: users edit or delete the policy, time passes, other writers
write or remove Secrets, records appear, change and disappear, or the worker is
interrupted. So a sequence of inputs is an interleaving, and `Reachable` quantifies over
all of them. A read may return any revision, however old. A write is acknowledged,
refused, or takes place with its acknowledgement lost; it needs the current resource
version. A status write stores the status and nothing else; a create or an update drops
the status, and its answer replaces the object in memory. Errors that the controller
ignores are ignored here.

**The imperative form (`Client`, `Controller`, `Restarts`, `Sorting`, `Provider`, `Mock`,
`StaticGenerator`, `Admission`).** `Controller.Reconciler` has the controller's methods.
They change policy and record objects in place, loop, sort the listing in place and delete,
and they reach the server only through the calls of `Client.Cluster`, whose script of events
and answers is arbitrary. Each call demands that the machine stands exactly at that call,
with the object in memory and the arguments the machine has; each method is proved to meet
these demands. So `Reconcile` is a refinement of the machine: it reads the policy once, first
of all its calls, and what follows is an uninterrupted run of the machine until that is idle
again, with the result that the revision read calls for. The states on the way are reachable,
and every theorem below is about them.

**The cron library** is a contract: whole-second fire times, and `Next` as the least one
after an instant within a search horizon, or the zero time. Parsing is one function that
the webhook and the scheduler share, as both build the same five-field parser.

**Times** are nanoseconds, durations are 64-bit integers with the wrap-around of negation
and the saturation of `time.Until` written out. A stored time is cut to whole seconds, and
the zero time is stored as no time at all.

| module | about |
|---|---|
| `Prelude`, `Clock`, `Api`, `Decimal` | values, instants and durations, the custom resources, decimal numerals |
| `Scheduler`, `WakeUps` | the three scheduler functions, and their delay composed with the protocol |
| `Provider`, `Mock`, `StaticGenerator`, `Registry` | the mapping of keys, the counting provider, the password generator, the lookup of providers |
| `Webhook`, `Admission`, `Defaulting` | admission, and the simulation that shows defaulting preserves behaviour |
| `Machine`, `Frames`, `Coherence` | the machine, what a step can change, what ties memory to server |
| `Commits`, `Requests`, `Secrets`, `Targets`, `Audit`, `RecordHistory`, `Statuses` | the theorems over all runs |
| `MockRuns` | runs served by the counting provider |
| `Progress`, `Witnesses` | an undisturbed rotation completes; runs that end in the flaws listed below |
| `Restarts`, `Sorting`, `Client`, `Controller` | the imperative form |

## Where the code differs from what it is said to do

- A new record is given the phase `Running`, but a create drops the status: `Running` is
  never stored (`Audit.RunningIsNeverStored`).
- A positive rotation window does not only rotate early: the policy stays due until the
  slot ends, and with a window as long as the slots one rotation follows another
  (`Commits.CommitCoversItsSlot`, `Scheduler.LongWindowRepeats`). The least duration is
  its own negative and so counts as such a window too (`Scheduler.DueAgainAtOnceIff`).
- `Ready` does not imply a next rotation time: it does exactly when the schedule in force at
  the write parses and fires again (`Statuses.ReadyShowsNextTimeIff`,
  `Witnesses.ReadyWithoutNextTime`).
- The annotation is not only removed, a rotation time not only stored and a record not only
  Succeeded after the Secret was written: a create-or-update that reads an outdated copy
  which already is the wanted Secret succeeds without writing, and other data can stay in
  place. `Witnesses.RequestServedByAnOutdatedCopy` is a run in which all three happen;
  `Secrets.SuccessShowsDataIff` says exactly when the Secret shows the data; fresh data
  excludes the case (`Secrets.FreshDataIsAlwaysWritten`).
- The versions of the mock provider repeat exactly when a call comes after a restart of the
  process that lies behind an earlier call, since its counter starts anew
  (`MockRuns.VersionsAscendIff`, `Witnesses.RestartRepeatsVersion`).
- A record can say `Failed` although the Secret was written, exactly when the answer to that
  write was lost while the cached copy was current and not yet the wanted Secret
  (`Audit.FailedRecordIsTrue`, `Witnesses.FailedRecordOfAWrittenSecret`).
- The delay after a rotation ignores the window: the wake-up is the next fire time itself,
  late by a positive window (`WakeUps.WakeUpAfterRotation`). If the rotation finishes only
  after that time, or there is none, the delay is not positive and no timer is set, even
  when the policy is due again (`WakeUps.LateFinishSetsNoTimer`,
  `WakeUps.NoWakeUpWithoutNextTime`).
- A wait longer than a duration can hold ends early (`WakeUps.WaitEndsAtEffectiveTime`,
  `Scheduler.WakeUpCanBeEarly`).
- A schedule that does not parse stops manual requests too, except for the very first
  rotation, which parses nothing (`Commits.FreshReconcileRotatesIff`,
  `Commits.FixedUnparseableScheduleCommitsOnce`).

## Model

| member | source | states |
|---|---|---|
| `Commits.OneCommitPerSlot` | internal/controller/secretrotationpolicy_controller.go:109-144 | in every reachable state a scheduled commit of LastRotationTime never shares a slot with any earlier commit, by the schedule in force at the later one, when its `rotationWindow` is absent or not positive |
| `Commits.FixedScheduleCommitsOncePerSlot` | internal/controller/secretrotationpolicy_controller.go:109-144 | under one schedule and without manual requests at most one stored rotation time falls into any slot, over every run |
| `Commits.WithoutRequestsEveryCommitIsDue` | internal/controller/secretrotationpolicy_controller.go:106-144 | if no revision asks for a rotation, every commit was found due |
| `Commits.CommitCoversItsSlot` | internal/rotation/scheduler.go:33-40 | a policy that has just committed is due again exactly from the end of the slot, less the window in its specification; at once exactly if that window covers the rest of the slot |
| `Commits.EveryCommitIsJustified` | internal/controller/secretrotationpolicy_controller.go:187-311 | each stored rotation time belongs to an attempt that has written the Secret with its data, or found the wanted Secret in its cached copy; that had found the policy due by the schedule and window in force, or read the annotation value "now", unsuspended and undeleted; and that builds on the previous stored time |
| `Commits.FreshCommitWroteTheSecret` | internal/controller/secretrotationpolicy_controller.go:187-311 | with fresh data each stored rotation time means a revision of the Secret with that attempt's mapped data |
| `Commits.CommitTimesAreSome` | internal/controller/secretrotationpolicy_controller.go:271-284 | a commit stores its stamp in whole seconds, never the zero time, on top of the previous commit |
| `Commits.CommitTimesAscend` | internal/controller/secretrotationpolicy_controller.go:270-272 | stored rotation times ascend from commit to commit and never pass the clock |
| `Commits.LastRotationTimeNeverGoesBack` | internal/controller/secretrotationpolicy_controller.go:270-311 | over any run the stored LastRotationTime is never cleared and never decreases |
| `Commits.DueUntilCommitted` | internal/controller/secretrotationpolicy_controller.go:109-144 | once due, a policy with the same schedule and window stays due until a commit, whatever fails: a failure repeats a rotation and never skips one |
| `Commits.FreshReconcileRotatesIff` | internal/controller/secretrotationpolicy_controller.go:77-144 | a reconcile with a current read starts an attempt exactly if the policy can be worked on and falls due by its fields or has the annotation value "now", and a bad schedule comes before the request |
| `Commits.WindowDecides` | internal/controller/secretrotationpolicy_controller.go:109-144 | by the field `rotationWindow`: without one such a reconcile begins an attempt exactly from the next fire time on, with one exactly from that time less the window on; otherwise it waits and nothing is logged |
| `Commits.DueIffFallsDue` | internal/rotation/scheduler.go:27-41 | the scheduler finds a policy due exactly if there was no rotation, or the next fire time after the last one, less the window, has come; it fails exactly if there was one and the schedule does not parse |
| `Commits.UnparseableCommitsOnce` | internal/rotation/scheduler.go:27-36 | only the very first commit can be made under a schedule that does not parse |
| `Commits.FixedUnparseableScheduleCommitsOnce` | internal/rotation/scheduler.go:27-36 | a fixed schedule that does not parse allows at most one commit over any run, manual requests included |
| `Commits.StepKeepsChain` | internal/controller/secretrotationpolicy_controller.go:66-330 | every step keeps: the stored LastRotationTime is the last commit's, commits are linked, and the current attempt comes after all of them |
| `Requests.NoRequestIsLost` | internal/controller/secretrotationpolicy_controller.go:239-258 | if the annotation value "now" has gone without an edit by a user, an attempt had read it and written the Secret, or found the wanted Secret in its cached copy, and the policy was not edited, suspended or deleted since that read |
| `Requests.FreshRequestWroteTheSecret` | internal/controller/secretrotationpolicy_controller.go:239-258 | with data fresh to each served Secret since a baseline of its own, such a request has left a revision of the Secret with the mapped data of the attempt that served it |
| `Requests.EditedPolicyKeepsItsRequest` | internal/controller/secretrotationpolicy_controller.go:252-258 | an edit after the read makes the removal of the annotation conflict, which leaves the server as it is, and the rotation goes on |
| `Requests.StepKeepsRemovals` | internal/controller/secretrotationpolicy_controller.go:107-258 | every step keeps: each removal of the annotation is logged with an attempt that served it |
| `Progress.UndisturbedRotationCompletes` | internal/controller/secretrotationpolicy_controller.go:66-311 | a workable policy that falls due or is requested, worked on undisturbed with a current copy: the Secret named by `secretRef`, in the namespace it gives or else the policy's own, ends with the mapped data and the two labels, the record with Succeeded and the rotated keys, and the request is gone; the stored status has the phase Ready, the time and the record of this rotation, and its Ready, Scheduled and ProviderHealthy conditions are true |
| `Progress.RotationCompletes` | internal/controller/secretrotationpolicy_controller.go:66-311 | the same with any cached copy for which the create-or-update reports no error; the Secret is what that call makes of it |
| `Progress.UndisturbedReconcileEnds` | internal/controller/secretrotationpolicy_controller.go:66-330 | carried on through the prune on a current listing: no more records than `historyLimit`, or 10 without one, are left, and the reconcile returns the time left until the next fire time |
| `Progress.FailedRotationEnds` | internal/controller/secretrotationpolicy_controller.go:158-218 | a rotation whose provider call fails, from the decision to the end, however the server answers: the status in memory has the phase Ready if `failurePolicy` is Ignore and Failed otherwise, its Ready condition is false, its other conditions, times and record are those before, and a write that takes place stores exactly that; the request stays, nothing is written, committed or pruned, and the result is `retryBackoff`, or 30 seconds |
| `Progress.CurrentCopyIsWritten` | internal/controller/secretrotationpolicy_controller.go:239-247 | with a current copy an acknowledged create-or-update always leaves the wanted data and the two labels |
| `Coherence.ReachableIsCoherent` | internal/controller/secretrotationpolicy_controller.go:66-330 | the object in memory is always a stored revision plus the pending change, and the current attempt still works on what it read |
| `Frames.StepEffects` | internal/controller/secretrotationpolicy_controller.go:66-464 | each step adds at most one revision, touches only its own fields of the attempt, and changes only the part of the server its call is for |
| `Secrets.SecretHoldsLatestWrite` | internal/controller/secretrotationpolicy_controller.go:221-250 | from any baseline revision on, while only attempts write: no write of theirs has taken place since, or the Secret holds exactly the mapped output of the latest one that has, and the labels of the baseline besides `managed-by: keysmith` and the name of the policy |
| `Secrets.CreateOrUpdateIs` | internal/controller/secretrotationpolicy_controller.go:239-247 | a create-or-update appends the data and the two labels on top of those there are, or leaves the Secret alone; which of the two, and what it reports, is decided by the answer, the data and labels of the cached copy, and whether that copy is current |
| `Secrets.SameContentIff` | internal/controller/secretrotationpolicy_controller.go:239-247 | the mutated copy equals the copy exactly if the copy already has the data and both labels with their values |
| `Targets.AttemptsWriteWhatIsAsked` | internal/controller/secretrotationpolicy_controller.go:228-247 | in every reachable state an attempt that has tried its write has tried it on the Secret that the policy it read asks for, by name and in the namespace given or else the policy's, with the provider's answer mapped by that policy's keys |
| `Targets.NoOtherSecretIsWritten` | internal/controller/secretrotationpolicy_controller.go:228-247 | every revision of every Secret that an attempt has left was asked for by the policy that attempt read: the key, the namespace and the data |
| `Secrets.SuccessShowsDataIff` | internal/controller/secretrotationpolicy_controller.go:239-250 | after a create-or-update without an error the Secret has the data exactly if it was written or its data is still the cached copy's |
| `Secrets.FailureWritesIff` | internal/controller/secretrotationpolicy_controller.go:239-250 | a create-or-update that fails has changed the Secret exactly if its answer was lost, the copy was not yet the wanted Secret and the copy was current |
| `Secrets.SuccessIsWrittenOrKept` | internal/controller/secretrotationpolicy_controller.go:239-250 | a write reported as done is a revision with the attempt's data, or a cached copy that already was the wanted Secret |
| `Witnesses.RequestServedByAnOutdatedCopy` | internal/controller/secretrotationpolicy_controller.go:239-311 | a run in which an attempt reads an outdated copy: its record is Succeeded, the request is gone, the rotation time is stored, nothing was written, and the Secret has other data |
| `Secrets.FreshDataIsAlwaysWritten` | internal/controller/secretrotationpolicy_controller.go:239-250 | if no two attempts have the same data, nor data from before the baseline, every success reported is a write that took place after it |
| `Secrets.SecretShowsLatestSuccess` | internal/controller/secretrotationpolicy_controller.go:221-250 | with fresh data and no other writer since the baseline the Secret shows the mapped output of the latest successful attempt, unless a later write lost its answer |
| `MockRuns.VersionsAscendIff` | internal/provider/mock/mock.go:45-56 | in every run whose provider calls are answered by one counting mock, short of an overflow, the versions given to the attempts ascend exactly if no call comes after a restart that lies behind an earlier call |
| `MockRuns.MockDataIsFresh` | internal/provider/mock/mock.go:45-56 | in such a run without a repeating call attempts for the same Secret have pairwise different data, whatever is edited |
| `MockRuns.FirstVersionTwice` | internal/provider/mock/mock.go:45-56 | a run with a repeating call has given the first version to two attempts |
| `Witnesses.RestartRepeatsVersion` | cmd/main.go:189 | a run with a restart between two rotations, in which both attempts get the first version and the second writes nothing |
| `Secrets.StepKeeps` | internal/controller/secretrotationpolicy_controller.go:221-250 | every step keeps: each revision an attempt wrote holds that attempt's data, and writers ascend |
| `Audit.SucceededRecordIsTrue` | internal/controller/secretrotationpolicy_controller.go:260-268 | a Succeeded record means that the attempt's provider output was mapped, written or found in the cached copy, and that RotatedKeys are as a set the keys of that data |
| `Audit.FailedRecordIsTrue` | internal/controller/secretrotationpolicy_controller.go:187-250 | a Failed record's attempt has left a revision of a Secret exactly if the run lost the answer to its create-or-update while the copy was current and not yet the wanted Secret; never, if no such answer is lost |
| `Witnesses.FailedRecordOfAWrittenSecret` | internal/controller/secretrotationpolicy_controller.go:239-250 | a run that ends with a Failed record whose attempt has written the Secret |
| `Audit.RunningIsNeverStored` | internal/controller/secretrotationpolicy_controller.go:422-443 | the phase Running given to a new record is never stored |
| `Audit.OutcomeIsFinal` | internal/controller/secretrotationpolicy_controller.go:445-464 | a record with a terminal phase keeps phase, trigger, keys and restarts in every step |
| `Audit.OutcomeIsFinalInEveryRun` | internal/controller/secretrotationpolicy_controller.go:445-464 | a record with a terminal phase keeps it over every run |
| `Audit.ReachableIsTruthful` | internal/controller/secretrotationpolicy_controller.go:167-274 | in every reachable state each record agrees with its attempt in trigger, outcome, keys and restarts |
| `Audit.RecordSaysWhoAndWhy` | internal/controller/secretrotationpolicy_controller.go:162-168 | every record of an attempt names the policy and its namespace, and is Manual exactly if the revision read had the annotation value "now" |
| `RecordHistory.NewestAreNeverPruned` | internal/controller/secretrotationpolicy_controller.go:393-420 | however outdated the listings, every record ever pruned is of this policy and namespace and has at least limit other records ever created for it that are not older, where every revision's `historyLimit`, or 10 without one, is at least limit |
| `RecordHistory.NewestSurvive` | internal/controller/secretrotationpolicy_controller.go:393-420 | with distinct creation times the newest limit records ever created are never pruned |
| `RecordHistory.HistoryIsBounded` | internal/controller/secretrotationpolicy_controller.go:393-420 | with current listings and successful deletions the live records of the policy never exceed the greatest `historyLimit` of its revisions, 10 where there is none, plus the arrivals since the listing of the last completed prune |
| `RecordHistory.OnePrune` | internal/controller/secretrotationpolicy_controller.go:399-419 | one prune on a current listing leaves min(n, limit) records, where limit is `historyLimit`, or 10 without one; none is older than one deleted, all deleted are the policy's, and nothing else changes |
| `RecordHistory.LatestRecordSurvives` | internal/controller/secretrotationpolicy_controller.go:411-419 | the record created strictly last survives the prune if the limit is at least 1 |
| `RecordHistory.DeletionsInARow` | internal/controller/secretrotationpolicy_controller.go:416-419 | the deletions take exactly the oldest records away, one by one |
| `RecordHistory.EarlyInListingIsExpendable` | internal/controller/secretrotationpolicy_controller.go:411-419 | a record that a sorted listing puts before limit others has that many that are not older, whatever the listing omits |
| `Sorting.SortByCreation` | internal/controller/secretrotationpolicy_controller.go:411-414 | sorts the listing in place: oldest first, and a rearrangement of what it was |
| `Statuses.PhaseAndConditionsAgree` | internal/controller/secretrotationpolicy_controller.go:158-311 | in every stored revision: one condition per type; Ready implies a rotation on record and the phase Ready, Rotating or Failed; the phase Suspended excludes Ready |
| `Statuses.SuccessShows` | internal/controller/secretrotationpolicy_controller.go:270-307 | by the fields of the status a success leaves: phase Ready, its record, its time and the next one in whole seconds, three true conditions and Degraded as before |
| `Statuses.FailureShows` | internal/controller/secretrotationpolicy_controller.go:191-202 | by the fields of the status a failed provider call leaves: the phase by the failure policy, Ready false, all else as before |
| `Statuses.NextTimeBelongsToLast` | internal/controller/secretrotationpolicy_controller.go:131-137 | whatever is edited, every stored NextRotationTime is what the schedule in force when the two times were last written, by whichever writer, gives as its next fire time after the stored LastRotationTime, and absent if that gives none or does not parse |
| `Statuses.ReadyShowsNextTimeIff` | internal/controller/secretrotationpolicy_controller.go:282-293 | every Ready revision has a last rotation time and a record, and a next rotation time exactly if the schedule in force at the write parsed and fired again |
| `Statuses.ReadyShowsAllTimes` | internal/controller/secretrotationpolicy_controller.go:282-293 | with schedules that always fire again, however they are edited, Ready implies all three |
| `Witnesses.ReadyWithoutNextTime` | internal/controller/secretrotationpolicy_controller.go:282-293 | a run that ends with a stored revision that is Ready and has no next rotation time |
| `Statuses.AdmittedPolicyNeverDegrades` | internal/controller/secretrotationpolicy_controller.go:120-128 | if every revision passes validation, no run ever reports a bad schedule |
| `Api.SetThenFind` | internal/controller/secretrotationpolicy_controller.go:287-307 | setting a condition replaces the one of its type, leaves the others and keeps one per type |
| `Scheduler.SlotHasOneEnd` | internal/rotation/scheduler.go:11-20 | all instants of a slot have the same next fire time |
| `Scheduler.TruncationKeepsNext` | internal/rotation/scheduler.go:11-20 | cutting an instant to whole seconds does not change its next fire time |
| `Scheduler.DueIsForever` | internal/rotation/scheduler.go:27-41 | what is due stays due at every later time |
| `Scheduler.DueEntersLaterSlot` | internal/rotation/scheduler.go:33-40 | a rotation found due without an early window is stamped in a later slot, even in whole seconds |
| `Scheduler.DueAgainAtOnceIff` | internal/rotation/scheduler.go:33-40 | a rotation is due again at once exactly if the window reaches over the rest of its slot, the least duration counting as 2^63 |
| `Scheduler.LongWindowRepeats` | internal/rotation/scheduler.go:38-40 | a concrete schedule and window under which the policy is due at every instant |
| `Scheduler.ExhaustedScheduleIsAlwaysDue` | internal/rotation/scheduler.go:33-40 | a schedule that never fires again is always due, whatever the window |
| `Scheduler.WakeUpIsExact` | internal/rotation/scheduler.go:45-60 | the wake-up is the later of the effective next time and the minimum delay, and finds the rotation due, exactly unless the wait overflows a duration |
| `Scheduler.WakeUpCanBeEarly` | internal/rotation/scheduler.go:58-59 | a concrete window for which the wake-up comes too early |
| `Scheduler.EveryMinuteIsLawful` | internal/rotation/scheduler.go:11-20 | the contract of the cron library fits a schedule that fires every minute |
| `WakeUps.WaitEndsAtEffectiveTime` | internal/controller/secretrotationpolicy_controller.go:125-142 | in every reachable state a reconcile with nothing to do ends with a delay for which a timer is set, whatever its status write does, and the delay is exact unless it overflows |
| `WakeUps.RotatesFromEffectiveTimeOn` | internal/controller/secretrotationpolicy_controller.go:120-144 | a decision about the same plan rotates exactly from the effective time on |
| `WakeUps.WakeUpFindsTheRotationDue` | internal/controller/secretrotationpolicy_controller.go:120-144 | a reconcile at or after the wake-up rotates, and one before it still waits: neither early nor missed |
| `WakeUps.WakeUpAfterRotation` | internal/controller/secretrotationpolicy_controller.go:282-329 | after a rotation a timer is set exactly if the next fire time lies ahead; the wake-up is then that time, whatever the window, unless the wait overflows, and finds the policy due exactly if the window is not negative, late by a positive one |
| `WakeUps.LateFinishSetsNoTimer` | internal/controller/secretrotationpolicy_controller.go:282-329 | a rotation that finishes after the next fire time sets no timer, although with a window that is not negative the policy is due again |
| `WakeUps.NoWakeUpWithoutNextTime` | internal/controller/secretrotationpolicy_controller.go:282-329 | without a next fire time the delay after a rotation is the least duration, and no timer is set |
| `Provider.MapKeys` | internal/provider/provider.go:75-85 | succeeds exactly if every provider key is present; the result has exactly the requested keys, each with the value of the last mapping naming it |
| `Provider.MappedIff` | internal/provider/provider.go:75-85 | mapping fails exactly if a provider key is missing, and names the first one missing |
| `Provider.MappedContents` | internal/provider/provider.go:75-85 | the keys of mapped data are the secret keys, and the last mapping of a key decides its value |
| `StaticGenerator.RandomString` | internal/provider/static/static.go:64-73 | a string of exactly n URL-safe characters, the cut of the encoding of the bytes drawn, or an error if the entropy source fails |
| `StaticGenerator.CutIsExact` | internal/provider/static/static.go:66-72 | the encoding has at least n characters, and the first n are URL-safe and never padding, for every n |
| `StaticGenerator.LettersAreInOrder` | internal/provider/static/static.go:71 | the letters are the URL-safe alphabet of section 5 of RFC 4648, in its order |
| `StaticGenerator.EncodesTheExamples` | internal/provider/static/static.go:71 | the encoding agrees with the examples of section 10 of RFC 4648, group by group and in the padding |
| `StaticGenerator.BufferSize` | internal/provider/static/static.go:66 | the buffer has (6n+7)/8 bytes, at least 6n bits, and hides as many values as its spare bits allow |
| `StaticGenerator.BufferShows` | internal/provider/static/static.go:66-72 | every text over the alphabet is produced, whatever the hidden bits |
| `StaticGenerator.BufferIsOneOfThem` | internal/provider/static/static.go:66-72 | every buffer is determined by the text it shows and its hidden bits |
| `StaticGenerator.EveryTextIsEquallyLikely` | internal/provider/static/static.go:64-73 | every n-character text over the alphabet comes from exactly 2^(8*byteLen-6n) buffers |
| `StaticGenerator.ExactlyValidLengthsPass` | internal/provider/static/static.go:25-33 | of the printed integers exactly 8 to 256 pass validation, and each is the length used; what is not a number does not pass, and no length at all passes and means 32 |
| `Coherence.OnlyAcceptedParametersAreUsed` | internal/controller/secretrotationpolicy_controller.go:97-104 | in every reachable state a provider about to be called is registered and has accepted the parameters it is called with |
| `Registry.GeneratorCanServe` | internal/provider/provider.go:51-57 | with the registry behind the controller the password generator is only ever called with a length of 8 to 256, never a negative one |
| `StaticGenerator.Validate` | internal/provider/static/static.go:25-33 | accepted parameters ask for a length of 8 to 256, so never for one that the generator cannot serve |
| `StaticGenerator.Generate` | internal/provider/static/static.go:45-62 | a password of exactly the length asked for, or of 32 characters if that is not a number |
| `Decimal.ItoaIsInjective` | internal/provider/mock/mock.go:51-55 | different versions print differently |
| `Decimal.AtoiOfItoa` | internal/provider/static/static.go:27 | reading a printed 64-bit integer gives it back |
| `Mock.Mock.RotateSecret` | internal/provider/mock/mock.go:45-56 | counts one up and returns the texts of that version under the prefix given, or "mock" without one, which differ from those of every earlier version |
| `Mock.Mock.FetchSecret` | internal/provider/mock/mock.go:31-42 | returns the texts of the current version under the prefix given, or "mock" without one, and counts nothing |
| `Mock.VersionsAreDistinct` | internal/provider/mock/mock.go:45-56 | passwords and API keys of different versions differ as texts, even under different prefixes |
| `Mock.MappedVersionsDiffer` | internal/provider/mock/mock.go:45-56 | mapped data of different versions differ, even under different mappings |
| `Webhook.DefaultKeeps` | internal/webhook/secretrotationpolicy_webhook.go:53-62 | an absent limit becomes 10 and an unset failure policy Fail, what is set stays, nothing else changes, and doing it twice is doing it once |
| `Webhook.AdmittedIff` | internal/webhook/secretrotationpolicy_webhook.go:83-102 | a policy is admitted exactly if its schedule parses, its Secret has a name and it maps a key, and a rejection names the first of these that fails |
| `Webhook.AdmissionAgreesWithScheduler` | internal/webhook/secretrotationpolicy_webhook.go:83-102 | an admitted schedule never makes the scheduler fail, and one rejected for its schedule makes it fail once there has been a rotation |
| `Admission.Default` | internal/webhook/secretrotationpolicy_webhook.go:53-62 | fills the defaults into the object in place |
| `Defaulting.StepCommutes` | internal/webhook/secretrotationpolicy_webhook.go:53-62 | one step on the defaulted state is the defaulted result of the step |
| `Defaulting.DefaultingChangesNothingElse` | internal/webhook/secretrotationpolicy_webhook.go:53-62 | over every run the defaulted policy gives the same calls, outcomes, delays, Secrets, records, prunes, statuses and annotations; only the two defaulted fields differ |
| `Restarts.Workloads.TriggerRestarts` | internal/controller/secretrotationpolicy_controller.go:333-390 | restarts the targets in order, skipping failures; returns the restarted ones and leaves the templates annotated accordingly |
| `Restarts.RestartedIsSubsequence` | internal/controller/secretrotationpolicy_controller.go:341-389 | the result is the subsequence of the targets, with duplicates, at exactly the positions of a Deployment, StatefulSet or DaemonSet whose lookup and update succeeded |
| `Restarts.AnnotatedIff` | internal/controller/secretrotationpolicy_controller.go:341-387 | a workload gets the annotation `restartedAt` exactly if an update of a target naming it, in the policy's namespace by default, took place; it keeps its other annotations, and no workload appears or disappears |
| `Restarts.FailuresAreIndependent` | internal/controller/secretrotationpolicy_controller.go:382-387 | the fate of a workload and its targets depends only on the answers for the targets that name it |
| `Restarts.RestartedIsAnnotated` | internal/controller/secretrotationpolicy_controller.go:341-389 | a target reported as restarted has its workload annotated |
| `Controller.Reconciler.Reconcile` | internal/controller/secretrotationpolicy_controller.go:66-145 | reads the policy exactly once, before any other call, and is never interrupted; what it does is a run of the machine that ends idle with the result; an attempt is made exactly if the revision read can be worked on and is due or requested, and the result follows the decision, the provider, the write and the commit |
| `Controller.Reconciler.ReconcilePolicy` | internal/controller/secretrotationpolicy_controller.go:77-144 | the same for the object just read: without a workable policy nothing is attempted, committed or pruned, and the result names the reason |
| `Controller.Reconciler.EnsureFinalizer` | internal/controller/secretrotationpolicy_controller.go:83-89 | the finalizer is on the policy in memory, and on the server if the write is acknowledged, which asks for another reconcile; an unacknowledged write is an error |
| `Controller.Reconciler.RotateIfDue` | internal/controller/secretrotationpolicy_controller.go:106-144 | with the clock it reads: a scheduling error comes first and sets Degraded; otherwise an attempt is made exactly if the annotation value is "now" or the next fire time, less `rotationWindow`, has come; the result is the time left, at least 30 seconds, or what the rotation returns |
| `Controller.Reconciler.DecisionTime` | internal/controller/secretrotationpolicy_controller.go:120-125 | one clock reading decides: the machine then reports a bad schedule, waits, or has begun an attempt at that time |
| `Controller.Reconciler.RotateOrWait` | internal/controller/secretrotationpolicy_controller.go:125-144 | nothing is attempted, committed or pruned while waiting; otherwise the rotation's own result is returned |
| `Controller.Reconciler.RequeueUntilDue` | internal/controller/secretrotationpolicy_controller.go:125-142 | returns the time left by a second clock reading until the next fire time less `rotationWindow`, at least 30 seconds, and shows the next time in the status, whatever the status write does |
| `Controller.Reconciler.ExecuteRotation` | internal/controller/secretrotationpolicy_controller.go:149-330 | returns `retryBackoff`, or 30 seconds, after a failed provider call, an error after a failed mapping, write or commit, and otherwise the time left until the next fire time after exactly one commit |
| `Controller.Reconciler.OpenRecord` | internal/controller/secretrotationpolicy_controller.go:158-174 | puts the phase Rotating into the status in memory and creates the record, ignoring both errors |
| `Controller.Reconciler.RotationFailed` | internal/controller/secretrotationpolicy_controller.go:187-218 | finishes the record as Failed; the status in memory has the phase Ready if failures are ignored and Failed otherwise, Ready is false and all else as before, and an acknowledged write stores exactly that; returns `retryBackoff`, or 30 seconds |
| `Controller.Reconciler.StoreSecret` | internal/controller/secretrotationpolicy_controller.go:221-258 | a mapping or a write that fails is recorded as Failed and returned as an error; a write that succeeds ends as Succeeded with the secret keys in order; the attempt is about the Secret `secretRef` names, in the namespace it gives or else the policy's |
| `Controller.Reconciler.WriteSecret` | internal/controller/secretrotationpolicy_controller.go:228-258 | writes the mapped data to the Secret `secretRef` names, in the namespace it gives or else the policy's; what it returns and records follows the result of that write |
| `Controller.Reconciler.SetFailureStatus` | internal/controller/secretrotationpolicy_controller.go:191-202 | by the fields: phase Ready if failures are ignored and Failed otherwise, the Ready condition false, all else as before |
| `Controller.Reconciler.ShowNextTime` | internal/controller/secretrotationpolicy_controller.go:131-138 | the next fire time after the last rotation is in the status in memory, and the delay stands whatever the write does |
| `Controller.Reconciler.RemoveRequest` | internal/controller/secretrotationpolicy_controller.go:253-258 | the annotation is gone from memory, and from the server if the write is acknowledged, which it never is after an edit |
| `Controller.Reconciler.CompleteRotation` | internal/controller/secretrotationpolicy_controller.go:252-330 | finishes the record as Succeeded with the secret keys in order, and returns the time left until the next fire time after exactly one commit, or an error and nothing pruned |
| `Controller.Reconciler.RestartAndRecord` | internal/controller/secretrotationpolicy_controller.go:260-268 | restarts the workloads and finishes the record as Succeeded with exactly the mapped secret keys, in order |
| `Controller.Reconciler.StampRotation` | internal/controller/secretrotationpolicy_controller.go:270-272 | reads the clock for the time that is stored |
| `Controller.Reconciler.CommitRotation` | internal/controller/secretrotationpolicy_controller.go:270-329 | stores the success with the clock reading as its time: by the fields, phase Ready, this record, both times and three true conditions, in memory and, if the write is acknowledged, on the server; an unacknowledged write is an error and prunes nothing, an acknowledged one gives the time left until the next rotation |
| `Controller.Reconciler.StoreSuccess` | internal/controller/secretrotationpolicy_controller.go:270-311 | the status write itself: on acknowledgement exactly one commit by this attempt, and the status in memory on the server; the next fire time by the schedule and the stamp |
| `Controller.Reconciler.FinishRotation` | internal/controller/secretrotationpolicy_controller.go:313-329 | returns the time left until the next rotation by the clock |
| `Controller.Reconciler.SetSuccessStatus` | internal/controller/secretrotationpolicy_controller.go:271-307 | by the fields: phase Ready, this record, the time and the next one, the Ready, Scheduled and ProviderHealthy conditions true and Degraded as before |
| `Controller.Reconciler.TriggerRestarts` | internal/controller/secretrotationpolicy_controller.go:333-390 | restarts the targets in the policy's namespace by default and records which were |
| `Controller.Reconciler.FinalizeRecord` | internal/controller/secretrotationpolicy_controller.go:445-464 | fills in the outcome and writes the record's status, ignoring the error |
| `Controller.Reconciler.PruneHistory` | internal/controller/secretrotationpolicy_controller.go:393-420 | of the records listed in a reachable state it deletes none if they are at most `historyLimit`, or 10 without one, and otherwise none but the oldest surplus |
| `Controller.Reconciler.HandleDeletion` | internal/controller/secretrotationpolicy_controller.go:466-478 | removes the finalizer, with which the policy is gone from the server if the write is acknowledged; without a finalizer makes no call |
| `Controller.Reconciler.SetSuspended` | internal/controller/secretrotationpolicy_controller.go:480-493 | phase Suspended and Ready false in memory, all else as before, and stored if the write is acknowledged; an unacknowledged write is an error, an acknowledged one a delay of 5 minutes |
| `Controller.Reconciler.SetProviderUnhealthy` | internal/controller/secretrotationpolicy_controller.go:495-510 | phase Failed and ProviderHealthy false in memory, all else as before, and stored if the write is acknowledged; the delay is a minute either way |
| `Controller.Reconciler.MarkDegraded` | internal/controller/secretrotationpolicy_controller.go:512-526 | Degraded true in memory, all else as before, and stored if the write is acknowledged; the delay is a minute either way |
| `Client.Cluster.CreateOrUpdate` | internal/controller/secretrotationpolicy_controller.go:239-247 | a call without an error leaves the attempt with a write that succeeded, and a manual one about to remove its annotation |
| `Client.Cluster.UpdateStatus` | internal/controller/secretrotationpolicy_controller.go:309-311 | a status write leads to the next call of the protocol, and an acknowledgement replaces the object in memory, but never its specification |
| `Client.Cluster.Create` | internal/controller/secretrotationpolicy_controller.go:168-174 | an acknowledged create names the record and drops its phase, an unacknowledged one leaves the object as it is; the object stands for the attempt's record |
| `Client.Cluster.Update` | internal/controller/secretrotationpolicy_controller.go:253-257 | an acknowledged update replaces the object, status included, by the stored one; an update of an outdated object fails |

## Left out

- Notifications: HTTP delivery and its goroutines; the filter in front of them would only add easy members.
- Metrics, logging, events, the manager's wiring, flags, probes, leader election and RBAC.
- `CurrentRetryCount` and `RetryLimit`: the one is only ever reset and the other never read, so no bound on retries is claimed.
- The messages and transition times of conditions, and the times, durations, provider names and error texts of records and statuses.
- The inside of the cron library, of the client and its cache, of `CreateOrUpdate` and of `SetStatusCondition`: each is a small contract in `Scheduler`, `Machine` and `Api`.
- Time zones and changes between standard and daylight saving time, in which a schedule's fire times are not one fixed set.
- Several workers on the same policy: the controller runtime never reconciles one object twice at a time. A crash is an interruption of the worker at any call, and with it the mock's counter starts anew.
- A policy that is created anew under the same name after its deletion; the machine follows one policy object from its creation on.
- The names of records: a record is identified by its attempt, since generated names are taken to be unique. An error of `SetControllerReference` is not modelled.
- The AWS and Vault providers: they always fail, which the machine's provider call may do as well.
- The provider registry's listing of names; whether a provider is registered and accepts the parameters is the function `healthy` of the machine's configuration, which `Registry` ties to a lookup.
- Secret values are strings, not bytes; formatting of instants as text is a parameter.
- A negative `historyLimit`, which the schema of the resource excludes, and the narrowing of the listing's length to 32 bits.
- Machine.StepPutSecret: the lookup and the write of create-or-update are one step; other writers between the two show as an outdated copy.
- Restarts.Workloads.Annotate: a workload is looked up and written in one step; a conflicting write in between shows as a refused update.
- Controller.Reconciler.Reconcile: a crash in the middle of a method is not modelled there, only in the machine; one answer per restart target is fixed in advance, and any such assignment is allowed.
- StaticGenerator.EveryTextIsEquallyLikely: bytes of `crypto/rand` are an arbitrary input; the counting fact is about the mapping from buffers to texts only.
- StaticGenerator.Generate: overflow of `n*6 + 7` for lengths near the largest integer, which no buffer could hold.
