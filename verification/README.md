# Classroom, verified core

A Dafny model of the parts of the Classroom service that are hard to get right, with proofs about every input,
every interleaving and every reachable state. `dafny verify dfyconfig.toml` checks the whole project.

What is modelled, module by module:

- `Domain`, `Canonical`, `Validation`, `Policy`: the fetched values, their canonical form and content hash, payload
  validation with the suspicion rules, and the adaptive refresh interval.
- `Repository`, `Prune`: the PostgreSQL snapshot store. Rows are values in maps, and each transaction is one method
  of `SnapshotRepository` (claim, renew, release, reschedule, repair, commit) proved against a function of the rows.
  Retention is the batched loop, proved to refine a one-shot delete.
- `Coordinator`: what one claimed run decides to commit, from the fetch result, the previous snapshot and the
  confirmation refetch. Outcome `not_modified` is section 15.4.5 of RFC 9110; `rate_limited` is section 4 of RFC 6585.
- `Fencing`, `Leases`, `Columns`: any number of workers against one store. A run is an arbitrary interleaving of
  transactions, and a commit takes its two steps (check for an existing run, then lock and write) apart. They hold for
  arbitrary commits: who may commit, how long a lease excludes others, and what the scheduling columns satisfy.
- `Pipeline`, `Records`, `Verdicts`, `Schedule`: the same runs where every commit is the one a coordinator builds for
  its own claim. Rows and counters are sound, every published column is read off the last commit that wrote it, every
  outcome is the one its evidence calls for, and intervals and next runs obey their policy.
- `HostAdmission`, `HostHealth`, `Admission`: the token bucket with adaptive rate and concurrency, over `real` seconds,
  with timestamps in any order; what observations do to it; and permit requests interleaved with the runs of the store,
  fenced by the target row as it is at that moment.
- `Refresh`, `Export`, `Checkin`: three protocols built on the store, each interleaved with arbitrary other activity.
- `Inflight`, `SessionPool`, `Activity`: in-process concurrency as step systems over lock-protected sections and
  atomic operations, beside classes that perform the same sections in place.
- `Report`, `Dashboard`: the concurrent attendance report, whose totals must agree with its cells, and the
  aggregation of reports into a dashboard.

Conventions. A run is a sequence of steps, its state a recursive function of that sequence; a theorem about every
run is a lemma about every sequence. Where a state carries history for the theorems (a ledger of accepted commits, a
log of granted permits, upstream writes or roster reads) its datatype says so. Times in the store are integer
nanoseconds. JSON encoding with SHA-256, RFC 3339 normalisation and date parsing are the functions of a `Codec`. Of
the hash nothing is assumed: where it matters a lemma says what holds exactly when the two contents at hand do not
collide. The normaliser is assumed idempotent where a lemma says so. The clock, random draws, fetch results and
upstream answers are inputs.

Four properties one might expect do not hold of the code, and the model keeps the code as it is:

- `buildStudentAbsences` lists students by id, or by name when the id is empty. A student without an id whose name
  is another student's id therefore hides one of the two. `Dashboard.CollisionExists` gives an input and
  `Dashboard.TotalsExactUnlessColliding` shows that the totals are exact if and only if there is no such pair.
- A report counts roster entries, while a cell is written once per student. `Report.TotalsMatchCells` shows that a
  student's total is the number of done-and-ok cells if and only if no done roster lists the student twice;
  `Report.DoubleListingMiscounts` gives a roster.
- A commit writes the interval computed at claim time, so a reseed during the lease can leave a row outside its own
  bounds. `Schedule.ReseedDuringLeaseEscapes` gives a run and `Schedule.CommitsFitExactly` the condition, for each
  commit: it stays inside if and only if the interval stored lies within the row's bounds at that moment. One further
  run settles the row.
- The retry time of a rate refusal is cut to whole nanoseconds. `HostAdmission.RetryTimeIsExact` says when a retry at
  that moment finds a token, `HostAdmission.RetryMayStarveAgain` gives a run where it does not.

## Model

| member | source | states |
|---|---|---|
| `Domain.TrimMeans` | internal/db/snapshot_repository.go:463-474 | trimming leaves nothing exactly of a text that is all space, and of any other the text from its first to its last other character |
| `Domain.StringBeforeMeans` | internal/scraper/canonical.go:76-174 | one string is before another if and only if it has the smaller character at the first difference, or is a proper prefix |
| `Canonical.NormalizeInPlace` | internal/scraper/canonical.go:130-139 | the in-place rewriting of the copied roster normalises every check-in time and touches nothing else |
| `Canonical.SortSorts` | internal/scraper/canonical.go:76-174 | the stable sort yields a sorted arrangement for every strict weak order |
| `Canonical.RecordOrders` | internal/scraper/canonical.go:76-174 | the four record comparisons are strict weak orders that never tie two records with different ids |
| `Canonical.CanonicalIdempotent` | internal/scraper/canonical.go:76-174 | canonicalising a canonical value changes nothing, for every value |
| `Canonical.CanonicalCharacterized` | internal/scraper/canonical.go:76-174 | with distinct ids, two values have the same canonical form if and only if they carry the same bag of records and equal headers, timestamps read up to normalisation |
| `Canonical.HashCharacterized` | internal/scraper/canonical.go:35-63 | equal information always has equal content hashes, and comparing hashes decides equality of information if and only if the two canonical forms do not collide |
| `Canonical.CanonicalKeepsIds` | internal/scraper/canonical.go:76-174 | canonicalisation neither loses nor invents an id |
| `Canonical.CanonicalMeans` | internal/scraper/canonical.go:65-174 | exactly the values of the asked kind have a canonical form; it is ascending in the named columns, holds the same records with every timestamp in the normaliser's form, and counts as its records or, for the detail kinds, as nothing |
| `Validation.ScanIds` | internal/scraper/validation.go:74-114 | the duplicate scan accepts if and only if all ids are nonblank and distinct |
| `Validation.ValidatePayload` | internal/scraper/validation.go:55-278 | accepts if and only if shape, resource key, ids, statuses, dates and check-in count are consistent, and reports the number of records |
| `Validation.ValidExactly` | internal/scraper/validation.go:55-278 | what is accepted, kind by kind and without the scan: as many different nonblank ids as records, the asked resource, known statuses and dates, and a check-in count equal to the number of checked-in students |
| `Validation.ClassifyChangeAgainst` | internal/scraper/validation.go:293-355 | flags a change if and only if a suspicion rule applies |
| `Validation.UnsuspiciousKeepsMost` | internal/scraper/validation.go:33-53 | with at least two previous records, "not suspicious" is exactly: nonempty, at least 4/5 of the count and, where known, 9/10 of the previous ids kept |
| `Policy.OneRunSettles` | internal/scraper/policy.go:76-106 | under any policy the schema admits, one persisted run puts any interval whatever back into [Min, Max] |
| `Policy.OneRun` | internal/scraper/policy.go:76-106 | for every policy with the bounds of the seeding policies: once in range, unchanged strictly grows the interval until Max and then holds it, changed strictly shrinks it until Min and then holds it |
| `Policy.IntervalStaysInPolicy` | internal/scraper/policy.go:76-106 | for every admitted policy, start and outcome sequence the stored interval is in [Min, Max] from the first run on |
| `Policy.SeededPoliciesBounded` | internal/scraper/policy.go:31-74 | every policy of PolicyFor has these bounds, with its initial interval in range |
| `Policy.UnchangedConverges` | internal/scraper/policy.go:76-106 | nineteen consecutive unchanged outcomes reach Max from any start whatever, eighteen from a start in range, and further ones keep it |
| `Policy.ChangedConverges` | internal/scraper/policy.go:76-106 | eleven consecutive changed outcomes reach Min from any start whatever, ten from a start in range, and further ones keep it |
| `Policy.NextRunWithinServeAge` | internal/scraper/policy.go:144-157 | from any start and after any jitter the next run falls within MaxServeAge of the validation |
| `Policy.SeededPolicies` | internal/scraper/policy.go:31-74 | the bounds of every kind and status in seconds |
| `Policy.NextScheduleMeans` | internal/scraper/policy.go:76-115 | in numbers: half after a change, twice after ten unchanged runs in a row, otherwise half as much again rounded; then the nearest point of [Min, Max]; the outcome joins the last ten |
| `Policy.JitterMeans` | internal/scraper/policy.go:144-157 | the delay is 0.9 + 0.2 draw times the interval, to within half a nanosecond |
| `Policy.HistoryIsLastTen` | internal/scraper/policy.go:76-106 | over any sequence of runs the history is the last ten of what it was and what came |
| `Repository.SnapshotRepository.ClaimOne` | internal/db/snapshot_repository.go:541-612 | claims exactly an enabled, unlocked target of an unpaused host whose lease, if any, has expired; the row changes in its lease alone, to the next generation and an expiry at now plus the whole seconds asked for; says why otherwise |
| `Repository.PickDue` | internal/db/snapshot_repository.go:485-495 | the first `limit` of a set of due targets by priority, next run and id, in that order |
| `Repository.SnapshotRepository.ClaimDue` | internal/db/snapshot_repository.go:476-539 | refuses exactly the malformed requests; otherwise claims the first `limit` ready targets by priority, next run and id, each once and with that lease; one left over is behind all claimed ones |
| `Repository.SnapshotRepository.RenewLease` | internal/db/snapshot_repository.go:719-748 | moves the expiry to now plus the whole seconds asked for if and only if worker and generation still hold the lease |
| `Repository.SnapshotRepository.ReleaseLease` | internal/db/snapshot_repository.go:700-717 | clears ownership only under the same generation |
| `Repository.SnapshotRepository.RescheduleLease` | internal/db/snapshot_repository.go:797-821 | clears ownership and moves the next run only under the same generation |
| `Repository.SnapshotRepository.RepairStaleTargets` | internal/db/snapshot_repository.go:2929-2963 | pulls the next run forward and clears only leases expired for over an hour |
| `Repository.SnapshotRepository.CommitUnderLock` | internal/db/snapshot_repository.go:842-1165 | after the row lock: all writes of an accepted commit, or none |
| `Repository.SnapshotRepository.Commit` | internal/db/snapshot_repository.go:823-1172 | an existing run answers without a write, as unreadable exactly if it changed content that is no longer there; everything but acceptance leaves all rows unchanged |
| `Repository.AuditMeans` | internal/db/snapshot_repository.go:2976-3033 | the four queries together find nothing if and only if every target that points somewhere points to its own snapshot of its current version, and an active one to no rejected or rate-limited run |
| `Fencing.AcceptedRows` | internal/db/snapshot_repository.go:939-1165 | the effect of an accepted commit on every table, column by column |
| `Fencing.AcceptedDuties` | internal/db/snapshot_repository.go:301-424 | the scheduling columns after an accepted commit: its own row takes the submitted schedule, discovered rows are reseeded or planted as their seeds say, and every other row keeps its columns |
| `Fencing.CommitAnswers` | internal/db/snapshot_repository.go:842-899 | which of its answers a commit gets, each if and only if its condition holds |
| `Fencing.UpkeepExactly` | internal/db/snapshot_repository.go:700-821 | every other transaction does to the one row it names, under its own condition, exactly the stated columns, and nothing else |
| `Fencing.DropsExactly` | internal/db/snapshot_repository.go:2802-2870 | retention deletes what it is asked to if every row of it may go |
| `Fencing.ReadMeans` | internal/db/snapshot_repository.go:1629-1710 | a reader of an active target gets the snapshot its row points to, and of any other none |
| `Fencing.RunsAreFenced` | internal/db/snapshot_repository.go:476-612 | in every interleaving a held lease is backed by the claim that took it, with the content that claim saw, and every committed key is dead |
| `Fencing.AtMostOneCommitPerGeneration` | internal/db/snapshot_repository.go:823-899 | over every interleaving at most one commit per (target, lease generation) takes effect, even after its run row is pruned |
| `Fencing.DeadForever` | internal/db/snapshot_repository.go:700-748 | a generation that was superseded or stripped of its owner never commits again, whatever happens next |
| `Fencing.DeadCommitChangesNothing` | internal/db/snapshot_repository.go:842-886 | such a commit changes no target, run, snapshot or outbox row |
| `Fencing.AcceptedViewIsCurrent` | internal/db/snapshot_repository.go:888-899 | whenever a commit is accepted, version, sequence, hash, current snapshot and record count are what its worker saw when it claimed |
| `Leases.ClaimExactly` | internal/db/snapshot_repository.go:541-612 | a claim takes effect if and only if it is well formed and the target enabled, its host not paused and its lease, if any, expired |
| `Leases.LeasesExclude` | internal/db/snapshot_repository.go:476-612 | after a claim that took the target, and through any steps that do not end the lease, its worker holds it until now plus the whole seconds of the lease, or of the last renewal counted from there; a claim by anyone changes nothing before that moment and takes the target from then on |
| `Coordinator.RunClaimed` | internal/scraper/coordinator.go:128-300 | the step-by-step decision of a run equals the decision function that Verdicts characterises; a cancelled fetch submits nothing |
| `Coordinator.ChangedCarriesCanonicalContent` | internal/scraper/coordinator.go:204-288 | content is submitted exactly by outcome changed, and is the canonical form of a valid payload with its own hash and count |
| `Coordinator.SuccessWithoutContentHasBasis` | internal/scraper/coordinator.go:178-299 | a run succeeds without content only against a published snapshot |
| `Coordinator.ChangeIsSafeOrConfirmed` | internal/scraper/coordinator.go:231-288 | for one run: with a stored count of at least two, changed content keeps 4/5 of it and 9/10 of the ids that could be read, or was reproduced by a second fetch |
| `Coordinator.VerdictIsExact` | internal/scraper/coordinator.go:279-288 | on the parse path changed always means different canonical content, and the verdict is exact if and only if the two contents do not collide under the hash |
| `Pipeline.LedgerIsExact` | internal/db/snapshot_repository.go:990-1036 | current_version counts accepted content-changing commits, validation_seq accepted successful ones, a validated target has a snapshot, and current_snapshot_id names this target's snapshot of the current version |
| `Pipeline.AuditFindsNothing` | internal/db/snapshot_repository.go:2976-3033 | all four counts of AuditSnapshotIntegrity are zero in every reachable state |
| `Pipeline.HeldLeaseCommits` | internal/scraper/coordinator.go:385-404 | a coordinator that still holds its lease is accepted if and only if claim and evidence are well formed; changed content must be complete, and no sequence number or unique index ever refuses it |
| `Pipeline.NoUnconfirmedDestruction` | internal/scraper/coordinator.go:847-917 | every published version that replaced at least two counted records keeps 4/5 of them and, when the run could read what it replaced, 9/10 of its ids, or was reproduced by a second fetch with equal hash and count |
| `Pipeline.FailureKeepsContent` | internal/db/snapshot_repository.go:1055-1086 | quarantined and failed runs leave current snapshot, version, hash and validation time of every target unchanged |
| `Records.ValidationTimeIsLast` | internal/db/snapshot_repository.go:977-1012 | in every disciplined run last_validated_at is null if and only if no successful commit of the target was accepted, and otherwise the finishing time of the last one |
| `Records.PublishedIsLast` | internal/db/snapshot_repository.go:941-1012 | what a target publishes is what its last changed commit submitted: payload, hash, count, raw hash, parser and fetch time, under its run and the current version |
| `Records.RowsHaveOrigin` | internal/db/snapshot_repository.go:909-974 | every retained snapshot and run row is the record of one accepted commit, with the version or sequence number that commit made |
| `Records.OutboxIsComplete` | internal/db/snapshot_repository.go:1088-1165 | the outbox holds one event for every publication, in order, naming its target and version |
| `Verdicts.FetchedOutcome` | internal/scraper/coordinator.go:178-300 | one fetched run, both ways: which is skipped on equal bytes, and otherwise which payloads are rejected, held back, unchanged or changed, with count and completeness |
| `Verdicts.FailedOutcome` | internal/scraper/coordinator.go:604-659 | a run that fetched nothing: the outcome of each failure and status code, both ways, and nothing submitted |
| `Verdicts.OutcomesAreJustified` | internal/scraper/coordinator.go:178-300 | over every disciplined run, each accepted commit of a fetched payload has exactly the outcome called for by the payload, the snapshot it replaced and the refetch; quarantined exactly if acceptable, alarming in whole numbers and not reproduced |
| `Verdicts.FailuresAreRecorded` | internal/scraper/coordinator.go:604-659 | likewise each accepted commit of a failed or unmodified fetch |
| `Verdicts.VerdictsAreExact` | internal/scraper/coordinator.go:191-288 | a successful fetched commit publishes only other information than it replaces, and exactly when the information differs if and only if the contents do not collide; or its single page had the bytes the replaced snapshot was parsed from by the present parser |
| `Verdicts.SkippingIsSound` | internal/scraper/coordinator.go:191-203 | where equal bytes mean equal information, the verdict of every successful fetched commit is exact |
| `Verdicts.FailureDelayDoubles` | internal/scraper/policy.go:117-129 | the backoff cap starts at a minute, doubles with each failure and stops at an hour |
| `Verdicts.SubmissionsAreExact` | internal/scraper/coordinator.go:378-404 | every column an accepted commit submitted, from the row its claim returned, its outcome and the clock; an unsuccessful one keeps the schedule and waits the stated pause |
| `Columns.RunsKeepColumns` | internal/db/snapshot_repository.go:301-424 | in every run the scheduling columns of every row and claim satisfy the checks of the schema, and in every run whose seeds come from PolicyFor also the bounds of those policies |
| `Schedule.CommitsAreScheduled` | internal/scraper/coordinator.go:385-404 | in every disciplined run each accepted successful commit writes an interval inside the claimed [min, max], moved toward the bound its outcome calls for, and a next run within the claimed serve age of the validation |
| `Schedule.CommitsFitExactly` | internal/db/snapshot_repository.go:990-1012 | the row then also obeys its own columns, its recorded validation time included, if and only if the interval stored lies within the bounds the row has at the commit |
| `Schedule.CommitsFitTheRow` | internal/db/snapshot_repository.go:990-1012 | in particular it does whenever [min, max] was not tightened between claim and commit |
| `Schedule.UntouchedSinceClaim` | internal/db/snapshot_repository.go:400-413 | they are those of the claim as long as nothing reseeds the target |
| `Schedule.BoundsFitEveryRun` | internal/scraper/policy.go:76-106 | for all runs of a policy together, over every interval in range: bounds hold of whatever one may store if and only if they are no tighter than the policy's own |
| `Schedule.ReseedDuringLeaseEscapes` | internal/db/snapshot_repository.go:990-1012 | a run in which a reseed under a lease leaves the row with an interval above its maximum and a next run beyond its serve age |
| `Prune.CandidatesStable` | internal/db/snapshot_repository.go:2802-2870 | deleting any prunable snapshots leaves exactly the other ones prunable, although every rank is recomputed |
| `Prune.PruneSnapshots` | internal/db/snapshot_repository.go:2802-2844 | for every batch size and any choice of batches the loop terminates with the rows of the one-shot delete |
| `Prune.PruneRuns` | internal/db/snapshot_repository.go:2845-2870 | likewise for the runs no snapshot names |
| `Prune.SurvivorsKeepRuns` | internal/db/snapshot_repository.go:2802-2870 | exactly the unprunable snapshots survive, among them every current one, and no survivor loses its run |
| `Prune.RetentionExactly` | internal/db/snapshot_repository.go:2802-2870 | a snapshot stays if and only if its target is gone or points to it, it is recent, or fewer than three are newer; a run if and only if it is recent or a remaining snapshot names it; nothing else changes |
| `Prune.RetentionCounts` | internal/db/snapshot_repository.go:2802-2870 | the counts returned are those of the rows that are gone |
| `Prune.PruneStore` | internal/db/snapshot_repository.go:2802-2870 | the whole operation refines the one-shot retention, returns its counts and rejects exactly the invalid requests |
| `HostAdmission.HostGate.SeedHost` | internal/db/snapshot_repository.go:192-257 | accepts exactly the configurations in range and inserts or lowers the host row |
| `HostAdmission.HostGate.AcquireHostPermit` | internal/db/snapshot_repository.go:2143-2297 | the whole new state and decision: held permit, lost lease, pause, concurrency, tokens, grant |
| `HostAdmission.HostGate.ReleaseHostPermit` | internal/db/snapshot_repository.go:2384-2392 | removes the permit with this id and nothing else |
| `HostAdmission.HostGate.ObserveHost` | internal/db/snapshot_repository.go:2394-2555 | the whole new host row for every outcome |
| `HostAdmission.RefillBounds` | internal/db/snapshot_repository.go:2354-2367 | a refill stays in [0, burst] and adds at most rate times elapsed time |
| `HostAdmission.LimitsHold` | internal/db/snapshot_repository.go:2225-2251 | in every run 0.25 <= rate <= baseline, 1 <= concurrency <= baseline, 0 <= tokens <= burst, and permit rows never outnumber the largest baseline concurrency |
| `HostAdmission.ClockIsMonotone` | internal/db/snapshot_repository.go:2403-2414 | the bucket clock never moves back, whatever timestamps arrive |
| `HostAdmission.WindowBound` | internal/db/snapshot_repository.go:2185-2297 | in every run, new permits between host-clock times a and b number at most burst plus the largest baseline rate times (b - a) |
| `HostAdmission.RecoveryIsEarned` | internal/db/snapshot_repository.go:2416-2534 | concurrency cannot reach k + 1 after a 429 without at least 20k later successes |
| `HostAdmission.CoolOff` | internal/db/snapshot_repository.go:2416-2464 | no permit is granted within fifteen minutes of a 429, although a later auth error may shorten a longer pause |
| `HostAdmission.RetryTimeIsExact` | internal/db/snapshot_repository.go:2252-2263 | a request starved of tokens is told the last whole nanosecond before one token is available: a retry then is short by less than a nanosecond's refill, and finds the token exactly when the wait is a whole number of nanoseconds |
| `HostAdmission.RetryMayStarveAgain` | internal/db/snapshot_repository.go:2256-2257 | a run at rate 3 in which a request is told 333333333 nanoseconds and at that moment is starved again, a billionth of a token short |
| `HostAdmission.BusyRetryFrees` | internal/db/snapshot_repository.go:2225-2251 | a request refused for concurrency is told when the first live permit expires: until then all stay, then at least one is gone |
| `HostHealth.ObservationEffect` | internal/db/snapshot_repository.go:2416-2534 | one observation in numbers: how far each failure backs off and for how long it pauses, what a success ends and what the twentieth in a row raises |
| `HostHealth.StreaksLeadBack` | internal/db/snapshot_repository.go:2416-2534 | after any number of successes in a row, rate and concurrency in closed form |
| `HostHealth.SuccessesRestore` | internal/db/snapshot_repository.go:2416-2534 | from any state of any run, 380 successes in a row restore the seeded rate and concurrency |
| `HostHealth.SeedingEffect` | internal/db/snapshot_repository.go:192-257 | a first seed starts full at its baseline, a later one moves the baselines and only lowers what is current |
| `Admission.JointRunsProject` | internal/db/snapshot_repository.go:2143-2297 | a run of store and desk together is a run of each, so the theorems of both hold in it |
| `Admission.GrantsAreFenced` | internal/db/snapshot_repository.go:2203-2212 | in every joint run each granted permit was for the generation the target row had at that step, and no two permit rows share a number |
| `Admission.StaleRequestsAreFenced` | internal/db/snapshot_repository.go:2160-2212 | a request for another generation, host or a missing target is refused as superseded and changes no row, unless its key still holds a permit, which is then what it is given |
| `Admission.RequestsAreAnswered` | internal/db/snapshot_repository.go:2143-2297 | which answer every request gets, each both ways, and what it leaves in the rows |
| `Admission.PermitsLast` | internal/db/snapshot_repository.go:2160-2183 | until it expires or is released a permit stands, for at least the time asked for, and asking again for its key returns it |
| `Admission.ReleaseFreesOne` | internal/db/snapshot_repository.go:2384-2392 | releasing takes away exactly the permit of that number and frees one place; expiry takes away exactly those that are over |
| `Refresh.SequenceOnlyGrows` | internal/db/snapshot_repository.go:888-899 | no transaction lowers a validation sequence or removes a target |
| `Refresh.NilMeansProgress` | internal/scraper/scheduler.go:416-501 | in every interleaving RefreshNow returns nil only if the target's validation_seq strictly rose between its start and its return |
| `Refresh.ProgressMeansNil` | internal/scraper/scheduler.go:439-501 | in every reachable world a commit that raises the sequence returns nil and any other an error, a poll taken while the sequence exceeds the baseline returns nil, and the remaining replies of claims and polls are as stated, both ways |
| `Refresh.ErrorMeansTrouble` | internal/scraper/scheduler.go:416-501 | every error return has a cause in its run: giving up, a malformed request, a missing, disabled or paused target, a commit that left the sequence where it was, or failures above the baseline |
| `Refresh.BaselineIsRead` | internal/scraper/scheduler.go:420-432 | the baseline is what the row says when it is read, and no other move changes it |
| `Refresh.MovesMean` | internal/scraper/scheduler.go:433-438 | what the remaining moves do, marking due among them: the next run becomes no later than now, and nothing else |
| `Report.Deduplicate` | internal/warwick/report_client.go:85-94 | the loop keeps the first session of every id |
| `Report.UniqueSessionsDistinct` | internal/service/attendance_export.go:236-247 | the kept sessions have distinct ids, come from the list and lose no id |
| `Report.UniqueSessionsFirst` | internal/service/attendance_export.go:236-247 | they are exactly the sessions that are the first of their id, in their order |
| `Report.PoolCompletes` | internal/warwick/classroom_courses.go:73-101 | when the workers are done no index was processed twice, and unless cancelled every index was processed |
| `Report.PoolCanFinish` | internal/warwick/classroom_courses.go:73-101 | for every amount of work and set of workers there is a schedule that finishes uncancelled |
| `Report.TakeServes` | internal/warwick/classroom_courses.go:73-101 | a free worker gets the next index while there is one and otherwise exits |
| `Report.CollectResults` | internal/warwick/report_client.go:103-183 | in any completion order every session ends as exactly one of ok, empty or error, with its own outcome |
| `Report.Accumulate` | internal/warwick/report_client.go:196-227 | the accumulation loops compute the recursive tally that ResultsRecord speaks of |
| `Report.ResultsRecord` | internal/warwick/report_client.go:196-227 | exactly the listed students are recorded, each with its entries and check-ins over the done sessions |
| `Report.TotalsMatchCells` | internal/warwick/report_client.go:196-278 | total equals the done-and-ok cells if and only if no done roster lists the student twice, and then attended equals the checked-in ones |
| `Report.DoubleListingMiscounts` | internal/warwick/report_client.go:211-226 | a roster that lists a student twice, with total and cells apart |
| `Report.FillCells` | internal/warwick/report_client.go:249-278 | the in-place cell loop marks a cell ok exactly when the session's roster lists the student, with the last mark given |
| `Report.ComputeRows` | internal/warwick/report_client.go:80-278 | the report has one row for exactly the students with a done session, with tally, cells and at-risk flag |
| `Report.ComputeReport` | internal/warwick/report_client.go:80-278 | the same of whatever a finished worker pool leaves behind, for every schedule of the workers; every row counts a session |
| `Report.RowMeans` | internal/warwick/report_client.go:196-298 | a row in plain terms: each cell from the session and the last roster entry, counts as cell counts unless a done roster lists the student twice, and at risk from a fifth of the listed sessions missed or the threshold asked for |
| `Report.ResultsName` | internal/warwick/report_client.go:196-227 | a student bears the name of the first roster entry, by session and then place |
| `Dashboard.AggregatePerCourse` | internal/service/dashboard_aggregator.go:22-88 | the loops over reports and students compute the fold AggregationConserves speaks of |
| `Dashboard.StudentsCredited` | internal/service/dashboard_aggregator.go:54-83 | every student is credited with exactly the sessions of that student's own report rows |
| `Dashboard.AggregationConserves` | internal/service/dashboard_aggregator.go:54-83 | folding by student conserves the attended and total columns of all readable reports |
| `Dashboard.SharesKept` | internal/service/dashboard_aggregator.go:54-83 | a student is folded if and only if a readable report has a row of that student, and keeps every such row as a course share, in order |
| `Dashboard.NamesAreFirst` | internal/service/dashboard_aggregator.go:54-83 | a folded student bears the name of that student's first row |
| `Dashboard.BuildAbsences` | internal/service/dashboard_aggregator.go:117-169 | in any map order all students are listed once, except one of a colliding pair |
| `Dashboard.TotalsExactUnlessColliding` | internal/service/dashboard_aggregator.go:145-154 | the listed rows add up to all students if and only if no id-less student's name is another's id |
| `Dashboard.CollisionExists` | internal/service/dashboard_aggregator.go:145-154 | an input on which a student is lost: no order of visiting the map lists rows that add up to the report |
| `Dashboard.AbsenceMeans` | internal/service/dashboard_aggregator.go:145-209 | a listed row carries the student's own columns, at risk from the given absences or, without a threshold, from a fifth of the sessions |
| `Dashboard.RiskOrderMeans` | internal/service/dashboard_aggregator.go:170-182 | the order without rates: at risk first, then lower attendance by cross multiplication, then the name |
| `Dashboard.ExtractTopAtRisk` | internal/service/dashboard_aggregator.go:211-237 | on any sorted arrangement, exactly the first min(limit, number at risk) students at risk |
| `Dashboard.AggregateDashboard` | internal/service/dashboard_aggregator.go:239-281 | the students are the folded rows in a sorted arrangement, totals are the sums over the course reports if and only if nothing collides, and the at-risk list is exact |
| `Dashboard.CourseDashboard` | internal/service/dashboard_aggregator.go:22-281 | the same from the fetched sessions of all courses on, for every schedule of the report workers |
| `Export.RunsGuard` | internal/db/snapshot_repository.go:990-1012 | in every run validation_seq never falls and rises with every change of the published content |
| `Export.SeqLock` | internal/service/attendance_export.go:150-165 | equal sequence numbers at two moments mean one snapshot was published throughout |
| `Export.FreshExport` | internal/service/attendance_export.go:36-200 | over any history with a guarding sequence number: a successful export takes its sessions from one course snapshot current from the post-refresh metadata read to the restabilisation read; it succeeds exactly when the first round does or the course advanced and the second does; and each error is returned exactly in its case |
| `Export.RunRound` | internal/service/attendance_export.go:56-190 | one round: how it ends, both ways, and that it asks for another exactly if the course advanced under it |
| `Export.MembersMean` | internal/service/attendance_export.go:236-247 | the members are the session ids of the course, each once, in the order of their first occurrence |
| `Export.ExportDuringRun` | internal/service/attendance_export.go:36-200 | the same of an export interleaved with any disciplined run of the store |
| `Checkin.KeyTable.Reserve` | internal/db/snapshot_repository.go:2620-2671 | inserts a reserved row or returns the existing one |
| `Checkin.KeyTable.Settle` | internal/db/snapshot_repository.go:2675-2741 | changes the row only while it is reserved |
| `Checkin.KeyTable.Checkin` | internal/service/teacher.go:467-558 | one request: reply, upstream calls and stored row in every case; at most one write and only for a new key, a confirmed key or answer rests on a read of the desired state; a taken key is told of as stored |
| `Checkin.AloneConcludes` | internal/service/teacher.go:467-558 | a request that meets nobody else ends in the step system exactly as in the method |
| `Checkin.InsertMeans` | internal/db/snapshot_repository.go:2620-2671 | a request owns its key exactly if its insert was executed on a free key and it heard so |
| `Checkin.LateRequestsAreTold` | internal/service/teacher.go:446-495 | a request that finds its key taken writes nothing and is told of the stored row |
| `Checkin.AtMostOnceUpstream` | internal/service/teacher.go:467-558 | over all concurrent requests and retries the upstream writer is invoked at most once per key |
| `Checkin.WritesAsReserved` | internal/service/teacher.go:483-523 | every invocation is by the owner of the key, with the parameters the key was reserved with |
| `Checkin.MismatchNeverWrites` | internal/service/teacher.go:483-495 | a request reusing a key with other parameters never writes |
| `Checkin.ConfirmedWasSeen` | internal/service/teacher.go:507-544 | a key stored as confirmed rests on a roster read that showed the desired state |
| `Checkin.SettledForever` | internal/db/snapshot_repository.go:2675-2741 | a key keeps its parameters and leaves 'reserved' at most once |
| `Inflight.InflightGroup.Join` | internal/warwick/inflight.go:41-56 | joins the call of the key or starts one, and counts the caller |
| `Inflight.InflightGroup.Complete` | internal/warwick/inflight.go:83-91 | stores the result and makes the call unjoinable |
| `Inflight.InflightGroup.Leave` | internal/warwick/inflight.go:96-110 | uncounts the caller, and cancels and removes the call with the last one |
| `Inflight.JoinsLive` | internal/warwick/inflight.go:32-69 | no caller ever joins a completed or cancelled producer |
| `Inflight.OneLiveProducer` | internal/warwick/inflight.go:32-110 | each key has at most one live uncancelled producer |
| `Inflight.CancelledOnlyWhenAbandoned` | internal/warwick/inflight.go:96-110 | an unfinished producer is cancelled if and only if every caller that joined it has left |
| `Inflight.ResultIsOfJoinedCall` | internal/warwick/inflight.go:62-68 | a result received is that of the call joined |
| `Inflight.JoinedForGood` | internal/warwick/inflight.go:71-94 | the call a caller joined, and a result once stored, never change |
| `Inflight.LiveIsShared` | internal/warwick/inflight.go:32-69 | a caller shares the live producer of its key if there is one |
| `Inflight.NoneIsStarted` | internal/warwick/inflight.go:32-69 | and starts one otherwise |
| `Inflight.ResultsAreDelivered` | internal/warwick/inflight.go:62-94 | every waiting caller receives exactly what its call produced, or leaves with its own error |
| `SessionPool.Pool.constructor` | internal/warwick/session_pool.go:202-221 | every tier starts with all of its indexes queued |
| `SessionPool.Pool.Acquire` | internal/warwick/session_pool.go:237-284 | takes the head of the queue, or puts it back at the tail when login fails or the caller is gone |
| `SessionPool.Pool.Release` | internal/warwick/session_pool.go:337-355 | only the first release of a handle returns its index, and it blocks only on a full channel |
| `SessionPool.IndexesAreConserved` | internal/warwick/session_pool.go:202-355 | in every interleaving each index of a tier is either once in its queue and unheld, or unqueued and held by exactly one unreturned acquisition; any other index is in neither |
| `SessionPool.NoDoubleHandout` | internal/warwick/session_pool.go:237-355 | two unreturned acquisitions never share a session, whatever their tiers |
| `SessionPool.ReturnNeverBlocks` | internal/warwick/session_pool.go:337-355 | the channel has room for every index being returned |
| `SessionPool.TakesTheHead` | internal/warwick/session_pool.go:237-284 | an acquisition takes the head of its tier's queue whenever there is one, and nothing of another tier |
| `SessionPool.HeldComesBack` | internal/warwick/session_pool.go:237-355 | whoever holds an index gives it back to the tail of its own queue, and further releases do nothing |
| `Activity.Controller.RecordActivity` | internal/service/activity_controller.go:92-99 | advances the sequence and leaves a signal queued |
| `Activity.Controller.BeginActivity` | internal/service/activity_controller.go:101-106 | one more request in flight |
| `Activity.Controller.Finish` | internal/service/activity_controller.go:71-78 | only the first Finish of a lease counts, and records activity on success |
| `Activity.NoLostWakeUp` | internal/service/activity_controller.go:92-99 | whenever recorded and handled activity differ, a signal is queued, a recorder is mid-call or the loop is about to reload |
| `Activity.WakeUpIsServed` | internal/service/activity_controller.go:165-181 | the loop's next two steps then handle everything recorded and leave the workers running |
| `Activity.WorkersAreTimed` | internal/service/activity_controller.go:132-146 | while workers run and the loop waits, the idle timer is armed |
| `Activity.TimerIsHonoured` | internal/service/activity_controller.go:182-200 | an expired grace period with nothing in flight or recorded stops the workers and runs the handlers; otherwise the workers go on under an armed timer |
| `Activity.RequestsCount` | internal/service/activity_controller.go:71-106 | a request is in flight from begin to finish, and recording raises the sequence by one and leaves a signal |
| `Activity.IdlingIsExclusive` | internal/service/activity_controller.go:182-200 | idle handlers run with no request in flight and the workers stopped, and no request begins until they finish |
| `Activity.IdlesOnlyWhenUnchanged` | internal/service/activity_controller.go:183-197 | idle handlers start only if nothing was recorded since the activity whose grace period expired |
| `Activity.ShutdownIsNotExclusive` | internal/service/activity_controller.go:161-164 | on the shutdown path handlers may meet a request in flight |

## Left out

- ReconcileLifecycle and applyChildPresence: lifecycle, enabled, next run and failure columns are rewritten arbitrarily by the `Rewrite` step instead; no property of the missing-counters is claimed.
- Repository.SnapshotRepository.CommitUnderLock: candidate evidence rows, etag, cache headers, quality state, the notification and the child-presence update inside the transaction are not rows of the model.
- Repository.SnapshotRepository.Commit: the same rows and columns are not modelled.
- HostAdmission.HostGate.AcquireHostPermit: one host; NUMERIC and float64 rounding of tokens and rates, and the microsecond precision of the stored clocks and expiries, are not modelled.
- Leases.LeasesExclude: the steps between leave out what ends the lease, among them a claim whose own clock is at or past the expiry.
- Admission.GrantsAreFenced: whether the target row names another host is given with each request.
- Verdicts.SubmissionsAreExact: the seeds a parent discovers are given with the evidence.
- HostAdmission.RetryTimeIsExact: speaks of the nanoseconds the code computes; a stored bucket clock has microsecond precision, which can shift the moment by up to a microsecond.
- HostAdmission.WindowBound: bounds new permit rows, not live fetches; a confirmation fetch can outlive its permit.
- Policy.OneRun: intervals are exact integers; the code multiplies through float64, which is exact below 52 days.
- Validation.ClassifyChangeAgainst: ratios are exact reals rather than float64.
- Schedule.CommitsAreScheduled: what a parent discovers is any set of seeds from the policies, not computed from the payload.
- Refresh.NilMeansProgress: lease heartbeat, host permits and the polling clock appear only as arbitrary failures; a claim is run by the process that made it.
- Export.FreshExport: usability, decoding, the refresh of sessions and profiles and the report itself are given outcomes of a round; the live mode and the student limit are not modelled. The course read overlays enrolment, dates and name from the catalog and session counts from the session snapshots, so the sequence number covers the session list and not those fields.
- Export.ExportDuringRun: the same.
- Pipeline.HeldLeaseCommits: the size limit of the notification and the checks of the candidate table, which can also refuse a commit, are not modelled.
- Checkin.KeyTable.Checkin: the advisory lock per session and student is not modelled, since the key row alone gives the theorems; the W-code lookup is part of a read.
- Coordinator.RunClaimed: candidate evidence, manifests and warnings are left out.
- Prune.PruneStore: the deletion of expired permits that ends the operation is a step of `HostAdmission` instead.
- Report.ComputeRows: the retry budget and backoff are folded into the outcome of a fetch; the order of the rows, the error list and the truncation flag are left out.
- Report.ComputeReport: the same parts of the report are left out.
- Dashboard.CourseDashboard: the same parts as of the report and of the aggregation are left out.
- Dashboard.AggregatePerCourse: the session list and the per-session marks are not modelled.
- Dashboard.BuildAbsences: the per-session matrix of a row is not modelled.
- Dashboard.AggregateDashboard: the W-code filter, the per-session matrix and the session list are not modelled.
- SessionPool.Pool.Acquire: cookies, login backoff and waiting with a timeout are reduced to whether the acquisition completes; NewSessionPool's rejection of empty tiers is dropped, as conservation holds for them too.
- Activity: the loop of Run is a step system rather than a method, because its interleaving with requests is the point; 64-bit wrap-around of the sequence is ignored.
- Inflight: a panicking producer is a producer whose result is an error value.
- Daily maintenance other than retention, seeding order in upsertSeeds, quality states and listing queries: easy, or covered by arbitrary rewrites.
- Listener catch-up, room manager and session sync, HTTP clients and HTML parsing, API handlers, exports to CSV and XLSX, the web user interface, metrics, logging and configuration.
