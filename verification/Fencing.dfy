/** Many workers against one store. A run is any interleaving of transactions; commits take their two
    steps apart, so `Lock` may come at any time after the check for an existing run. Beside the rows the
    state keeps what each claim returned and a ledger of accepted commits, for the theorems to talk about. */
module Fencing {
  import opened Domain
  import opened Policy
  import opened Repository
  import opened Coordinator
  import opened Prune

  /** A claim as its worker sees it: the returned row and, once read, the previous snapshot. */
  datatype Attempt = Attempt(row: Target, prior: Option<Option<Snapshot>>)

  /** An accepted commit, the content it met and the snapshot it found published. */
  datatype Entry = Entry(input: CommitInput, evidence: Evidence, before: Content, replaced: Option<Snapshot>)

  datatype System = System(store: Store, attempts: map<Key, Attempt>, ledger: seq<Entry>)

  datatype Step =
    | Claim(id: int, worker: string, now: int, lease: int, paused: bool)
    | Renew(id: int, worker: string, generation: int, now: int, lease: int)
    | Release(id: int, generation: int)
    | Reschedule(id: int, generation: int, nextRunAt: int)
    | Repair(id: int, now: int)
    | Rewrite(id: int, duty: Duty)
    | Plant(id: int, seed: Seed)
    | Reseed(id: int, seed: Seed)
    | ReadPrevious(key: Key, readable: bool)
    | Lock(input: CommitInput, evidence: Evidence)
    | DropSnapshots(ids: set<int>, cutoff: int)
    | DropRuns(keys: set<Key>, cutoff: int)

  function WithRow(s: System, id: int, row: Target): System {
    s.(store := s.store.(targets := s.store.targets[id := row]))
  }

  function Published(s: Store, id: int): Option<Snapshot> {
    if id in s.targets && s.targets[id].content.snapshot.Some? && s.targets[id].content.snapshot.value in s.snapshots
    then Some(s.snapshots[s.targets[id].content.snapshot.value]) else None
  }

  /** What store.Current answers: the published snapshot of an active target, unless the read fails. */
  function CurrentRead(s: Store, id: int, readable: bool): Option<Snapshot> {
    if readable && id in s.targets && s.targets[id].duty.lifecycle.ActiveState? then Published(s, id) else None
  }

  function Next(s: System, step: Step): System {
    var targets := s.store.targets;
    match step
    case Claim(id, worker, now, lease, paused) =>
      if id in targets && Claimable(targets[id], now, paused) && ValidClaim(worker, now, lease) then
        var row := Claimed(targets[id], worker, now, lease);
        WithRow(s, id, row).(attempts := s.attempts[Key(id, row.lease.generation) := Attempt(row, None)])
      else s
    case Renew(id, worker, generation, now, lease) =>
      if ValidRenewal(id, worker, generation, lease) && id in targets && HeldBy(targets[id], worker, generation) then
        WithRow(s, id, Renewed(targets[id], now, lease))
      else s
    case Release(id, generation) =>
      if id > 0 && generation > 0 && id in targets && targets[id].lease.generation == generation then
        WithRow(s, id, Unleased(targets[id]))
      else s
    case Reschedule(id, generation, nextRunAt) =>
      if id in targets && targets[id].lease.generation == generation then
        WithRow(s, id, Rescheduled(targets[id], nextRunAt))
      else s
    case Repair(id, now) =>
      if id in targets then WithRow(s, id, Repaired(targets[id], now)) else s
    case Rewrite(id, duty) =>
      if id in targets then WithRow(s, id, Rewritten(targets[id], duty)) else s
    case Plant(id, seed) =>
      if id !in targets && Storable(seed) then WithRow(s, id, Planted(seed)) else s
    case Reseed(id, seed) =>
      if id in targets && Storable(seed) then WithRow(s, id, targets[id].(duty := Reseeded(targets[id].duty, seed)))
      else s
    case ReadPrevious(key, readable) =>
      if key in s.attempts && s.attempts[key].prior.None? then
        s.(attempts := s.attempts[key :=
             s.attempts[key].(prior := Some(CurrentRead(s.store, key.target, readable)))])
      else s
    case Lock(input, evidence) =>
      var (store, result) := CommitLocked(s.store, input);
      if result.Accepted? then
        System(store, s.attempts,
               s.ledger + [Entry(input, evidence, targets[input.target].content, Published(s.store, input.target))])
      else s
    case DropSnapshots(ids, cutoff) =>
      if ids <= PrunableSet(s.store, cutoff) then s.(store := WithoutSnapshots(s.store, ids)) else s
    case DropRuns(keys, cutoff) =>
      if keys <= PrunableRuns(s.store, cutoff) then s.(store := WithoutRuns(s.store, keys)) else s
  }

  function Initial(): System { System(EmptyStore(), map[], []) }

  function After(s: System, steps: seq<Step>): System
    decreases |steps|
  {
    if steps == [] then s else Next(After(s, steps[..|steps| - 1]), steps[|steps| - 1])
  }

  // ---- The fence ----

  /** A key that can no longer commit: superseded by a later claim, or stripped of its owner. */
  predicate Dead(s: Store, k: Key) {
    && k.target in s.targets
    && (|| k.generation < s.targets[k.target].lease.generation
        || (k.generation == s.targets[k.target].lease.generation && s.targets[k.target].lease.owner.None?))
  }

  ghost predicate Committed(s: System, k: Key) {
    exists j :: 0 <= j < |s.ledger| && KeyOf(s.ledger[j].input) == k
  }

  /** A held lease is backed by an attempt whose view of the published content is the row's. */
  ghost predicate LeasesBacked(s: System) {
    forall t :: t in s.store.targets && s.store.targets[t].lease.owner.Some? ==>
      var row := s.store.targets[t];
      var k := Key(t, row.lease.generation);
      && k in s.attempts
      && s.attempts[k].row.lease.owner == row.lease.owner
      && s.attempts[k].row.content == row.content
  }

  ghost predicate AttemptsPast(s: System) {
    forall k :: k in s.attempts ==>
      && k.target in s.store.targets
      && 0 < k.generation <= s.store.targets[k.target].lease.generation
      && s.attempts[k].row.lease.generation == k.generation
      && s.attempts[k].row.kind == s.store.targets[k.target].kind
      && s.attempts[k].row.resource == s.store.targets[k.target].resource
  }

  ghost predicate LedgerDead(s: System) {
    && (forall j :: 0 <= j < |s.ledger| ==> Dead(s.store, KeyOf(s.ledger[j].input)))
    && (forall i, j :: 0 <= i < j < |s.ledger| ==> KeyOf(s.ledger[i].input) != KeyOf(s.ledger[j].input))
  }

  ghost predicate RunsInLedger(s: System) {
    forall k :: k in s.store.runs ==> Committed(s, k)
  }

  ghost predicate Fenced(s: System) {
    LeasesBacked(s) && AttemptsPast(s) && LedgerDead(s) && RunsInLedger(s)
  }

  /** The row keeps its identity, content and generation, and its owner or none: every transaction but
      a claim and a commit does no more to a row than this. */
  predicate Weakened(was: Target, now: Target) {
    && now.kind == was.kind && now.resource == was.resource && now.content == was.content
    && now.lease.generation == was.lease.generation
    && (now.lease.owner == was.lease.owner || now.lease.owner.None?)
  }

  ghost predicate OnlyWeakened(s: Store, s': Store) {
    && s.targets.Keys == s'.targets.Keys
    && forall t :: t in s.targets ==> Weakened(s.targets[t], s'.targets[t])
  }

  predicate Housekeeping(step: Step) {
    step.Renew? || step.Release? || step.Reschedule? || step.Repair? || step.Rewrite? || step.Reseed?
  }

  /** The only thing the step did was to weaken rows. */
  ghost predicate Weakens(s: System, s': System) {
    && OnlyWeakened(s.store, s'.store)
    && s'.attempts == s.attempts && s'.ledger == s.ledger
    && s'.store.(targets := s.store.targets) == s.store
  }

  lemma RowWeakens(s: System, id: int, row: Target)
    requires id in s.store.targets && Weakened(s.store.targets[id], row)
    ensures Weakens(s, WithRow(s, id, row))
  {
  }

  lemma HousekeepingWeakens(s: System, step: Step)
    requires Housekeeping(step)
    ensures Weakens(s, Next(s, step))
  {
    if Next(s, step) != s { RowWeakens(s, step.id, Next(s, step).store.targets[step.id]); }
  }

  lemma WeakeningKeepsFence(s: System, s': System)
    requires Fenced(s) && OnlyWeakened(s.store, s'.store)
    requires s'.attempts == s.attempts && s'.ledger == s.ledger && s'.store.runs.Keys <= s.store.runs.Keys
    ensures Fenced(s')
  {
    assert LeasesBacked(s') by {
      forall t | t in s'.store.targets && s'.store.targets[t].lease.owner.Some?
        ensures var row := s'.store.targets[t];
                var k := Key(t, row.lease.generation);
                k in s'.attempts && s'.attempts[k].row.lease.owner == row.lease.owner
                && s'.attempts[k].row.content == row.content
      { assert Weakened(s.store.targets[t], s'.store.targets[t]); }
    }
    assert AttemptsPast(s') by {
      forall k | k in s'.attempts
        ensures k.target in s'.store.targets
        ensures 0 < k.generation <= s'.store.targets[k.target].lease.generation
      { assert Weakened(s.store.targets[k.target], s'.store.targets[k.target]); }
    }
    assert LedgerDead(s') by {
      forall j | 0 <= j < |s'.ledger| ensures Dead(s'.store, KeyOf(s'.ledger[j].input)) {
        assert Dead(s.store, KeyOf(s.ledger[j].input));
      }
    }
    assert RunsInLedger(s') by {
      forall k | k in s'.store.runs ensures Committed(s', k) { assert Committed(s, k); }
    }
  }

  lemma ClaimKeepsFence(s: System, step: Step)
    requires Fenced(s) && step.Claim?
    ensures Fenced(Next(s, step))
  {
    var s' := Next(s, step);
    if s' != s {
      var row := s.store.targets[step.id];
      assert LedgerDead(s') by {
        forall j | 0 <= j < |s'.ledger| ensures Dead(s'.store, KeyOf(s'.ledger[j].input)) {
          assert Dead(s.store, KeyOf(s.ledger[j].input));
        }
      }
      assert RunsInLedger(s') by {
        forall k | k in s'.store.runs ensures Committed(s', k) { assert Committed(s, k); }
      }
      assert Key(step.id, row.lease.generation + 1) !in s.attempts;
    }
  }

  lemma PlantKeepsFence(s: System, step: Step)
    requires Fenced(s) && step.Plant?
    ensures Fenced(Next(s, step))
  {
    var s' := Next(s, step);
    forall j | 0 <= j < |s'.ledger| ensures Dead(s'.store, KeyOf(s'.ledger[j].input)) {
      assert Dead(s.store, KeyOf(s.ledger[j].input));
    }
    forall k | k in s'.store.runs ensures Committed(s', k) { assert Committed(s, k); }
  }

  lemma ReadKeepsFence(s: System, step: Step)
    requires Fenced(s) && step.ReadPrevious?
    ensures Fenced(Next(s, step))
  {
    var s' := Next(s, step);
    forall j | 0 <= j < |s'.ledger| ensures Dead(s'.store, KeyOf(s'.ledger[j].input)) {
      assert Dead(s.store, KeyOf(s.ledger[j].input));
    }
    forall k | k in s'.store.runs ensures Committed(s', k) { assert Committed(s, k); }
  }

  // ---- What an accepted commit does to the rows ----

  predicate Accepts(s: Store, i: CommitInput) { CommitLocked(s, i).1.Accepted? }

  /** What a commit writes to the published columns of its row, each column by itself. */
  predicate ContentWritten(was: Content, row: Content, i: CommitInput, snapshot: int) {
    var validated := i.outcome.Changed? || i.outcome.Unchanged? || i.outcome.NotModified?;
    var published := validated && i.changed;
    && row.seqNo == was.seqNo + (if validated then 1 else 0)
    && row.validatedAt ==
       (if !validated then was.validatedAt else if i.validatedAt.Some? then i.validatedAt else Some(i.finishedAt))
    && row.version == was.version + (if published then 1 else 0)
    && row.snapshot == (if published then Some(snapshot) else was.snapshot)
    && row.hash == (if published then Some(i.hash) else was.hash)
    && row.records == (if published then i.records else was.records)
  }

  /** The effect of an accepted commit on content, leases and the three logs, column by column. */
  ghost predicate CommitEffect(s: Store, i: CommitInput, s': Store) {
    && HoldsLease(s, i) && KeyOf(i) !in s.runs && ValidCommit(i)
    && s.targets.Keys <= s'.targets.Keys
    && (forall t :: t in s'.targets && t !in s.targets ==>
          s'.targets[t].content == NO_CONTENT && s'.targets[t].lease == NO_LEASE)
    && (forall t :: t in s.targets && t != i.target ==> Weakened(s.targets[t], s'.targets[t]))
    && ContentWritten(s.targets[i.target].content, s'.targets[i.target].content, i, s.lastSnapshot + 1)
    && s'.targets[i.target].lease == Lease(None, i.generation, None)
    && s'.targets[i.target].kind == s.targets[i.target].kind
    && s'.targets[i.target].resource == s.targets[i.target].resource
    && LogsWritten(s, i, s')
  }

  /** The run row, and for a publishing commit the snapshot row and the outbox event. */
  ghost predicate LogsWritten(s: Store, i: CommitInput, s': Store)
    requires i.target in s.targets && ValidCommit(i)
  {
    var was := s.targets[i.target].content;
    && s'.runs == s.runs[Key(i.target, i.generation) :=
         Run(i.worker, i.outcome, i.finishedAt, if Successful(i.outcome) then Some(was.seqNo + 1) else None)]
    && (if Publishes(i) then
          && s'.snapshots == s.snapshots[s.lastSnapshot + 1 :=
               Snapshot(i.target, Some(Key(i.target, i.generation)), was.version + 1, i.hash, i.payload.value,
                        i.rawHash, i.parser, i.finishedAt)]
          && s'.events == s.events + [Event(s.lastSnapshot + 1, i.target, was.version + 1)]
          && s'.lastSnapshot == s.lastSnapshot + 1
        else s'.snapshots == s.snapshots && s'.events == s.events && s'.lastSnapshot == s.lastSnapshot)
  }

  lemma AcceptedLogs(s: Store, i: CommitInput)
    requires Accepts(s, i)
    ensures HoldsLease(s, i) && ValidCommit(i) && LogsWritten(s, i, CommitLocked(s, i).0)
  {
  }

  lemma AcceptedOthers(s: Store, i: CommitInput)
    requires Accepts(s, i)
    ensures var rows := CommitLocked(s, i).0.targets;
            && s.targets.Keys <= rows.Keys
            && (forall t :: t in rows && t !in s.targets ==> rows[t].content == NO_CONTENT && rows[t].lease == NO_LEASE)
            && (forall t :: t in s.targets && t != i.target ==> Weakened(s.targets[t], rows[t]))
  {
  }

  lemma AcceptedRows(s: Store, i: CommitInput)
    requires Accepts(s, i)
    ensures CommitEffect(s, i, CommitLocked(s, i).0)
  {
    AcceptedLogs(s, i);
    AcceptedOthers(s, i);
  }

  // ---- The scheduling columns ----

  /** A fresh row: enabled, active, due when the seed says, with the seed's policy in whole seconds. */
  predicate PlantedFrom(row: Target, seed: Seed) {
    && row.kind == seed.kind && row.resource == seed.resource && row.content == NO_CONTENT && row.lease == NO_LEASE
    && row.duty.enabled && row.duty.lifecycle == ActiveState && row.duty.failures == 0 && row.duty.history == []
    && row.duty.priority == (if seed.priority > 0 then seed.priority else 50) && row.duty.status == seed.status
    && row.duty.nextRunAt == seed.nextRunAt && row.duty.interval == seed.initial / SECOND * SECOND
    && row.duty.minInterval == seed.min / SECOND * SECOND && row.duty.maxInterval == seed.max / SECOND * SECOND
    && row.duty.maxServeAge == seed.maxServeAge / SECOND * SECOND
  }

  /** Reseeding enables the row and takes over the seed's policy and status. The interval moves only as far as the new
      bounds demand, and neither next run nor priority number ever rises. */
  predicate ReseededFrom(was: Duty, row: Duty, seed: Seed) {
    var lo, hi := seed.min / SECOND * SECOND, seed.max / SECOND * SECOND;
    && row.enabled && row.status == seed.status && row.lifecycle == was.lifecycle
    && row.failures == was.failures && row.history == was.history
    && row.minInterval == lo && row.maxInterval == hi && row.maxServeAge == seed.maxServeAge / SECOND * SECOND
    && (lo <= was.interval <= hi ==> row.interval == was.interval)
    && (was.interval < lo ==> row.interval == lo) && (was.interval > hi ==> row.interval == hi)
    && row.nextRunAt <= was.nextRunAt && row.nextRunAt <= seed.nextRunAt
    && (row.nextRunAt == was.nextRunAt || row.nextRunAt == seed.nextRunAt)
    && var priority := if seed.priority > 0 then seed.priority else 50;
       row.priority == if priority < was.priority then priority else was.priority
  }

  /** The scheduling columns after an accepted commit: its own row takes the submitted schedule, discovered rows are
      reseeded on top or planted, and every other row keeps its columns. */
  ghost predicate CommitDuties(s: Store, i: CommitInput, s': Store)
    requires i.target in s.targets
  {
    var h := i.history;
    var own := s.targets[i.target].duty.(
      nextRunAt := i.nextRunAt, interval := i.interval / SECOND * SECOND, failures := i.failures,
      history := if |h| <= 10 then h else h[|h| - 10..]);
    && s'.targets.Keys == s.targets.Keys + i.discovered.Keys
    && (forall t :: t in s.targets ==>
          var was := if t == i.target then own else s.targets[t].duty;
          if t in i.discovered then ReseededFrom(was, s'.targets[t].duty, i.discovered[t])
          else s'.targets[t].duty == was)
    && (forall t :: t in s'.targets && t !in s.targets ==> PlantedFrom(s'.targets[t], i.discovered[t]))
  }

  lemma StoredOrder(a: int, b: int)
    requires a <= b
    ensures Stored(a) <= Stored(b)
  {
  }

  lemma ReseedMeans(d: Duty, seed: Seed)
    requires Storable(seed)
    ensures ReseededFrom(d, Reseeded(d, seed), seed)
  {
    StoredOrder(seed.min, seed.max);
  }

  ghost predicate Upserted(targets: map<int, Target>, seeds: map<int, Seed>, rows: map<int, Target>) {
    && rows.Keys == targets.Keys + seeds.Keys
    && (forall t :: t in targets ==>
          if t in seeds then ReseededFrom(targets[t].duty, rows[t].duty, seeds[t]) else rows[t].duty == targets[t].duty)
    && (forall t :: t in rows && t !in targets ==> PlantedFrom(rows[t], seeds[t]))
  }

  lemma UpsertMeans(targets: map<int, Target>, seeds: map<int, Seed>)
    requires forall t :: t in seeds ==> Storable(seeds[t])
    ensures Upserted(targets, seeds, UpsertSeeds(targets, seeds))
  {
    forall t | t in targets && t in seeds
      ensures ReseededFrom(targets[t].duty, UpsertSeeds(targets, seeds)[t].duty, seeds[t])
    {
      ReseedMeans(targets[t].duty, seeds[t]);
    }
  }

  lemma AcceptedDuties(s: Store, i: CommitInput)
    requires Accepts(s, i)
    ensures i.target in s.targets && CommitDuties(s, i, CommitLocked(s, i).0)
  {
    var own := CommittedTarget(s.targets[i.target], i, s.lastSnapshot + 1);
    UpsertMeans(s.targets[i.target := own], i.discovered);
  }

  /** When a commit is accepted, and how it is answered otherwise, in the order of the checks. */
  lemma CommitAnswers(s: Store, i: CommitInput)
    ensures var r := CommitLocked(s, i).1;
            && (r.Invalid? <==> !WellFormed(i))
            && (r.LeaseLost? <==> WellFormed(i) && !LeaseMatches(s, i))
            && (r.SequenceRefused? <==> WellFormed(i) && LeaseMatches(s, i) && !NextSequence(s, i))
            && (r.Refused? <==> WellFormed(i) && LeaseMatches(s, i) && NextSequence(s, i) && !Insertable(s, i))
            && (r.Accepted? <==> WellFormed(i) && LeaseMatches(s, i) && NextSequence(s, i) && Insertable(s, i))
            && (r.Accepted? ==> r.snapshot == if Publishes(i) then Some(s.lastSnapshot + 1) else None)
            && (!r.Accepted? ==> CommitLocked(s, i).0 == s)
  {
  }

  /** validateCommit. */
  predicate WellFormed(i: CommitInput) {
    && 0 < i.target && 0 < i.generation && Trim(i.worker) != "" && 0 < i.interval
    && 0 !in {i.startedAt, i.finishedAt, i.nextRunAt}
    && (i.changed ==> i.outcome == Changed && i.complete && i.hash != 0 && i.payload != None)
  }

  predicate LeaseMatches(s: Store, i: CommitInput) {
    && i.target in s.targets
    && s.targets[i.target].lease.owner == Some(i.worker) && s.targets[i.target].lease.generation == i.generation
  }

  /** A successful commit may state the sequence number it expects to write. */
  predicate NextSequence(s: Store, i: CommitInput)
    requires LeaseMatches(s, i)
  {
    i.outcome in {Changed, Unchanged, NotModified} && i.seqAfter != None ==>
      i.seqAfter == Some(s.targets[i.target].content.seqNo + 1)
  }

  /** No constraint of the schema stands in the way. */
  predicate Insertable(s: Store, i: CommitInput)
    requires LeaseMatches(s, i)
  {
    var version := s.targets[i.target].content.version + 1;
    && i.startedAt <= i.finishedAt && SECOND <= i.interval && Key(i.target, i.generation) !in s.runs
    && (forall id :: id in i.discovered ==> SeedInsertable(i.discovered[id]))
    && (i.outcome == Changed && i.changed ==>
          && (forall e :: e in s.events ==> e.target != i.target || e.version != version)
          && (forall id :: id in s.snapshots ==>
                s.snapshots[id].target != i.target || s.snapshots[id].version != version))
  }

  /** A named resource, ordered bounds of at least a second, and a next run. */
  predicate SeedInsertable(seed: Seed) {
    && Trim(seed.resource) != "" && seed.nextRunAt != 0
    && SECOND <= seed.initial && SECOND <= seed.min <= seed.max <= seed.maxServeAge
  }

  /** What each of the other transactions does, in columns: to the one row it names, under its own condition, and to
      nothing else. */
  ghost predicate UpkeepMeans(s: System, step: Step, s': System) {
    var rows, rows' := s.store.targets, s'.store.targets;
    match step
    case Plant(id, seed) =>
      if id !in rows && SeedInsertable(seed) then
        && id in rows' && PlantedFrom(rows'[id], seed) && rows' == rows[id := rows'[id]] && SameButTargets(s, s')
      else s' == s
    case Reseed(id, seed) =>
      if id in rows && SeedInsertable(seed) then
        && id in rows' && ReseededFrom(rows[id].duty, rows'[id].duty, seed)
        && rows' == rows[id := rows[id].(duty := rows'[id].duty)] && SameButTargets(s, s')
      else s' == s
    case Repair(id, now) =>
      if id in rows then
        id in rows' && RepairedFrom(rows[id], rows'[id], now) && rows' == rows[id := rows'[id]] && SameButTargets(s, s')
      else s' == s
    case Rewrite(id, d) =>
      if id in rows then
        && rows' == rows[id := rows[id].(duty := rows[id].duty.(
             enabled := d.enabled, lifecycle := d.lifecycle, nextRunAt := d.nextRunAt, failures := d.failures))]
        && SameButTargets(s, s')
      else s' == s
    case Release(id, generation) =>
      if id > 0 && generation > 0 && id in rows && rows[id].lease.generation == generation then
        rows' == rows[id := rows[id].(lease := Lease(None, generation, None))] && SameButTargets(s, s')
      else s' == s
    case Reschedule(id, generation, at) =>
      if id in rows && rows[id].lease.generation == generation then
        && rows' == rows[id := rows[id].(
             duty := rows[id].duty.(nextRunAt := at), lease := Lease(None, generation, None))]
        && SameButTargets(s, s')
      else s' == s
    case Renew(id, worker, generation, now, lease) =>
      if id > 0 && generation > 0 && Trim(worker) != "" && lease > 0 && id in rows
         && rows[id].lease.owner == Some(worker) && rows[id].lease.generation == generation then
        && rows' == rows[id := rows[id].(lease := Lease(Some(worker), generation, Some(now + lease / SECOND * SECOND)))]
        && SameButTargets(s, s')
      else s' == s
    case ReadPrevious(key, readable) =>
      if key in s.attempts && s.attempts[key].prior == None then
        var prior := Some(PublishedTo(s.store, key.target, readable));
        s' == s.(attempts := s.attempts[key := Attempt(s.attempts[key].row, prior)])
      else s' == s
    case _ => true
  }

  /** No snapshot names the run. */
  ghost predicate Unnamed(s: Store, k: Key) { forall id :: id in s.snapshots ==> s.snapshots[id].run != Some(k) }

  predicate SameButTargets(s: System, s': System) {
    s'.attempts == s.attempts && s'.ledger == s.ledger && s'.store.(targets := s.store.targets) == s.store
  }

  /** The snapshot a reader of an active target gets: the one its row points to. */
  function PublishedTo(s: Store, t: int, readable: bool): Option<Snapshot> {
    if !readable || t !in s.targets || s.targets[t].duty.lifecycle != ActiveState then None
    else match s.targets[t].content.snapshot
      case None => None
      case Some(p) => if p in s.snapshots then Some(s.snapshots[p]) else None
  }

  lemma ReadMeans(s: Store, t: int, readable: bool)
    ensures CurrentRead(s, t, readable) == PublishedTo(s, t, readable)
  {
  }

  lemma UpkeepExactly(s: System, step: Step)
    ensures UpkeepMeans(s, step, Next(s, step))
  {
    if step.Reseed? && step.id in s.store.targets && Storable(step.seed) {
      ReseedMeans(s.store.targets[step.id].duty, step.seed);
    }
    if step.ReadPrevious? { ReadMeans(s.store, step.key.target, step.readable); }
  }

  /** Retention deletes what it is asked to, provided every row of it may go. */
  lemma DropsExactly(s: System, step: Step)
    ensures step.DropSnapshots? ==>
              Next(s, step) ==
              if forall id :: id in step.ids ==> MayGo(s.store, id, step.cutoff)
              then s.(store := s.store.(snapshots := s.store.snapshots - step.ids)) else s
    ensures step.DropRuns? ==>
              Next(s, step) ==
              if forall k :: k in step.keys ==> RunMayGo(s.store, k, step.cutoff)
              then s.(store := s.store.(runs := s.store.runs - step.keys)) else s
  {
    if step.DropSnapshots? {
      PrunableMeans(s.store, step.cutoff);
      var all := PrunableSet(s.store, step.cutoff);
      if step.ids <= all {
        forall id | id in step.ids ensures MayGo(s.store, id, step.cutoff) { assert id in all; }
      } else {
        var id := PickOutside(step.ids, all);
        assert !MayGo(s.store, id, step.cutoff);
      }
    }
    if step.DropRuns? {
      var all := PrunableRuns(s.store, step.cutoff);
      forall k ensures k in all <==> RunMayGo(s.store, k, step.cutoff) {}
      if !(step.keys <= all) { var k := PickOutside(step.keys, all); }
    }
  }

  lemma CommitBacksLeases(s: System, i: CommitInput, s': System)
    requires Fenced(s) && CommitEffect(s.store, i, s'.store) && s'.attempts == s.attempts
    ensures LeasesBacked(s') && AttemptsPast(s')
  {
  }

  lemma CommitEntersLedger(s: System, i: CommitInput, s': System)
    requires Fenced(s) && CommitEffect(s.store, i, s'.store)
    requires |s'.ledger| == |s.ledger| + 1 && s'.ledger[..|s.ledger|] == s.ledger
    requires s'.ledger[|s.ledger|].input == i
    ensures LedgerDead(s') && RunsInLedger(s') && !Committed(s, KeyOf(i))
  {
    var k := KeyOf(i);
    forall j | 0 <= j < |s.ledger|
      ensures Dead(s'.store, KeyOf(s'.ledger[j].input)) && KeyOf(s'.ledger[j].input) != k
      ensures s'.ledger[j] == s.ledger[j]
    {
      assert s'.ledger[j] == s'.ledger[..|s.ledger|][j];
      assert Dead(s.store, KeyOf(s.ledger[j].input));
    }
    forall r | r in s'.store.runs ensures Committed(s', r) {
      if r == k {
        assert KeyOf(s'.ledger[|s.ledger|].input) == r;
      } else {
        assert Committed(s, r);
        var j :| 0 <= j < |s.ledger| && KeyOf(s.ledger[j].input) == r;
        assert KeyOf(s'.ledger[j].input) == r;
      }
    }
  }

  lemma LockKeepsFence(s: System, step: Step)
    requires Fenced(s) && step.Lock?
    ensures Fenced(Next(s, step))
    ensures Accepts(s.store, step.input) ==> !Committed(s, KeyOf(step.input))
  {
    if Accepts(s.store, step.input) {
      AcceptedRows(s.store, step.input);
      CommitBacksLeases(s, step.input, Next(s, step));
      CommitEntersLedger(s, step.input, Next(s, step));
    }
  }

  lemma DropKeepsFence(s: System, step: Step)
    requires Fenced(s) && (step.DropSnapshots? || step.DropRuns?)
    ensures Fenced(Next(s, step))
  {
    WeakeningKeepsFence(s, Next(s, step));
  }

  lemma StepKeepsFence(s: System, step: Step)
    requires Fenced(s)
    ensures Fenced(Next(s, step))
  {
    match step {
      case Claim(_, _, _, _, _) => ClaimKeepsFence(s, step);
      case Plant(_, _) => PlantKeepsFence(s, step);
      case ReadPrevious(_, _) => ReadKeepsFence(s, step);
      case Lock(_, _) => LockKeepsFence(s, step);
      case DropSnapshots(_, _) => DropKeepsFence(s, step);
      case DropRuns(_, _) => DropKeepsFence(s, step);
      case _ =>
        HousekeepingWeakens(s, step);
        WeakeningKeepsFence(s, Next(s, step));
    }
  }

  lemma {:induction false} RunsAreFenced(steps: seq<Step>)
    ensures Fenced(After(Initial(), steps))
  {
    if steps != [] {
      RunsAreFenced(steps[..|steps| - 1]);
      StepKeepsFence(After(Initial(), steps[..|steps| - 1]), steps[|steps| - 1]);
    }
  }

  /** Over every interleaving, at most one commit per (target, lease generation) takes effect, even after
      retention has deleted the run row that the first check would have found. */
  lemma {:induction false} AtMostOneCommitPerGeneration(steps: seq<Step>, i: nat, j: nat)
    requires i < j < |After(Initial(), steps).ledger|
    ensures var ledger := After(Initial(), steps).ledger;
            KeyOf(ledger[i].input) != KeyOf(ledger[j].input)
  {
    RunsAreFenced(steps);
  }

  // ---- A lost lease stays lost ----

  lemma StepKeepsDead(s: System, step: Step, k: Key)
    requires Dead(s.store, k)
    ensures var s' := Next(s, step);
            && Dead(s'.store, k)
            && |s.ledger| <= |s'.ledger| <= |s.ledger| + 1 && s'.ledger[..|s.ledger|] == s.ledger
            && (|s'.ledger| > |s.ledger| ==> KeyOf(s'.ledger[|s.ledger|].input) != k)
  {
    if step.Lock? && Accepts(s.store, step.input) {
      AcceptedRows(s.store, step.input);
    }
  }

  /** Once superseded or stripped of its owner, a generation never commits again: whatever happens next, its
      key stays dead, the old ledger is kept and nothing under that key is added to it. */
  lemma {:induction false} DeadForever(s: System, steps: seq<Step>, k: Key)
    requires Dead(s.store, k)
    ensures var s' := After(s, steps);
            && Dead(s'.store, k)
            && |s.ledger| <= |s'.ledger| && s'.ledger[..|s.ledger|] == s.ledger
            && forall j :: |s.ledger| <= j < |s'.ledger| ==> KeyOf(s'.ledger[j].input) != k
  {
    if steps != [] {
      var earlier := steps[..|steps| - 1];
      DeadForever(s, earlier, k);
      var m := After(s, earlier);
      StepKeepsDead(m, steps[|steps| - 1], k);
      var s' := After(s, steps);
      assert s'.ledger[..|s.ledger|] == s'.ledger[..|m.ledger|][..|s.ledger|];
      forall j | |s.ledger| <= j < |m.ledger| ensures KeyOf(s'.ledger[j].input) != k {
        assert s'.ledger[j] == s'.ledger[..|m.ledger|][j];
      }
    }
  }

  /** Such a commit is answered without touching a target, run, snapshot or outbox row. */
  lemma DeadCommitChangesNothing(s: Store, i: CommitInput)
    requires Dead(s, KeyOf(i))
    ensures CommitLocked(s, i).0 == s && !CommitLocked(s, i).1.Accepted?
  {
  }

  /** The claim-time view is still current whenever a commit is accepted: version, sequence, hash, current snapshot and
      record count are what the worker saw when it claimed. */
  lemma {:induction false} AcceptedViewIsCurrent(steps: seq<Step>, i: CommitInput)
    requires Accepts(After(Initial(), steps).store, i)
    ensures var s := After(Initial(), steps);
            && KeyOf(i) in s.attempts
            && s.attempts[KeyOf(i)].row.lease.owner == Some(i.worker)
            && s.attempts[KeyOf(i)].row.content == s.store.targets[i.target].content
  {
    RunsAreFenced(steps);
    AcceptedRows(After(Initial(), steps).store, i);
  }
}
