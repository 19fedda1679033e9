/** The snapshot store (internal/db/snapshot_repository.go). Rows are values in maps; each SQL
    transaction is one method of `SnapshotRepository`, proved against the function of the same
    meaning above it. Times and durations are integer nanoseconds, 0 being Go's zero time. */
module Repository {
  import opened Domain
  import opened Policy

  datatype Lifecycle = ActiveState | MissingState | TombstonedState

  /** Scheduling and lifecycle columns. `status` is the session status among the attributes. */
  datatype Duty = Duty(
    enabled: bool, lifecycle: Lifecycle, priority: int, status: SessionStatus, nextRunAt: int, interval: int,
    minInterval: int, maxInterval: int, maxServeAge: int, failures: nat, history: seq<bool>)

  /** The checks of the schema on these columns; intervals are columns of whole seconds. */
  predicate DutyAdmitted(d: Duty) {
    && SECOND <= d.interval && SECOND <= d.minInterval <= d.maxInterval <= d.maxServeAge
    && d.interval % SECOND == 0 && d.minInterval % SECOND == 0 && d.maxInterval % SECOND == 0
    && d.maxServeAge % SECOND == 0 && |d.history| <= 10
  }

  /** What the target publishes. Only a commit writes these columns. */
  datatype Content = Content(
    snapshot: Option<int>, version: nat, hash: Option<int>, records: nat, seqNo: nat, validatedAt: Option<int>)

  datatype Lease = Lease(owner: Option<string>, generation: nat, expiresAt: Option<int>)

  datatype Target = Target(kind: Kind, resource: string, duty: Duty, content: Content, lease: Lease)

  /** scrape_runs is unique on (target_id, lease_generation); that pair names a run here. */
  datatype Key = Key(target: int, generation: int)

  datatype Run = Run(worker: string, outcome: Outcome, finishedAt: int, seqAfter: Option<nat>)

  datatype Snapshot = Snapshot(
    target: int, run: Option<Key>, version: nat, hash: int, payload: Value,
    rawHash: string, parser: string, fetchedAt: int)

  datatype Event = Event(snapshot: int, target: int, version: nat)

  datatype Store = Store(
    targets: map<int, Target>, runs: map<Key, Run>, snapshots: map<int, Snapshot>,
    events: seq<Event>, lastSnapshot: nat)

  const NO_CONTENT := Content(None, 0, None, 0, 0, None)
  const NO_LEASE := Lease(None, 0, None)

  function EmptyStore(): Store { Store(map[], map[], map[], [], 0) }

  // ---- Leases ----

  predicate LeaseFree(t: Target, now: int) {
    t.lease.expiresAt.None? || t.lease.expiresAt.value <= now
  }

  /** validateClaim, and the checks of RenewLease on its request. */
  predicate ValidClaim(worker: string, now: int, lease: int) { now != 0 && !Blank(worker) && lease > 0 }

  predicate ValidRenewal(id: int, worker: string, generation: int, lease: int) {
    id > 0 && generation > 0 && !Blank(worker) && lease > 0
  }

  /** ClaimOne's predicate; `paused` says whether the host is paused at `now`. */
  predicate Claimable(t: Target, now: int, paused: bool) {
    t.duty.enabled && LeaseFree(t, now) && !paused
  }

  predicate Due(t: Target, now: int, paused: bool) {
    Claimable(t, now, paused) && t.duty.lifecycle.ActiveState? && t.duty.nextRunAt <= now
  }

  function Claimed(t: Target, worker: string, now: int, lease: int): Target {
    t.(lease := Lease(Some(worker), t.lease.generation + 1, Some(now + Stored(lease))))
  }

  function Unleased(t: Target): Target {
    t.(lease := t.lease.(owner := None, expiresAt := None))
  }

  predicate HeldBy(t: Target, worker: string, generation: int) {
    t.lease.owner == Some(worker) && t.lease.generation == generation
  }

  function Renewed(t: Target, now: int, lease: int): Target {
    t.(lease := t.lease.(expiresAt := Some(now + Stored(lease))))
  }

  function Rescheduled(t: Target, nextRunAt: int): Target {
    Unleased(t.(duty := t.duty.(nextRunAt := nextRunAt)))
  }

  /** SetDueNow, lifecycle reconciliation and child presence: they touch these four columns and no other. */
  function Rewritten(t: Target, d: Duty): Target {
    t.(duty := t.duty.(enabled := d.enabled, lifecycle := d.lifecycle, nextRunAt := d.nextRunAt,
                       failures := d.failures))
  }

  predicate Orphaned(t: Target, now: int) {
    t.lease.expiresAt.Some? && t.lease.expiresAt.value < now - HOUR
  }

  function Repaired(t: Target, now: int): Target {
    var earlier := t.(duty := t.duty.(nextRunAt := if t.duty.nextRunAt <= now then t.duty.nextRunAt else now));
    if Orphaned(t, now) then Unleased(earlier) else earlier
  }

  // ---- Seeds ----

  datatype Seed = Seed(
    kind: Kind, resource: string, priority: int, status: SessionStatus,
    initial: int, min: int, max: int, maxServeAge: int, nextRunAt: int)

  predicate ValidSeed(s: Seed) {
    && !Blank(s.resource) && s.initial > 0 && s.min > 0 && s.max >= s.min && s.maxServeAge >= s.max
    && s.nextRunAt != 0
  }

  /** The seed passes validation, and its row the checks of the schema once cut to whole seconds. */
  predicate Storable(s: Seed) {
    ValidSeed(s) && s.initial >= SECOND && s.min >= SECOND
  }

  function SeedPriority(s: Seed): int { if s.priority <= 0 then 50 else s.priority }

  function Planted(s: Seed): Target {
    Target(s.kind, s.resource,
           Duty(true, ActiveState, SeedPriority(s), s.status, s.nextRunAt, Stored(s.initial), Stored(s.min),
                Stored(s.max), Stored(s.maxServeAge), 0, []),
           NO_CONTENT, NO_LEASE)
  }

  function Least(a: int, b: int): int { if a <= b then a else b }
  function Greatest(a: int, b: int): int { if a <= b then b else a }

  function Reseeded(d: Duty, s: Seed): Duty {
    d.(enabled := true, priority := Least(d.priority, SeedPriority(s)), status := s.status,
       interval := Least(Stored(s.max), Greatest(d.interval, Stored(s.min))),
       minInterval := Stored(s.min), maxInterval := Stored(s.max), maxServeAge := Stored(s.maxServeAge),
       nextRunAt := Least(d.nextRunAt, s.nextRunAt))
  }

  function UpsertSeeds(targets: map<int, Target>, seeds: map<int, Seed>): map<int, Target> {
    map id | id in targets.Keys + seeds.Keys ::
      if id !in seeds then targets[id]
      else if id in targets then targets[id].(duty := Reseeded(targets[id].duty, seeds[id]))
      else Planted(seeds[id])
  }

  // ---- Commit ----

  datatype CommitInput = CommitInput(
    target: int, generation: int, worker: string, outcome: Outcome,
    startedAt: int, finishedAt: int, nextRunAt: int, interval: int, failures: nat, history: seq<bool>,
    validatedAt: Option<int>, seqAfter: Option<nat>,
    changed: bool, hash: int, payload: Option<Value>, records: nat, complete: bool,
    parser: string, rawHash: string, discovered: map<int, Seed>)

  datatype CommitResult =
    | Accepted(snapshot: Option<int>)
    | Replayed
    | ReplayUnreadable
    | LeaseLost
    | SequenceRefused
    | Invalid
    | Refused

  function KeyOf(i: CommitInput): Key { Key(i.target, i.generation) }

  predicate ValidCommit(i: CommitInput) {
    && i.target > 0 && i.generation > 0 && !Blank(i.worker)
    && i.startedAt != 0 && i.finishedAt != 0 && i.nextRunAt != 0
    && i.interval > 0
    && (i.changed ==> i.outcome.Changed? && i.complete && i.hash != 0 && i.payload.Some?)
  }

  /** The first statement of the transaction: an existing run answers for this key (existingCommitResult). */
  function Existing(s: Store, k: Key): Option<CommitResult> {
    if k !in s.runs then None
    else if s.runs[k].outcome.Changed? && !(exists id :: id in s.snapshots && s.snapshots[id].run == Some(k)) then
      Some(ReplayUnreadable)
    else Some(Replayed)
  }

  predicate HoldsLease(s: Store, i: CommitInput) {
    && i.target in s.targets
    && s.targets[i.target].lease.generation == i.generation
    && s.targets[i.target].lease.owner == Some(i.worker)
  }

  predicate SequenceAgrees(c: Content, i: CommitInput) {
    Successful(i.outcome) && i.seqAfter.Some? ==> i.seqAfter.value == c.seqNo + 1
  }

  predicate Publishes(i: CommitInput) { Successful(i.outcome) && i.changed }

  function CommittedContent(c: Content, i: CommitInput, snapshot: int): Content {
    if !Successful(i.outcome) then c
    else
      var validated := c.(seqNo := c.seqNo + 1,
                          validatedAt := Some(if i.validatedAt.Some? then i.validatedAt.value else i.finishedAt));
      if !i.changed then validated
      else validated.(snapshot := Some(snapshot), version := c.version + 1, hash := Some(i.hash), records := i.records)
  }

  function Trimmed(history: seq<bool>): seq<bool> {
    if |history| > 10 then history[|history| - 10..] else history
  }

  function CommittedTarget(t: Target, i: CommitInput, snapshot: int): Target {
    Unleased(t.(duty := t.duty.(nextRunAt := i.nextRunAt, interval := Stored(i.interval),
                                failures := i.failures, history := Trimmed(i.history)),
                content := CommittedContent(t.content, i, snapshot)))
  }

  function NewRun(c: Content, i: CommitInput): Run {
    Run(i.worker, i.outcome, i.finishedAt, if Successful(i.outcome) then Some(c.seqNo + 1) else None)
  }

  function NewSnapshot(c: Content, i: CommitInput): Snapshot
    requires i.payload.Some?
  {
    Snapshot(i.target, Some(KeyOf(i)), c.version + 1, i.hash, i.payload.value, i.rawHash, i.parser, i.finishedAt)
  }

  /** A constraint of the schema refuses the transaction: a run that finished before it started, an interval
      below a second, a second run for the key, a second event for the version, or a bad discovered seed. */
  predicate ConstraintsHold(s: Store, i: CommitInput)
    requires i.target in s.targets
  {
    && i.finishedAt >= i.startedAt && i.interval >= SECOND
    && KeyOf(i) !in s.runs
    && (Publishes(i) ==> forall e :: e in s.events ==>
          !(e.target == i.target && e.version == s.targets[i.target].content.version + 1))
    && (Publishes(i) ==> forall id :: id in s.snapshots ==>
          !(s.snapshots[id].target == i.target && s.snapshots[id].version == s.targets[i.target].content.version + 1))
    && (forall id :: id in i.discovered ==> Storable(i.discovered[id]))
  }

  /** Everything after the row lock: fence, sequence check, then all writes or none. */
  function CommitLocked(s: Store, i: CommitInput): (Store, CommitResult) {
    if !ValidCommit(i) then (s, Invalid)
    else if !HoldsLease(s, i) then (s, LeaseLost)
    else
      var t := s.targets[i.target];
      if !SequenceAgrees(t.content, i) then (s, SequenceRefused)
      else if !ConstraintsHold(s, i) then (s, Refused)
      else
        var id := s.lastSnapshot + 1;
        var targets := UpsertSeeds(s.targets[i.target := CommittedTarget(t, i, id)], i.discovered);
        var runs := s.runs[KeyOf(i) := NewRun(t.content, i)];
        if Publishes(i) then
          (Store(targets, runs, s.snapshots[id := NewSnapshot(t.content, i)],
                 s.events + [Event(id, i.target, t.content.version + 1)], id), Accepted(Some(id)))
        else (s.(targets := targets, runs := runs), Accepted(None))
  }

  // ---- The audit: the rows each of its four queries counts ----

  predicate Points(s: Store, t: int) {
    t in s.targets && s.targets[t].content.snapshot.Some?
  }

  function Pointer(s: Store, t: int): int
    requires Points(s, t)
  {
    s.targets[t].content.snapshot.value
  }

  function OrphanedPointers(s: Store): set<int> {
    set t | t in s.targets && Points(s, t)
      && !(Pointer(s, t) in s.snapshots && s.snapshots[Pointer(s, t)].target == t)
  }

  function MismatchedTargets(s: Store): set<int> {
    set t | t in s.targets && Points(s, t) && Pointer(s, t) in s.snapshots
      && s.snapshots[Pointer(s, t)].version != s.targets[t].content.version
  }

  function InvalidVersions(s: Store): set<int> {
    set t | t in s.targets && s.targets[t].content.version < 0
  }

  function RejectedPayloads(s: Store): set<int> {
    set t | t in s.targets && Points(s, t) && Pointer(s, t) in s.snapshots
      && s.targets[t].duty.lifecycle.ActiveState?
      && s.snapshots[Pointer(s, t)].run.Some? && s.snapshots[Pointer(s, t)].run.value in s.runs
      && (s.runs[s.snapshots[Pointer(s, t)].run.value].outcome.InvalidPayload?
          || s.runs[s.snapshots[Pointer(s, t)].run.value].outcome.RateLimited?)
  }

  /** A target that points somewhere points to its own snapshot of its current version, and if it is active to one
      that no rejected or rate-limited run made. */
  ghost predicate PointsWell(s: Store, t: int)
    requires t in s.targets
  {
    s.targets[t].content.snapshot != None ==>
      var p := s.targets[t].content.snapshot.value;
      && p in s.snapshots && s.snapshots[p].target == t && s.snapshots[p].version == s.targets[t].content.version
      && (s.targets[t].duty.lifecycle == ActiveState && s.snapshots[p].run != None
          && s.snapshots[p].run.value in s.runs ==>
            s.runs[s.snapshots[p].run.value].outcome !in {InvalidPayload, RateLimited})
  }

  /** The four queries together find nothing if and only if every target points well. */
  lemma AuditMeans(s: Store)
    ensures OrphanedPointers(s) + MismatchedTargets(s) + InvalidVersions(s) + RejectedPayloads(s) == {} <==>
            forall t :: t in s.targets ==> PointsWell(s, t)
  {
    var found := OrphanedPointers(s) + MismatchedTargets(s) + InvalidVersions(s) + RejectedPayloads(s);
    forall t | t in s.targets ensures PointsWell(s, t) <==> t !in found {}
    assert found <= s.targets.Keys;
  }

  // ---- The order of claims ----

  function DueSet(targets: map<int, Target>, now: int, paused: set<int>, locked: set<int>): set<int> {
    set id | id in targets && id !in locked && Due(targets[id], now, id in paused)
  }

  /** ORDER BY priority, next_run_at, id. */
  predicate Precedes(targets: map<int, Target>, a: int, b: int) {
    && a in targets && b in targets
    && var x, y := targets[a].duty, targets[b].duty;
       if x.priority != y.priority then x.priority < y.priority
       else if x.nextRunAt != y.nextRunAt then x.nextRunAt < y.nextRunAt
       else a < b
  }

  method First(targets: map<int, Target>, ids: set<int>) returns (first: int)
    requires ids != {} && ids <= targets.Keys
    ensures first in ids && forall id :: id in ids && id != first ==> Precedes(targets, first, id)
  {
    ghost var some := PickOne(ids);
    first :| first in ids;
    var rest := ids - {first};
    while rest != {}
      invariant rest <= ids && first in ids
      invariant forall id :: id in ids && id !in rest && id != first ==> Precedes(targets, first, id)
      decreases rest
    {
      some := PickOne(rest);
      var id :| id in rest;
      rest := rest - {id};
      if Precedes(targets, id, first) { first := id; }
    }
  }

  /** The first `limit` ids of a set, in order. */
  method PickDue(targets: map<int, Target>, due: set<int>, limit: nat) returns (picked: seq<int>)
    requires due <= targets.Keys
    ensures |picked| <= limit
    ensures forall i, j :: 0 <= i < j < |picked| ==> Precedes(targets, picked[i], picked[j])
    ensures forall id :: id in picked ==> id in due
    ensures forall id :: id in due && id !in picked ==>
              |picked| == limit && forall c :: c in picked ==> Precedes(targets, c, id)
  {
    picked := [];
    var rest := due;
    while |picked| < limit && rest != {}
      invariant rest <= due && |picked| <= limit
      invariant forall id :: id in due <==> id in rest || id in picked
      invariant forall i, j :: 0 <= i < j < |picked| ==> Precedes(targets, picked[i], picked[j])
      invariant forall c, id :: c in picked && id in rest ==> Precedes(targets, c, id)
      decreases rest
    {
      var first := First(targets, rest);
      picked, rest := picked + [first], rest - {first};
    }
  }

  /** A row that ClaimDue may take: enabled, active, due, with no live lease, on an unpaused host and unlocked. */
  predicate Ready(targets: map<int, Target>, id: int, now: int, paused: set<int>, locked: set<int>) {
    && id in targets && id !in paused && id !in locked
    && targets[id].duty.enabled && targets[id].duty.lifecycle == ActiveState && targets[id].duty.nextRunAt <= now
    && match targets[id].lease.expiresAt { case None => true case Some(at) => at <= now }
  }

  /** Ahead in the order of claims: a lower priority number first, then the earlier next run, then the lower id. */
  predicate Ahead(targets: map<int, Target>, a: int, b: int) {
    && a in targets && b in targets
    && targets[a].duty.priority <= targets[b].duty.priority
    && (targets[a].duty.priority == targets[b].duty.priority ==>
          targets[a].duty.nextRunAt <= targets[b].duty.nextRunAt)
    && ((targets[a].duty.priority, targets[a].duty.nextRunAt) == (targets[b].duty.priority, targets[b].duty.nextRunAt)
        ==> a < b)
  }

  /** These are the first ready rows, in order; one left over means the limit was reached. */
  ghost predicate FirstDue(targets: map<int, Target>, claimed: seq<int>, limit: int, now: int, paused: set<int>,
                           locked: set<int>)
  {
    && (forall i, j :: 0 <= i < j < |claimed| ==> Ahead(targets, claimed[i], claimed[j]))
    && (forall id :: id in claimed ==> Ready(targets, id, now, paused, locked))
    && (forall id :: Ready(targets, id, now, paused, locked) && id !in claimed ==>
          |claimed| == limit && forall c :: c in claimed ==> Ahead(targets, c, id))
  }

  lemma DueFirst(targets: map<int, Target>, picked: seq<int>, limit: nat, now: int, paused: set<int>, locked: set<int>)
    requires forall i, j :: 0 <= i < j < |picked| ==> Precedes(targets, picked[i], picked[j])
    requires forall id :: id in picked ==> id in DueSet(targets, now, paused, locked)
    requires forall id :: id in DueSet(targets, now, paused, locked) && id !in picked ==>
               |picked| == limit && forall c :: c in picked ==> Precedes(targets, c, id)
    ensures FirstDue(targets, picked, limit, now, paused, locked)
  {
    forall id ensures Ready(targets, id, now, paused, locked) <==> id in DueSet(targets, now, paused, locked) {}
    forall a, b | Precedes(targets, a, b) ensures Ahead(targets, a, b) {}
  }

  /** The next run is not after `now` and not later than before; the lease goes exactly if it expired an hour ago. */
  predicate RepairedFrom(was: Target, row: Target, now: int) {
    && row.kind == was.kind && row.resource == was.resource && row.content == was.content
    && row.duty.(nextRunAt := 0) == was.duty.(nextRunAt := 0)
    && row.duty.nextRunAt <= now && row.duty.nextRunAt <= was.duty.nextRunAt
    && (row.duty.nextRunAt == now || row.duty.nextRunAt == was.duty.nextRunAt)
    && row.lease.generation == was.lease.generation
    && (if was.lease.expiresAt.Some? && was.lease.expiresAt.value + 3600 * SECOND < now
        then row.lease.owner.None? && row.lease.expiresAt.None?
        else row.lease == was.lease)
  }

  datatype ClaimResult = ClaimedRow(row: Target) | NoSuchTarget | HostPaused | AlreadyLeased | BadClaim

  datatype LeaseAnswer = LeaseKept | LeaseGone | BadLeaseRequest

  class SnapshotRepository {
    var targets: map<int, Target>
    var runs: map<Key, Run>
    var snapshots: map<int, Snapshot>
    var events: seq<Event>
    var lastSnapshot: nat

    function Rows(): Store
      reads this
    {
      Store(targets, runs, snapshots, events, lastSnapshot)
    }

    constructor ()
      ensures Rows() == EmptyStore()
    {
      targets, runs, snapshots, events, lastSnapshot := map[], map[], map[], [], 0;
    }

    /** `locked` says whether another transaction holds the row lock, which SKIP LOCKED passes over. The claimed row
        differs from the old one in its lease alone: a new owner, the next generation and an expiry at `now` plus
        the whole seconds of the duration. */
    method ClaimOne(id: int, worker: string, now: int, lease: int, paused: bool, locked: bool)
      returns (r: ClaimResult)
      modifies this
      ensures r.BadClaim? <==> now == 0 || Blank(worker) || lease <= 0
      ensures r.ClaimedRow? <==>
                && !r.BadClaim? && id in old(targets) && old(targets[id]).duty.enabled && !paused && !locked
                && var expiry := old(targets[id]).lease.expiresAt; expiry.None? || expiry.value <= now
      ensures r.ClaimedRow? ==>
                && r.row == old(targets[id]).(lease :=
                     Lease(Some(worker), old(targets[id]).lease.generation + 1, Some(now + lease / SECOND * SECOND)))
                && Rows() == old(Rows()).(targets := old(targets)[id := r.row])
      ensures !r.ClaimedRow? ==> Rows() == old(Rows())
      ensures r.NoSuchTarget? <==> !r.BadClaim? && (id !in old(targets) || !old(targets[id]).duty.enabled)
      ensures r.HostPaused? <==> !r.BadClaim? && !r.NoSuchTarget? && paused
    {
      if !ValidClaim(worker, now, lease) { return BadClaim; }
      if id in targets && Claimable(targets[id], now, paused) && !locked {
        var row := Claimed(targets[id], worker, now, lease);
        targets := targets[id := row];
        return ClaimedRow(row);
      }
      if id !in targets || !targets[id].duty.enabled { return NoSuchTarget; }
      if paused { return HostPaused; }
      return AlreadyLeased;
    }

    /** Claims the first `limit` due rows by priority, next run and id, each exactly once. `paused` are the targets
        of paused hosts, `locked` those whose row lock another transaction holds. None is a bad request. */
    method ClaimDue(limit: int, worker: string, now: int, lease: int, paused: set<int>, locked: set<int>)
      returns (r: Option<seq<int>>)
      modifies this
      ensures r.None? <==> limit <= 0 || now == 0 || Blank(worker) || lease <= 0
      ensures r.None? ==> Rows() == old(Rows())
      ensures r.Some? ==>
                && |r.value| <= limit && FirstDue(old(targets), r.value, limit, now, paused, locked)
                && Rows() == old(Rows()).(targets := map id | id in old(targets) ::
                     if id in r.value then
                       old(targets[id]).(lease := Lease(
                         Some(worker), old(targets[id]).lease.generation + 1, Some(now + lease / SECOND * SECOND)))
                     else old(targets[id]))
    {
      if limit <= 0 || !ValidClaim(worker, now, lease) { return None; }
      var claimed := PickDue(targets, DueSet(targets, now, paused, locked), limit);
      DueFirst(targets, claimed, limit, now, paused, locked);
      targets := map id | id in targets ::
        if id in claimed then Claimed(targets[id], worker, now, lease) else targets[id];
      return Some(claimed);
    }

    method RenewLease(id: int, worker: string, generation: int, now: int, lease: int) returns (r: LeaseAnswer)
      modifies this
      ensures r.BadLeaseRequest? <==> id <= 0 || generation <= 0 || Blank(worker) || lease <= 0
      ensures r.LeaseKept? <==>
                && !r.BadLeaseRequest? && id in old(targets)
                && old(targets[id]).lease.owner == Some(worker) && old(targets[id]).lease.generation == generation
      ensures Rows() == if !r.LeaseKept? then old(Rows()) else
                var row := old(targets[id]);
                old(Rows()).(targets := old(targets)[id :=
                  row.(lease := Lease(Some(worker), generation, Some(now + lease / SECOND * SECOND)))])
    {
      if !ValidRenewal(id, worker, generation, lease) { return BadLeaseRequest; }
      if id !in targets || !HeldBy(targets[id], worker, generation) { return LeaseGone; }
      targets := targets[id := Renewed(targets[id], now, lease)];
      return LeaseKept;
    }

    method ReleaseLease(id: int, generation: int) returns (ok: bool)
      modifies this
      ensures ok <==> id > 0 && generation > 0
      ensures Rows() == if !(ok && id in old(targets) && old(targets[id]).lease.generation == generation)
                then old(Rows()) else
                var row := old(targets[id]);
                old(Rows()).(targets := old(targets)[id := row.(lease := Lease(None, generation, None))])
    {
      if id <= 0 || generation <= 0 { return false; }
      if id in targets && targets[id].lease.generation == generation {
        targets := targets[id := Unleased(targets[id])];
      }
      return true;
    }

    method RescheduleLease(id: int, generation: int, nextRunAt: int) returns (held: bool)
      modifies this
      ensures held <==> id in old(targets) && old(targets[id]).lease.generation == generation
      ensures Rows() == if !held then old(Rows()) else
                var row := old(targets[id]);
                old(Rows()).(targets := old(targets)[id :=
                  row.(duty := row.duty.(nextRunAt := nextRunAt), lease := Lease(None, generation, None))])
    {
      held := id in targets && targets[id].lease.generation == generation;
      if held { targets := targets[id := Rescheduled(targets[id], nextRunAt)]; }
    }

    /** Pulls the next run forward to `now` and clears exactly the leases that expired over an hour ago. */
    method RepairStaleTargets(ids: seq<int>, now: int)
      modifies this
      ensures Rows() == old(Rows()).(targets := map id | id in old(targets) ::
                if id in ids then Repaired(old(targets[id]), now) else old(targets[id]))
      ensures forall id :: id in old(targets) && id in ids ==>
                RepairedFrom(old(targets[id]), targets[id], now)
    {
      for n := 0 to |ids|
        invariant targets == map id | id in old(targets) ::
          if id in ids[..n] then Repaired(old(targets[id]), now) else old(targets[id])
        invariant runs == old(runs) && snapshots == old(snapshots) && events == old(events)
        invariant lastSnapshot == old(lastSnapshot)
      {
        if ids[n] in targets && ids[n] !in ids[..n] {
          targets := targets[ids[n] := Repaired(targets[ids[n]], now)];
        }
        assert ids[..n + 1] == ids[..n] + [ids[n]];
      }
      assert ids[..|ids|] == ids;
    }

    /** The rest of Commit, under the row lock: the writes are made one statement at a time. */
    method CommitUnderLock(i: CommitInput) returns (r: CommitResult)
      modifies this
      ensures (Rows(), r) == CommitLocked(old(Rows()), i)
    {
      if !ValidCommit(i) { return Invalid; }
      if !HoldsLease(Rows(), i) { return LeaseLost; }
      var row := targets[i.target];
      if !SequenceAgrees(row.content, i) { return SequenceRefused; }
      if !ConstraintsHold(Rows(), i) { return Refused; }
      runs := runs[KeyOf(i) := NewRun(row.content, i)];
      var id := lastSnapshot + 1;
      var published := None;
      if Successful(i.outcome) && i.changed {
        snapshots := snapshots[id := NewSnapshot(row.content, i)];
        lastSnapshot := id;
        published := Some(id);
      }
      targets := targets[i.target := CommittedTarget(row, i, id)];
      targets := UpsertSeeds(targets, i.discovered);
      if published.Some? {
        events := events + [Event(id, i.target, row.content.version + 1)];
      }
      return Accepted(published);
    }

    /** Commit without interference between its two steps. */
    method Commit(i: CommitInput) returns (r: CommitResult)
      modifies this
      ensures ValidCommit(i) && Key(i.target, i.generation) in old(runs) ==>
                && Rows() == old(Rows())
                && r == if old(runs)[Key(i.target, i.generation)].outcome == Changed
                           && (forall id :: id in old(snapshots) ==>
                                 old(snapshots)[id].run != Some(Key(i.target, i.generation)))
                        then ReplayUnreadable else Replayed
      ensures !(ValidCommit(i) && Key(i.target, i.generation) in old(runs)) ==>
                (Rows(), r) == CommitLocked(old(Rows()), i)
      ensures !r.Accepted? ==> Rows() == old(Rows())
    {
      if !ValidCommit(i) { return Invalid; }
      var existing := Existing(Rows(), KeyOf(i));
      if existing.Some? { return existing.value; }
      r := CommitUnderLock(i);
    }
  }
}
