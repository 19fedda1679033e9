/** One claimed run: from what the fetch returned to the commit it submits
    (internal/scraper/coordinator.go). A fetch, the read of the previous snapshot, the confirmation
    refetch, the clock and the random draws are inputs, gathered in `Evidence`. */
module Coordinator {
  import opened Domain
  import opened Canonical
  import opened Validation
  import opened Policy
  import opened Repository

  const PARSER_VERSION := "warwick-v1"

  datatype Failure =
    | UpstreamStatus(code: int, retryAfter: int)
    | AuthExpired
    | AuthConflict
    | MalformedBody
    | UpstreamRateLimit
    | OtherFetchError
    | Timeout
    | UnknownError

  datatype Fetch =
    | Fetched(value: Value, rawHash: string, pages: int, expectedPages: int, reported: int)
    | FetchNotModified
    | FetchFailed(failure: Failure)
    | FetchCanceled

  /** What came of the independent refetch, if the coordinator asks for one. */
  datatype Refetch = NoConfirmationSource | RefetchFailed | Refetched(value: Value)

  datatype Timing = Timing(
    startedAt: int, finishedAt: int, draw: real, backoffDraw: nat, discovered: map<int, Seed>)

  /** `prior` is the answer of store.Current during the run; None covers not found and unreadable. */
  datatype Evidence = Evidence(fetch: Fetch, prior: Option<Snapshot>, refetch: Refetch, timing: Timing)

  datatype Decision = Decision(
    outcome: Outcome, changed: bool, payload: Option<Value>, hash: int, records: nat, complete: bool)

  // ---- classifyFetch ----

  function ClassifyStatus(code: int): Outcome {
    if code == 429 then RateLimited
    else if code in {408, 425, 500, 502, 503, 504} then TransientError
    else if code == 404 || code == 410 then NotFound
    else if 400 <= code < 500 then PermanentError
    else TransientError
  }

  function ClassifyFailure(f: Failure): Outcome {
    match f
    case UpstreamStatus(code, _) => ClassifyStatus(code)
    case AuthExpired => AuthError
    case AuthConflict => AuthError
    case MalformedBody => InvalidPayload
    case UpstreamRateLimit => RateLimited
    case _ => TransientError
  }

  function RetryAfter(f: Fetch): int {
    if f.FetchFailed? && f.failure.UpstreamStatus?
       && (f.failure.code == 429 || f.failure.code in {408, 425, 500, 502, 503, 504})
    then f.failure.retryAfter else 0
  }

  // ---- The decision ----

  predicate HasContentHash(t: Target) {
    t.content.snapshot.Some? && t.content.hash.Some? && t.content.hash.value != 0
  }

  predicate RawHashUnchanged(e: Evidence)
    requires e.fetch.Fetched?
  {
    && e.prior.Some? && e.prior.value.rawHash != "" && e.fetch.rawHash == e.prior.value.rawHash
    && e.prior.value.parser == PARSER_VERSION && e.fetch.pages <= 1
  }

  function PreviousCount(t: Target): nat {
    if t.content.snapshot.Some? then t.content.records else 0
  }

  /** snapshotIDs of the previous payload; empty when it does not decode as this kind. */
  function PreviousIds(t: Target, e: Evidence): set<string> {
    if e.prior.Some? && KindOf(t.kind, e.prior.value.payload) then IdSet(e.prior.value.payload) else {}
  }

  predicate Complete(f: Fetch, count: nat)
    requires f.Fetched?
  {
    (f.expectedPages <= 0 || f.pages >= f.expectedPages) && (f.reported <= 0 || count == f.reported)
  }

  predicate IsSuspicious(t: Target, e: Evidence)
    requires e.fetch.Fetched?
  {
    Suspicious(|Ids(e.fetch.value)|, IdSet(e.fetch.value), PreviousCount(t), PreviousIds(t, e))
  }

  /** confirmChange: a second, unconditional fetch canonicalises to the same hash and count. */
  predicate Confirmed(t: Target, e: Evidence, first: Canonicalized, c: Codec, limit: int) {
    && e.refetch.Refetched?
    && var second := Canonicalize(t.kind, e.refetch.value, c, limit);
       second.Some? && second.value.hash == first.hash && second.value.count == first.count
  }

  function Decide(t: Target, e: Evidence, c: Codec, limit: int): Decision {
    match e.fetch
    case FetchCanceled => Decision(Canceled, false, None, 0, 0, false)
    case FetchFailed(failure) => Decision(ClassifyFailure(failure), false, None, 0, 0, false)
    case FetchNotModified =>
      Decision(if t.content.snapshot.Some? then NotModified else InvalidPayload, false, None, 0, 0, false)
    case Fetched(value, _, _, _, _) =>
      if RawHashUnchanged(e) then Decision(Unchanged, false, None, 0, 0, false)
      else
        match Canonicalize(t.kind, value, c, limit)
        case None => Decision(InvalidPayload, false, None, 0, 0, false)
        case Some(first) =>
          if !ValidPayload(t.kind, value, t.resource, c) then Decision(InvalidPayload, false, None, 0, 0, false)
          else if IsSuspicious(t, e) && !Confirmed(t, e, first, c, limit) then
            Decision(Quarantined, false, None, 0, first.count, false)
          else if !HasContentHash(t) || first.hash != t.content.hash.value then
            Decision(Changed, true, Some(first.payload), first.hash, first.count, Complete(e.fetch, |Ids(value)|))
          else Decision(Unchanged, false, None, 0, first.count, Complete(e.fetch, |Ids(value)|))
  }

  /** RunClaimedWithRelease up to the commit: the decision is reached by updating local variables. None is the
      cancelled fetch, which releases the lease and submits nothing. */
  method RunClaimed(t: Target, e: Evidence, c: Codec, limit: int) returns (d: Option<Decision>)
    ensures d == if e.fetch.FetchCanceled? then None else Some(Decide(t, e, c, limit))
  {
    if e.fetch.FetchCanceled? { return None; }
    var outcome := Unchanged;
    var changed := false;
    var payload: Option<Value> := None;
    var contentHash := 0;
    var recordsCount := 0;
    var complete := false;
    if e.fetch.Fetched? {
      if !RawHashUnchanged(e) {
        var canonical := Canonicalize(t.kind, e.fetch.value, c, limit);
        if canonical.None? {
          outcome := InvalidPayload;
        } else {
          payload, contentHash := Some(canonical.value.payload), canonical.value.hash;
          recordsCount := canonical.value.count;
          var validated := ValidatePayload(t.kind, e.fetch.value, t.resource, c);
          if validated.None? {
            outcome, payload, contentHash, recordsCount := InvalidPayload, None, 0, 0;
          } else {
            var previousCount := 0;
            if t.content.snapshot.Some? { previousCount := t.content.records; }
            var suspicious := ClassifyChangeAgainst(
              validated.value, IdSet(e.fetch.value), previousCount, PreviousIds(t, e));
            complete := Complete(e.fetch, validated.value);
            if suspicious {
              var confirmed := Confirmed(t, e, canonical.value, c, limit);
              if !confirmed { outcome := Quarantined; }
            }
            if outcome != Quarantined {
              changed := !HasContentHash(t) || contentHash != t.content.hash.value;
              if changed {
                outcome := Changed;
              } else {
                outcome, payload, contentHash := Unchanged, None, 0;
              }
            }
          }
        }
      }
    } else if e.fetch.FetchNotModified? {
      outcome := if t.content.snapshot.Some? then NotModified else InvalidPayload;
    } else {
      outcome := ClassifyFailure(e.fetch.failure);
    }
    if outcome == Quarantined {
      payload, contentHash, complete := None, 0, false;
    }
    return Some(Decision(outcome, changed, payload, contentHash, recordsCount, complete));
  }

  // ---- The commit it submits ----

  function FailureDelay(failures: nat): int {
    if failures <= 1 then MINUTE
    else if failures == 2 then 2 * MINUTE
    else if failures == 3 then 4 * MINUTE
    else if failures == 4 then 8 * MINUTE
    else if failures == 5 then 16 * MINUTE
    else if failures == 6 then 32 * MINUTE
    else HOUR
  }

  function FailurePause(outcome: Outcome, failures: nat, retryAfter: int, backoffDraw: nat): int {
    match outcome
    case RateLimited => Greatest(retryAfter, 15 * MINUTE)
    case AuthError => 15 * MINUTE
    case NotFound => DAY
    case PermanentError => DAY
    case InvalidPayload => HOUR
    case Quarantined => HOUR
    case _ => Greatest(retryAfter, backoffDraw % (FailureDelay(failures) + 1))
  }

  function RawHash(f: Fetch): string { if f.Fetched? then f.rawHash else "" }

  /** policyForTarget of the claimed row. */
  function PolicyForTarget(t: Target): Policy {
    RowPolicy(PolicyFor(t.kind, t.duty.status), t.duty.interval, t.duty.minInterval, t.duty.maxInterval,
              t.duty.maxServeAge)
  }

  function BuildInput(k: Key, t: Target, e: Evidence, c: Codec, limit: int): CommitInput {
    var d := Decide(t, e, c, limit);
    var w := e.timing;
    var schedule := NextSchedule(PolicyForTarget(t), t.duty.interval, t.duty.history, d.outcome);
    var ok := Successful(d.outcome);
    CommitInput(
      k.target, k.generation, if t.lease.owner.Some? then t.lease.owner.value else "", d.outcome,
      w.startedAt, w.finishedAt,
      w.finishedAt + (if ok then ApplyJitter(schedule.interval, w.draw)
                      else FailurePause(d.outcome, t.duty.failures + 1, RetryAfter(e.fetch), w.backoffDraw)),
      if ok then schedule.interval else t.duty.interval,
      if ok then 0 else t.duty.failures + 1,
      if ok then schedule.history else t.duty.history,
      if ok then Some(w.finishedAt) else None,
      if ok then Some(t.content.seqNo + 1) else None,
      d.changed, d.hash, d.payload, d.records, d.complete, PARSER_VERSION, RawHash(e.fetch),
      if d.outcome.Changed? || d.outcome.Unchanged? then w.discovered else map[])
  }

  // ---- What a decision guarantees ----

  /** Content is submitted exactly by the `changed` outcome, and is then the canonical form of a validated
      payload with its own hash and count. */
  lemma ChangedCarriesCanonicalContent(t: Target, e: Evidence, c: Codec, limit: int)
    ensures var d := Decide(t, e, c, limit);
            && (d.changed <==> d.outcome.Changed?)
            && (d.changed ==>
                  && e.fetch.Fetched? && ValidPayload(t.kind, e.fetch.value, t.resource, c)
                  && d.payload.Some? && CanonicalValue(t.kind, e.fetch.value, c) == d.payload
                  && d.hash == c.hash(d.payload.value) && d.records == CountRecords(d.payload.value)
                  && KindOf(t.kind, d.payload.value))
  {
  }

  /** A run succeeds without content only against something already published: either the claimed row had a
      snapshot, or the run itself read one. */
  lemma SuccessWithoutContentHasBasis(t: Target, e: Evidence, c: Codec, limit: int)
    ensures var d := Decide(t, e, c, limit);
            Successful(d.outcome) && !d.changed ==>
              t.content.snapshot.Some? || (e.fetch.Fetched? && e.prior.Some?)
  {
  }

  ghost predicate KeepsMost(previous: Value, next: Value) {
    && 5 * |Ids(next)| >= 4 * |Ids(previous)|
    && 10 * |IdSet(previous) * IdSet(next)| >= 9 * |IdSet(previous)|
  }

  lemma CanonicalIdSet(kind: Kind, v: Value, c: Codec)
    requires CanonicalValue(kind, v, c).Some?
    ensures IdSet(CanonicalValue(kind, v, c).value) == IdSet(v)
    ensures |Ids(CanonicalValue(kind, v, c).value)| == |Ids(v)|
  {
    CanonicalKeepsIds(kind, v, c);
    var n := CanonicalValue(kind, v, c).value;
    forall id ensures id in IdSet(n) <==> id in IdSet(v) {
      assert id in IdSet(n) <==> id != "" && id in Ids(n);
      assert id in IdSet(v) <==> id != "" && id in Ids(v);
    }
  }

  /** The count rule needs only the stored count; the id rule also a previous payload that could be read. */
  ghost predicate KeepsEnough(t: Target, e: Evidence, next: Value) {
    && 5 * |Ids(next)| >= 4 * t.content.records
    && (e.prior.Some? && KindOf(t.kind, e.prior.value.payload) ==>
          10 * |IdSet(e.prior.value.payload) * IdSet(next)| >= 9 * |IdSet(e.prior.value.payload)|)
  }

  lemma UnsuspiciousKeepsEnough(t: Target, e: Evidence, c: Codec)
    requires e.fetch.Fetched? && CanonicalValue(t.kind, e.fetch.value, c).Some? && !IsSuspicious(t, e)
    requires t.content.snapshot.Some? && t.content.records >= 2
    ensures KeepsEnough(t, e, CanonicalValue(t.kind, e.fetch.value, c).value)
  {
    CanonicalIdSet(t.kind, e.fetch.value, c);
    UnsuspiciousKeepsMost(|Ids(e.fetch.value)|, IdSet(e.fetch.value), PreviousCount(t), PreviousIds(t, e));
  }

  /** No unconfirmed destructive change, at the level of one run: when the row's stored count is at least two,
      changed content keeps four fifths of it and, when the previous payload could be read, nine tenths of its
      ids, or a second fetch reproduced it. */
  lemma ChangeIsSafeOrConfirmed(t: Target, e: Evidence, c: Codec, limit: int)
    requires t.content.snapshot.Some? && t.content.records >= 2
    ensures var d := Decide(t, e, c, limit);
            d.changed ==>
              || KeepsEnough(t, e, d.payload.value)
              || Confirmed(t, e, Canonicalized(d.payload.value, d.hash, d.records), c, limit)
  {
    var d := Decide(t, e, c, limit);
    if d.changed {
      ChangedMeans(t, e, c, limit);
      if !IsSuspicious(t, e) { UnsuspiciousKeepsEnough(t, e, c); }
    }
  }

  lemma ChangedMeans(t: Target, e: Evidence, c: Codec, limit: int)
    requires Decide(t, e, c, limit).changed
    ensures e.fetch.Fetched? && CanonicalValue(t.kind, e.fetch.value, c).Some?
    ensures var d := Decide(t, e, c, limit);
            && d.payload == CanonicalValue(t.kind, e.fetch.value, c)
            && (IsSuspicious(t, e) ==> Confirmed(t, e, Canonicalized(d.payload.value, d.hash, d.records), c, limit))
  {
  }

  /** On the parse path a changed verdict always means different canonical content, and the verdict is exactly
      whether the canonical content differs from the content the row's hash stands for, if and only if the two do
      not collide. */
  lemma VerdictIsExact(t: Target, e: Evidence, c: Codec, limit: int, published: Value)
    requires e.fetch.Fetched? && !RawHashUnchanged(e)
    requires HasContentHash(t) && t.content.hash.value == c.hash(published)
    requires Successful(Decide(t, e, c, limit).outcome)
    ensures var d := Decide(t, e, c, limit);
            var canonical := CanonicalValue(t.kind, e.fetch.value, c);
            && canonical.Some? && (d.changed ==> canonical.value != published)
            && ((d.changed <==> canonical.value != published) <==> NoCollision(c, canonical.value, published))
  {
  }
}
