/** Which outcome every run gets, read off the ledger: the verdicts of accepted commits against what was fetched, what
    it replaced and what failed, and the columns each outcome submits. */
module Verdicts {
  import opened Domain
  import opened Canonical
  import opened Validation
  import opened Policy
  import opened Repository
  import opened Coordinator
  import opened Fencing
  import opened Pipeline

  // ---- One run ----

  /** A single page whose bytes hash as those the snapshot was parsed from, by the same parser. */
  predicate SameBytes(f: Fetch, snap: Snapshot)
    requires f.Fetched?
  {
    f.rawHash != "" && f.rawHash == snap.rawHash && snap.parser == "warwick-v1" && f.pages <= 1
  }

  predicate Skipped(e: Evidence)
    requires e.fetch.Fetched?
  {
    e.prior.Some? && SameBytes(e.fetch, e.prior.value)
  }

  /** Valid for this target and, in canonical form, no larger than the limit. */
  predicate Acceptable(kind: Kind, resource: string, v: Value, c: Codec, limit: int) {
    limit > 0 && ValidPayload(kind, v, resource, c) && c.size(CanonicalValue(kind, v, c).value) <= limit
  }

  /** A refetch of the right kind and size that canonicalises to the same hash and count. */
  predicate Reproduced(kind: Kind, v: Value, again: Refetch, c: Codec, limit: int)
    requires KindOf(kind, v)
  {
    && again.Refetched? && KindOf(kind, again.value)
    && var first, second := CanonicalValue(kind, v, c).value, CanonicalValue(kind, again.value, c).value;
       c.size(second) <= limit && c.hash(second) == c.hash(first) && CountRecords(second) == CountRecords(first)
  }

  /** From `was` known records to `now`: nothing is left, or of at least two fewer than four fifths, or of the ids of
      a previous payload that could be read fewer than nine tenths. */
  predicate Alarming(was: nat, ids: set<string>, v: Value) {
    && was > 0
    && (|| |Ids(v)| == 0
        || (was >= 2 && (5 * |Ids(v)| < 4 * was || 10 * |ids * IdSet(v)| < 9 * |ids|)))
  }

  lemma SuspiciousIsAlarming(count: nat, v: Value, was: nat, ids: set<string>)
    requires count == |Ids(v)|
    ensures Suspicious(count, IdSet(v), was, ids) <==> Alarming(was, ids, v)
  {
    if was >= 2 { UnsuspiciousKeepsMost(count, IdSet(v), was, ids); }
  }

  lemma RowIsAlarming(t: Target, e: Evidence)
    requires e.fetch.Fetched?
    ensures IsSuspicious(t, e) <==>
            && t.content.snapshot.Some?
            && Alarming(t.content.records,
                        if e.prior.Some? && KindOf(t.kind, e.prior.value.payload) then IdSet(e.prior.value.payload)
                        else {}, e.fetch.value)
  {
    SuspiciousIsAlarming(|Ids(e.fetch.value)|, e.fetch.value, PreviousCount(t), PreviousIds(t, e));
  }

  /** What a parsed run decides, as four exclusive cases. */
  ghost predicate ParsedVerdict(t: Target, e: Evidence, alarm: bool, d: Decision, c: Codec, limit: int)
    requires e.fetch.Fetched?
  {
    var fine := Acceptable(t.kind, t.resource, e.fetch.value, c, limit);
    var stopped := fine && alarm && !Reproduced(t.kind, e.fetch.value, e.refetch, c, limit);
    var same := fine && t.content.snapshot.Some? && t.content.hash.Some? && t.content.hash.value != 0
                && t.content.hash.value == c.hash(CanonicalValue(t.kind, e.fetch.value, c).value);
    && (d.outcome.InvalidPayload? <==> !fine)
    && (d.outcome.Quarantined? <==> stopped)
    && (d.outcome.Unchanged? <==> fine && !stopped && same)
    && (d.outcome.Changed? <==> fine && !stopped && !same)
    && d.records == (if fine then CountRecords(e.fetch.value) else 0)
    && (d.complete <==>
          && fine && !stopped && (e.fetch.expectedPages <= 0 || e.fetch.pages >= e.fetch.expectedPages)
          && (e.fetch.reported <= 0 || |Ids(e.fetch.value)| == e.fetch.reported))
  }

  lemma CanonicalKeepsCount(kind: Kind, v: Value, c: Codec)
    requires KindOf(kind, v)
    ensures CountRecords(CanonicalValue(kind, v, c).value) == CountRecords(v)
  {
    CanonicalKeepsIds(kind, v, c);
  }

  lemma CanonicalizeMeans(kind: Kind, v: Value, c: Codec, limit: int)
    ensures Canonicalize(kind, v, c, limit).Some? <==>
            limit > 0 && KindOf(kind, v) && c.size(CanonicalValue(kind, v, c).value) <= limit
    ensures Canonicalize(kind, v, c, limit).Some? ==>
              var n := CanonicalValue(kind, v, c).value;
              Canonicalize(kind, v, c, limit).value == Canonicalized(n, c.hash(n), CountRecords(v))
  {
    if KindOf(kind, v) { CanonicalKeepsCount(kind, v, c); }
  }

  lemma ConfirmedMeans(t: Target, e: Evidence, first: Canonicalized, c: Codec, limit: int)
    requires e.fetch.Fetched? && Canonicalize(t.kind, e.fetch.value, c, limit) == Some(first)
    ensures Confirmed(t, e, first, c, limit) <==> Reproduced(t.kind, e.fetch.value, e.refetch, c, limit)
  {
  }

  lemma RejectedOutcome(t: Target, e: Evidence, c: Codec, limit: int)
    requires e.fetch.Fetched? && !Skipped(e) && !Acceptable(t.kind, t.resource, e.fetch.value, c, limit)
    ensures Decide(t, e, c, limit) == Decision(InvalidPayload, false, None, 0, 0, false)
  {
    CanonicalizeMeans(t.kind, e.fetch.value, c, limit);
  }

  lemma AcceptedOutcome(t: Target, e: Evidence, c: Codec, limit: int)
    requires e.fetch.Fetched? && !Skipped(e) && Acceptable(t.kind, t.resource, e.fetch.value, c, limit)
    ensures var n := CanonicalValue(t.kind, e.fetch.value, c).value;
            var count, complete := CountRecords(e.fetch.value), Complete(e.fetch, |Ids(e.fetch.value)|);
            Decide(t, e, c, limit) ==
              if IsSuspicious(t, e) && !Reproduced(t.kind, e.fetch.value, e.refetch, c, limit) then
                Decision(Quarantined, false, None, 0, count, false)
              else if !HasContentHash(t) || c.hash(n) != t.content.hash.value then
                Decision(Changed, true, Some(n), c.hash(n), count, complete)
              else Decision(Unchanged, false, None, 0, count, complete)
  {
    CanonicalizeMeans(t.kind, e.fetch.value, c, limit);
    ConfirmedMeans(t, e, Canonicalize(t.kind, e.fetch.value, c, limit).value, c, limit);
  }

  lemma ParsedOutcome(t: Target, e: Evidence, c: Codec, limit: int)
    requires e.fetch.Fetched? && !Skipped(e)
    ensures ParsedVerdict(t, e, IsSuspicious(t, e), Decide(t, e, c, limit), c, limit)
  {
    if Acceptable(t.kind, t.resource, e.fetch.value, c, limit) {
      AcceptedOutcome(t, e, c, limit);
    } else {
      RejectedOutcome(t, e, c, limit);
    }
  }

  /** One fetched run, both ways: the same bytes are unchanged unparsed; otherwise the payload is rejected, held back,
      unchanged or changed by conditions on the payload, the claimed row and the refetch. */
  lemma FetchedOutcome(t: Target, e: Evidence, c: Codec, limit: int)
    requires e.fetch.Fetched?
    ensures var d := Decide(t, e, c, limit);
            if Skipped(e) then d == Decision(Unchanged, false, None, 0, 0, false)
            else ParsedVerdict(t, e, IsSuspicious(t, e), d, c, limit)
  {
    if !Skipped(e) { ParsedOutcome(t, e, c, limit); }
  }

  /** What each failed fetch is recorded as, both ways. */
  ghost predicate FailureRecorded(f: Failure, o: Outcome) {
    var status := f.UpstreamStatus?;
    && (o.RateLimited? <==> f.UpstreamRateLimit? || (status && f.code == 429))
    && (o.AuthError? <==> f.AuthExpired? || f.AuthConflict?)
    && (o.InvalidPayload? <==> f.MalformedBody?)
    && (o.NotFound? <==> status && (f.code == 404 || f.code == 410))
    && (o.PermanentError? <==>
          status && 400 <= f.code <= 499 && f.code != 404 && f.code != 410 && f.code != 408 && f.code != 425
          && f.code != 429)
    && (o.TransientError? <==>
          || f.OtherFetchError? || f.Timeout? || f.UnknownError?
          || (status && (f.code < 400 || f.code > 499 || f.code == 408 || f.code == 425)))
  }

  /** A run that fetched nothing submits nothing but its outcome. */
  lemma FailedOutcome(t: Target, e: Evidence, c: Codec, limit: int)
    requires !e.fetch.Fetched?
    ensures var d := Decide(t, e, c, limit);
            && d == Decision(d.outcome, false, None, 0, 0, false)
            && (e.fetch.FetchCanceled? <==> d.outcome.Canceled?)
            && (e.fetch.FetchFailed? ==> FailureRecorded(e.fetch.failure, d.outcome))
            && (e.fetch.FetchNotModified? ==>
                  d.outcome == if t.content.snapshot.Some? then NotModified else InvalidPayload)
  {
  }

  // ---- The ledger ----

  /** The previous payload of an entry, in numbers: its records when it is a catalog or a roster of profiles, its ids
      when the run could read it. */
  ghost predicate AlarmOf(e: Entry)
    requires e.evidence.fetch.Fetched?
  {
    && e.replaced.Some?
    && var was := e.replaced.value.payload;
       && (was.Catalog? || was.Profiles?)
       && Alarming(|Ids(was)|, if e.evidence.prior.Some? then IdSet(was) else {}, e.evidence.fetch.value)
  }

  /** The outcome of an accepted commit from what its run fetched and what it replaced. */
  ghost predicate Justified(target: Target, e: Entry, c: Codec, limit: int)
    requires e.evidence.fetch.Fetched?
  {
    var value, o := e.evidence.fetch.value, e.input.outcome;
    var fine := Acceptable(target.kind, target.resource, value, c, limit);
    var stopped := fine && AlarmOf(e) && !Reproduced(target.kind, value, e.evidence.refetch, c, limit);
    if e.evidence.prior.Some? && e.replaced.Some? && SameBytes(e.evidence.fetch, e.replaced.value) then o.Unchanged?
    else
      && (o.InvalidPayload? <==> !fine)
      && (o.Quarantined? <==> stopped)
      && (o.Unchanged? <==>
            && fine && !stopped && e.replaced.Some?
            && c.hash(CanonicalValue(target.kind, value, c).value) == c.hash(e.replaced.value.payload))
      && (o.Changed? <==>
            && fine && !stopped
            && (e.replaced.Some? ==>
                  c.hash(CanonicalValue(target.kind, value, c).value) != c.hash(e.replaced.value.payload)))
  }

  lemma EntryAlarm(s: System, e: Entry, c: Codec, limit: int)
    requires EntrySound(s, e, c, limit) && e.evidence.fetch.Fetched?
    ensures IsSuspicious(s.attempts[KeyOf(e.input)].row, e.evidence) <==> AlarmOf(e)
  {
    var row := s.attempts[KeyOf(e.input)].row;
    RowIsAlarming(row, e.evidence);
    if e.replaced.Some? {
      CanonicalHasKind(row.kind, e.replaced.value.payload, c);
    }
  }

  lemma EntryJustified(s: System, e: Entry, c: Codec, limit: int)
    requires EntrySound(s, e, c, limit) && e.evidence.fetch.Fetched?
    ensures Justified(s.attempts[KeyOf(e.input)].row, e, c, limit)
  {
    FetchedOutcome(s.attempts[KeyOf(e.input)].row, e.evidence, c, limit);
    EntryAlarm(s, e, c, limit);
  }

  lemma {:induction false} EntryAt(steps: seq<Step>, c: Codec, limit: int, j: nat)
    requires DisciplinedRun(steps, c, limit) && j < |After(Initial(), steps).ledger|
    ensures var s := After(Initial(), steps);
            var e := s.ledger[j];
            && EntrySound(s, e, c, limit) && !e.evidence.fetch.FetchCanceled? && e.input.target in s.store.targets
            && s.attempts[KeyOf(e.input)].row.kind == s.store.targets[e.input.target].kind
            && s.attempts[KeyOf(e.input)].row.resource == s.store.targets[e.input.target].resource
  {
    DisciplinedRunsSound(steps, c, limit);
    var s := After(Initial(), steps);
    assert EntrySound(s, s.ledger[j], c, limit);
  }

  /** In every disciplined run, every accepted commit of a fetched payload has exactly the outcome its payload and the
      snapshot it replaced call for: which payloads are rejected, which are held back, which are taken for the same
      content and which are published. */
  lemma {:induction false} OutcomesAreJustified(steps: seq<Step>, c: Codec, limit: int, j: nat)
    requires DisciplinedRun(steps, c, limit) && j < |After(Initial(), steps).ledger|
    requires After(Initial(), steps).ledger[j].evidence.fetch.Fetched?
    ensures var s := After(Initial(), steps);
            && s.ledger[j].input.target in s.store.targets
            && Justified(s.store.targets[s.ledger[j].input.target], s.ledger[j], c, limit)
  {
    EntryAt(steps, c, limit, j);
    var s := After(Initial(), steps);
    EntryJustified(s, s.ledger[j], c, limit);
  }

  /** Every accepted commit of a run that fetched nothing: the outcome its failure calls for, or an unmodified answer,
      which validates exactly when there is something published. */
  lemma {:induction false} FailuresAreRecorded(steps: seq<Step>, c: Codec, limit: int, j: nat)
    requires DisciplinedRun(steps, c, limit) && j < |After(Initial(), steps).ledger|
    requires !After(Initial(), steps).ledger[j].evidence.fetch.Fetched?
    ensures var e := After(Initial(), steps).ledger[j];
            && (e.evidence.fetch.FetchFailed? ==> FailureRecorded(e.evidence.fetch.failure, e.input.outcome))
            && (!e.evidence.fetch.FetchFailed? ==>
                  && e.evidence.fetch.FetchNotModified?
                  && e.input.outcome == if e.replaced.Some? then NotModified else InvalidPayload)
  {
    EntryAt(steps, c, limit, j);
    var s := After(Initial(), steps);
    FailedOutcome(s.attempts[KeyOf(s.ledger[j].input)].row, s.ledger[j].evidence, c, limit);
  }

  // ---- Verdicts and information ----

  /** First content is always published; later content only if it differs, and whenever it differs unless the hash
      confuses it with what is published. */
  ghost predicate ExactVerdict(kind: Kind, e: Entry, c: Codec)
    requires e.evidence.fetch.Fetched?
  {
    var fetched := e.evidence.fetch.value;
    && (e.replaced.None? ==> e.input.outcome.Changed?)
    && (e.replaced.Some? ==>
          var published := e.replaced.value.payload;
          var different := !SameInformation(fetched, published, c);
          && CanonicalValue(kind, fetched, c).Some?
          && (e.input.outcome.Changed? ==> different)
          && ((e.input.outcome.Changed? <==> different)
              <==> NoCollision(c, CanonicalValue(kind, fetched, c).value, published)))
  }

  lemma EntryIsExact(s: System, e: Entry, c: Codec, limit: int)
    requires EntrySound(s, e, c, limit) && StampIdempotent(c) && Successful(e.input.outcome)
    requires e.evidence.fetch.Fetched? && !Skipped(e.evidence)
    ensures ExactVerdict(s.attempts[KeyOf(e.input)].row.kind, e, c)
  {
    var row := s.attempts[KeyOf(e.input)].row;
    FetchedOutcome(row, e.evidence, c, limit);
    if e.replaced.Some? {
      var published := e.replaced.value.payload;
      CanonicalHasKind(row.kind, published, c);
      CanonicalCharacterized(row.kind, e.evidence.fetch.value, published, c);
    }
  }

  /** The successful verdict of a fetched run is about the row it replaces: it is exact, or the run was skipped because
      one page came back with the bytes the replaced snapshot was parsed from by the present parser. */
  lemma {:induction false} VerdictsAreExact(steps: seq<Step>, c: Codec, limit: int, j: nat)
    requires DisciplinedRun(steps, c, limit) && j < |After(Initial(), steps).ledger| && StampIdempotent(c)
    requires var e := After(Initial(), steps).ledger[j]; Successful(e.input.outcome) && e.evidence.fetch.Fetched?
    ensures var s := After(Initial(), steps);
            var e := s.ledger[j];
            && e.input.target in s.store.targets
            && (|| ExactVerdict(s.store.targets[e.input.target].kind, e, c)
                || (&& e.replaced.Some? && e.evidence.fetch.rawHash != ""
                    && e.evidence.fetch.rawHash == e.replaced.value.rawHash
                    && e.replaced.value.parser == "warwick-v1" && e.evidence.fetch.pages <= 1
                    && e.input.outcome.Unchanged?))
  {
    EntryAt(steps, c, limit, j);
    var s := After(Initial(), steps);
    if Skipped(s.ledger[j].evidence) { EntryJustified(s, s.ledger[j], c, limit); }
    else { EntryIsExact(s, s.ledger[j], c, limit); }
  }

  lemma SameContentIsExact(kind: Kind, e: Entry, c: Codec)
    requires e.evidence.fetch.Fetched? && e.replaced.Some? && e.input.outcome.Unchanged? && StampIdempotent(c)
    requires IsCanonical(kind, e.replaced.value.payload, c)
    requires SameInformation(e.evidence.fetch.value, e.replaced.value.payload, c)
    ensures ExactVerdict(kind, e, c)
  {
    var fetched, published := e.evidence.fetch.value, e.replaced.value.payload;
    CanonicalHasKind(kind, published, c);
    var w :| CanonicalValue(kind, w, c) == Some(published) && DistinctIds(w);
    CanonicalCharacterized(kind, w, published, c);
    assert SameInformation(w, fetched, c);
    CanonicalCharacterized(kind, w, fetched, c);
  }

  /** So where equal bytes mean equal information, the verdict of every fetched run is exact. */
  lemma {:induction false} SkippingIsSound(steps: seq<Step>, c: Codec, limit: int, j: nat)
    requires DisciplinedRun(steps, c, limit) && j < |After(Initial(), steps).ledger| && StampIdempotent(c)
    requires var e := After(Initial(), steps).ledger[j];
             && Successful(e.input.outcome) && e.evidence.fetch.Fetched?
             && (e.replaced.Some? && SameBytes(e.evidence.fetch, e.replaced.value) ==>
                   SameInformation(e.evidence.fetch.value, e.replaced.value.payload, c))
    ensures var s := After(Initial(), steps);
            && s.ledger[j].input.target in s.store.targets
            && ExactVerdict(s.store.targets[s.ledger[j].input.target].kind, s.ledger[j], c)
  {
    EntryAt(steps, c, limit, j);
    VerdictsAreExact(steps, c, limit, j);
    var s := After(Initial(), steps);
    var e := s.ledger[j];
    if !ExactVerdict(s.store.targets[e.input.target].kind, e, c) {
      SameContentIsExact(s.store.targets[e.input.target].kind, e, c);
    }
  }

  // ---- What each outcome submits ----

  /** One minute after the first failure, doubling with each further one, an hour at most. */
  lemma FailureDelayDoubles(failures: nat)
    requires failures >= 1
    ensures FailureDelay(1) == 60 * SECOND
    ensures FailureDelay(failures + 1) == if 2 * FailureDelay(failures) < 3600 * SECOND then 2 * FailureDelay(failures)
                                          else 3600 * SECOND
  {
  }

  /** How long an unsuccessful run waits, in seconds; the server's Retry-After counts where it sent one with a status
      that may be retried. */
  ghost predicate PauseIs(e: Evidence, o: Outcome, failures: nat, pause: int) {
    var asked := if e.fetch.FetchFailed? && e.fetch.failure.UpstreamStatus?
                    && (e.fetch.failure.code == 429 || e.fetch.failure.code == 408 || e.fetch.failure.code == 425
                        || e.fetch.failure.code == 500 || 502 <= e.fetch.failure.code <= 504)
                 then e.fetch.failure.retryAfter else 0;
    && (o.RateLimited? ==> pause >= asked && pause >= 900 * SECOND && (pause == asked || pause == 900 * SECOND))
    && (o.AuthError? ==> pause == 900 * SECOND)
    && (o.NotFound? || o.PermanentError? ==> pause == 86400 * SECOND)
    && (o.InvalidPayload? || o.Quarantined? ==> pause == 3600 * SECOND)
    && (o.TransientError? ==>
          var drawn := e.timing.backoffDraw % (FailureDelay(failures) + 1);
          pause >= asked && pause >= drawn && (pause == asked || pause == drawn))
  }

  /** The policy a run works with: the columns of its row, where they are positive, over that of its kind. */
  function ColumnsOver(t: Target): Policy {
    var d, base := t.duty, PolicyFor(t.kind, t.duty.status);
    Policy(if d.interval > 0 then d.interval else base.initial, if d.minInterval > 0 then d.minInterval else base.min,
           if d.maxInterval > 0 then d.maxInterval else base.max,
           if d.maxServeAge > 0 then d.maxServeAge else base.maxServeAge)
  }

  /** Every column a run submits, from the row it claimed and its outcome. */
  ghost predicate Submits(k: Key, t: Target, e: Evidence, i: CommitInput) {
    var ok := i.outcome.Changed? || i.outcome.Unchanged? || i.outcome.NotModified?;
    && i.target == k.target && i.generation == k.generation && (t.lease.owner.Some? ==> i.worker == t.lease.owner.value)
    && i.startedAt == e.timing.startedAt && i.finishedAt == e.timing.finishedAt && i.parser == "warwick-v1"
    && (e.fetch.Fetched? ==> i.rawHash == e.fetch.rawHash)
    && i.discovered == (if i.outcome.Changed? || i.outcome.Unchanged? then e.timing.discovered else map[])
    && (ok ==> i.failures == 0 && i.validatedAt == Some(e.timing.finishedAt) && i.seqAfter == Some(t.content.seqNo + 1))
    && (ok ==>
          && Schedule(i.interval, i.history) == NextSchedule(ColumnsOver(t), t.duty.interval, t.duty.history, i.outcome)
          && i.nextRunAt == e.timing.finishedAt + ApplyJitter(i.interval, e.timing.draw))
    && (!ok ==>
          && i.failures == t.duty.failures + 1 && i.interval == t.duty.interval && i.history == t.duty.history
          && i.validatedAt.None? && i.seqAfter.None? && i.payload.None? && !i.changed
          && PauseIs(e, i.outcome, t.duty.failures + 1, i.nextRunAt - e.timing.finishedAt))
  }

  lemma BuiltSubmits(k: Key, t: Target, e: Evidence, c: Codec, limit: int)
    ensures Submits(k, t, e, BuildInput(k, t, e, c, limit))
  {
  }

  /** Every accepted commit of every disciplined run submitted these columns, from the row its own claim returned. */
  lemma {:induction false} SubmissionsAreExact(steps: seq<Step>, c: Codec, limit: int, j: nat)
    requires DisciplinedRun(steps, c, limit) && j < |After(Initial(), steps).ledger|
    ensures var s := After(Initial(), steps);
            var e := s.ledger[j];
            KeyOf(e.input) in s.attempts
            && Submits(KeyOf(e.input), s.attempts[KeyOf(e.input)].row, e.evidence, e.input)
  {
    EntryAt(steps, c, limit, j);
    var s := After(Initial(), steps);
    var e := s.ledger[j];
    BuiltSubmits(KeyOf(e.input), s.attempts[KeyOf(e.input)].row, e.evidence, c, limit);
  }
}
