/** The snapshot-mode attendance export (internal/service/attendance_export.go): a workflow that restarts once
    when the course advances under it. The store moves on meanwhile: each read names the moment of the
    store's history at which it happens. */
module Export {
  import opened Domain
  import opened Canonical
  import opened Report
  import opened Repository
  import opened Fencing
  import opened Pipeline
  import opened Refresh

  const MAX_SESSIONS := 200

  /** One round of the loop: when its four course reads happen, and how the parts of the round that do not
      read the course row turned out. */
  datatype Trip = Trip(
    baselineAt: nat, metadataAt: nat, detailAt: nat, finalAt: nat,
    refreshed: bool, usable: bool, decodable: bool, dependents: bool, reportable: bool)

  datatype ExportResult =
    | Exported(members: seq<string>, restarts: nat) | CourseNotFound | NotFresh | TooLarge

  /** The reads of a round happen in program order, each at some moment of the history. */
  predicate InOrder(trip: Trip, moments: nat) {
    trip.baselineAt <= trip.metadataAt <= trip.detailAt <= trip.finalAt < moments
  }

  /** What a metadata read answers: the validation sequence of an active target with a current snapshot. */
  function MetadataSeq(s: Store, t: int): Option<nat> {
    if CurrentRead(s, t, true).Some? then Some(SeqOf(s, t)) else None
  }

  function Members(v: Value): seq<string>
    requires v.Course?
  {
    var unique := UniqueSessions(v.sessions);
    seq(|unique|, i requires 0 <= i < |unique| => unique[i].sessionId)
  }

  /** The members are the session ids of the course, each once, in the order of their first occurrence. */
  lemma MembersMean(v: Value, id: string)
    requires v.Course?
    ensures var m, at := Members(v), FirstPlaces(v.sessions, |v.sessions|);
            && (id in m <==> exists i :: 0 <= i < |v.sessions| && v.sessions[i].sessionId == id)
            && (forall i, j :: 0 <= i < j < |m| ==> m[i] != m[j])
            && |at| == |m| && (forall i, j :: 0 <= i < j < |at| ==> at[i] < at[j])
            && forall i :: 0 <= i < |m| ==> at[i] < |v.sessions| && m[i] == v.sessions[at[i]].sessionId
  {
    UniqueSessionsDistinct(v.sessions, id);
    UniqueSessionsFirst(v.sessions, |v.sessions|);
    assert v.sessions[..|v.sessions|] == v.sessions;
    var unique := UniqueSessions(v.sessions);
    assert id in Members(v) <==> HasSession(unique, id) by {
      if HasSession(unique, id) {
        var i :| 0 <= i < |unique| && unique[i].sessionId == id;
        assert Members(v)[i] == id;
      }
    }
  }

  /** The course snapshot published at every moment from one read to the other. */
  ghost predicate CurrentThroughout(history: seq<Store>, t: int, snap: Snapshot, from: nat, until: nat)
    requires until < |history|
  {
    forall n :: from <= n <= until ==> Published(history[n], t) == Some(snap)
  }

  // ---- The sequence number guards the content ----

  ghost predicate Guarded(s: Store, s': Store, t: int) {
    SeqOf(s', t) == SeqOf(s, t) ==> Published(s', t) == Published(s, t)
  }

  lemma QuietGuardsContent(s: System, s': System, t: int)
    requires Quiet(s, s') && t in s.store.targets
    ensures Guarded(s.store, s'.store, t)
  {
  }

  lemma LockGuardsContent(s: System, step: Step, t: int, c: Codec)
    requires RowsSound(s.store, c) && t in s.store.targets && step.Lock?
    ensures Guarded(s.store, Next(s, step).store, t)
  {
    if Accepts(s.store, step.input) {
      LockAppends(s, step);
      AcceptedRows(s.store, step.input);
      PublishedAfterCommit(s.store, step.input, Next(s, step).store, t, c);
    }
  }

  lemma DropGuardsContent(s: System, step: Step, t: int, c: Codec)
    requires RowsSound(s.store, c) && t in s.store.targets && (step.DropSnapshots? || step.DropRuns?)
    ensures Guarded(s.store, Next(s, step).store, t)
  {
    DropIsShed(s, step);
    assert PointerSound(s.store, t, c);
    ShedKeepsPointer(s, Next(s, step), c, t);
  }

  lemma StepGuardsContent(s: System, step: Step, t: int, c: Codec, limit: int)
    requires Sound(s, c, limit) && t in s.store.targets
    ensures Guarded(s.store, Next(s, step).store, t)
  {
    if step.Lock? {
      LockGuardsContent(s, step, t, c);
    } else if Silent(step) {
      SilentIsQuiet(s, step);
      QuietGuardsContent(s, Next(s, step), t);
    } else {
      DropGuardsContent(s, step, t, c);
    }
  }

  lemma PublishedAfterCommit(s: Store, i: CommitInput, s': Store, t: int, c: Codec)
    requires CommitEffect(s, i, s') && t in s.targets && RowsSound(s, c)
    ensures Guarded(s, s', t)
  {
    assert PointerSound(s, t, c);
    if t != i.target { assert Weakened(s.targets[t], s'.targets[t]); }
    if s.targets[t].content.snapshot.Some? { assert SnapshotSound(s, s.targets[t].content.snapshot.value); }
  }

  /** From one moment to the next the sequence number does not fall, and it rises if the content changes. */
  ghost predicate Advances(s: Store, s': Store, t: int) {
    SeqOf(s, t) <= SeqOf(s', t) && (t in s.targets ==> t in s'.targets && Guarded(s, s', t))
  }

  ghost predicate Guards(history: seq<Store>, t: int) {
    forall n :: 0 < n < |history| ==> Advances(history[n - 1], history[n], t)
  }

  /** The stores a run goes through. */
  function History(steps: seq<Step>): seq<Store> {
    if steps == [] then [Initial().store] else History(steps[..|steps| - 1]) + [After(Initial(), steps).store]
  }

  lemma StepAdvances(s: System, step: Step, t: int, c: Codec, limit: int)
    requires Sound(s, c, limit)
    ensures Advances(s.store, Next(s, step).store, t)
  {
    SequenceOnlyGrows(s, step, t);
    if t in s.store.targets { StepGuardsContent(s, step, t, c, limit); }
  }

  lemma {:induction false} DisciplinedPrefix(steps: seq<Step>, c: Codec, limit: int)
    requires DisciplinedRun(steps, c, limit) && steps != []
    ensures DisciplinedRun(steps[..|steps| - 1], c, limit)
  {
    var earlier := steps[..|steps| - 1];
    forall i | 0 <= i < |earlier| ensures Disciplined(After(Initial(), earlier[..i]), earlier[i], c, limit) {
      assert earlier[..i] == steps[..i];
    }
  }

  lemma {:induction false} HistoryEnds(steps: seq<Step>)
    ensures |History(steps)| == |steps| + 1 && History(steps)[|steps|] == After(Initial(), steps).store
  {
    if steps != [] { HistoryEnds(steps[..|steps| - 1]); }
  }

  lemma GuardsExtends(history: seq<Store>, next: Store, t: int)
    requires Guards(history, t) && history != [] && Advances(history[|history| - 1], next, t)
    ensures Guards(history + [next], t)
  {
  }

  /** In every disciplined run validation_seq works as a seqlock on the published content of each target. */
  lemma {:induction false} RunsGuard(steps: seq<Step>, c: Codec, limit: int, t: int)
    requires DisciplinedRun(steps, c, limit)
    ensures Guards(History(steps), t)
  {
    if steps != [] {
      var earlier := steps[..|steps| - 1];
      DisciplinedPrefix(steps, c, limit);
      RunsGuard(earlier, c, limit, t);
      HistoryEnds(earlier);
      DisciplinedRunsSound(earlier, c, limit);
      StepAdvances(After(Initial(), earlier), steps[|steps| - 1], t, c, limit);
      GuardsExtends(History(earlier), After(Initial(), steps).store, t);
    }
  }

  lemma {:induction false} SeqMonotone(history: seq<Store>, t: int, m: nat, n: nat)
    requires Guards(history, t) && m <= n < |history|
    ensures SeqOf(history[m], t) <= SeqOf(history[n], t)
    ensures t in history[m].targets ==> t in history[n].targets
    decreases n
  {
    if m < n {
      SeqMonotone(history, t, m, n - 1);
      assert Advances(history[n - 1], history[n], t);
    }
  }

  /** Equal sequence numbers at two moments mean one snapshot was published all the time between. */
  lemma {:induction false} SeqLock(history: seq<Store>, t: int, m: nat, n: nat, k: nat)
    requires Guards(history, t) && m <= k <= n < |history| && t in history[m].targets
    requires SeqOf(history[m], t) == SeqOf(history[n], t)
    ensures Published(history[k], t) == Published(history[m], t)
    decreases k
  {
    if m < k {
      SeqMonotone(history, t, m, k - 1);
      SeqMonotone(history, t, k, n);
      SeqLock(history, t, m, n, k - 1);
      assert Advances(history[k - 1], history[k], t);
    }
  }

  lemma StableTrip(history: seq<Store>, t: int, trip: Trip)
    requires Guards(history, t) && InOrder(trip, |history|) && !Advanced(history, t, trip)
    requires CurrentRead(history[trip.metadataAt], t, true).Some?
    requires CurrentRead(history[trip.detailAt], t, true).Some?
    ensures CurrentThroughout(history, t, CurrentRead(history[trip.detailAt], t, true).value,
                              trip.metadataAt, trip.finalAt)
  {
    SeqMonotone(history, t, trip.metadataAt, trip.finalAt);
    forall n | trip.metadataAt <= n <= trip.finalAt
      ensures Published(history[n], t) == Published(history[trip.metadataAt], t)
    {
      SeqLock(history, t, trip.metadataAt, trip.finalAt, n);
    }
  }

  // ---- The workflow ----

  /** The course was validated again between the metadata read and the restabilisation read. */
  predicate Advanced(history: seq<Store>, t: int, trip: Trip)
    requires InOrder(trip, |history|)
  {
    SeqOf(history[trip.finalAt], t) > SeqOf(history[trip.metadataAt], t)
  }

  /** A round gets as far as comparing the sequence numbers. */
  predicate Completes(history: seq<Store>, t: int, trip: Trip)
    requires InOrder(trip, |history|)
  {
    && trip.refreshed && trip.usable && trip.decodable && trip.dependents
    && CurrentRead(history[trip.baselineAt], t, true).Some?
    && CurrentRead(history[trip.metadataAt], t, true).Some?
    && CurrentRead(history[trip.finalAt], t, true).Some?
    && var detail := CurrentRead(history[trip.detailAt], t, true);
       detail.Some? && detail.value.payload.Course? && |UniqueSessions(detail.value.payload.sessions)| <= MAX_SESSIONS
  }

  /** The round that decides: the second if and only if the first completed on a course that advanced. */
  ghost function LastTrip(history: seq<Store>, t: int, first: Trip, second: Trip): Trip
    requires InOrder(first, |history|)
  {
    if Completes(history, t, first) && Advanced(history, t, first) then second else first
  }

  /** The round read its way to a list of sessions. */
  ghost predicate Lists(history: seq<Store>, t: int, trip: Trip)
    requires InOrder(trip, |history|)
  {
    && PublishedTo(history[trip.baselineAt], t, true) != None && trip.refreshed
    && PublishedTo(history[trip.metadataAt], t, true) != None && trip.usable
    && trip.decodable && PublishedTo(history[trip.detailAt], t, true) != None
    && PublishedTo(history[trip.detailAt], t, true).value.payload.Course?
  }

  /** How the deciding round ends: a course that cannot be read at its start is not found, a list of more than 200
      sessions is too large, and anything else short of a completed round on a course that stands still is not fresh. */
  ghost predicate EndsAs(history: seq<Store>, t: int, trip: Trip, r: ExportResult)
    requires InOrder(trip, |history|)
  {
    && (r.CourseNotFound? <==> PublishedTo(history[trip.baselineAt], t, true) == None)
    && (r.TooLarge? <==>
          && Lists(history, t, trip)
          && |UniqueSessions(PublishedTo(history[trip.detailAt], t, true).value.payload.sessions)| > 200)
    && (r.Exported? <==>
          && Lists(history, t, trip) && trip.dependents && trip.reportable
          && |UniqueSessions(PublishedTo(history[trip.detailAt], t, true).value.payload.sessions)| <= 200
          && PublishedTo(history[trip.finalAt], t, true) != None
          && SeqOf(history[trip.finalAt], t) <= SeqOf(history[trip.metadataAt], t))
    && (r.Exported? ==>
          r.members == Members(PublishedTo(history[trip.detailAt], t, true).value.payload))
  }

  /** One round of the loop. None means that the course advanced under it. */
  method RunRound(history: seq<Store>, t: int, trip: Trip) returns (r: Option<ExportResult>)
    requires Guards(history, t) && InOrder(trip, |history|)
    ensures r.None? <==> Completes(history, t, trip) && Advanced(history, t, trip)
    ensures EndsAs(history, t, trip, if r.None? then NotFresh else r.value)
    ensures r.Some? && r.value.Exported? <==>
              Completes(history, t, trip) && !Advanced(history, t, trip) && trip.reportable
    ensures r.Some? && r.value.Exported? ==>
              && |r.value.members| <= 200
              && exists snap: Snapshot :: snap.payload.Course? && r.value.members == Members(snap.payload)
                   && CurrentThroughout(history, t, snap, trip.metadataAt, trip.finalAt)
  {
    var baseline := MetadataSeq(history[trip.baselineAt], t);
    if baseline.None? { return Some(CourseNotFound); }
    if !trip.refreshed { return Some(NotFresh); }
    var metadata := MetadataSeq(history[trip.metadataAt], t);
    if metadata.None? || !trip.usable { return Some(NotFresh); }
    var detail := CurrentRead(history[trip.detailAt], t, true);
    if detail.None? || !trip.decodable || !detail.value.payload.Course? { return Some(NotFresh); }
    var sessions := Deduplicate(detail.value.payload.sessions);
    if |sessions| > MAX_SESSIONS { return Some(TooLarge); }
    if !trip.dependents { return Some(NotFresh); }
    var restabilized := MetadataSeq(history[trip.finalAt], t);
    if restabilized.None? { return Some(NotFresh); }
    if restabilized.value > metadata.value { return None; }
    if !trip.reportable { return Some(NotFresh); }
    StableTrip(history, t, trip);
    return Some(Exported(Members(detail.value.payload), 0));
  }

  /** FreshExport over the history of a run: whatever the workers and every other transaction do meanwhile. */
  method ExportDuringRun(steps: seq<Step>, t: int, first: Trip, second: Trip, ghost c: Codec, ghost limit: int)
    returns (r: ExportResult)
    requires DisciplinedRun(steps, c, limit) && InOrder(first, |steps| + 1) && InOrder(second, |steps| + 1)
    requires first.finalAt <= second.baselineAt
    ensures |History(steps)| == |steps| + 1
    ensures r.Exported? ==>
              && r.restarts <= 1 && |r.members| <= 200
              && var trip := if r.restarts == 0 then first else second;
                 exists snap: Snapshot :: snap.payload.Course? && r.members == Members(snap.payload)
                   && CurrentThroughout(History(steps), t, snap, trip.metadataAt, trip.finalAt)
    ensures r.Exported? && r.restarts == 0 <==>
              Completes(History(steps), t, first) && !Advanced(History(steps), t, first) && first.reportable
    ensures r.Exported? && r.restarts == 1 <==>
              && Completes(History(steps), t, first) && Advanced(History(steps), t, first)
              && Completes(History(steps), t, second) && !Advanced(History(steps), t, second) && second.reportable
    ensures EndsAs(History(steps), t, LastTrip(History(steps), t, first, second), r)
  {
    RunsGuard(steps, c, limit, t);
    HistoryEnds(steps);
    r := FreshExport(History(steps), t, first, second);
  }

  /** A successful export lists the sessions of a single course snapshot, current from the metadata read after
      the refresh to the restabilisation read of the round that succeeded. It succeeds exactly when the first
      round completes on a course that stands still, or the course advanced and the second one does. */
  method FreshExport(history: seq<Store>, t: int, first: Trip, second: Trip)
    returns (r: ExportResult)
    requires Guards(history, t) && InOrder(first, |history|) && InOrder(second, |history|)
    requires first.finalAt <= second.baselineAt
    ensures r.Exported? ==>
              && r.restarts <= 1 && |r.members| <= 200
              && var trip := if r.restarts == 0 then first else second;
                 exists snap: Snapshot :: snap.payload.Course? && r.members == Members(snap.payload)
                   && CurrentThroughout(history, t, snap, trip.metadataAt, trip.finalAt)
    ensures r.Exported? && r.restarts == 0 <==>
              Completes(history, t, first) && !Advanced(history, t, first) && first.reportable
    ensures r.Exported? && r.restarts == 1 <==>
              && Completes(history, t, first) && Advanced(history, t, first)
              && Completes(history, t, second) && !Advanced(history, t, second) && second.reportable
    ensures EndsAs(history, t, LastTrip(history, t, first, second), r)
  {
    var restarts := 0;
    while true
      invariant 0 <= restarts <= 1
      invariant restarts == 1 ==> Completes(history, t, first) && Advanced(history, t, first)
      decreases 1 - restarts
    {
      var trip := if restarts == 0 then first else second;
      var round := RunRound(history, t, trip);
      if round.Some? {
        return if round.value.Exported? then Exported(round.value.members, restarts) else round.value;
      }
      if restarts > 0 { return NotFresh; }
      restarts := 1;
    }
  }
}
