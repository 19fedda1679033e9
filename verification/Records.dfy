/** The rows as records of what was committed: over every disciplined run each published column of a target, each
    snapshot, each run row and each outbox event is read off the ledger of accepted commits. */
module Records {
  import opened Domain
  import opened Canonical
  import opened Repository
  import opened Coordinator
  import opened Fencing
  import opened Pipeline

  /** The entry is for this target and succeeded, or found it changed. */
  predicate Validates(e: Entry, t: int) {
    && e.input.target == t
    && (e.input.outcome.Changed? || e.input.outcome.Unchanged? || e.input.outcome.NotModified?)
  }

  predicate PublishesFor(e: Entry, t: int) { e.input.target == t && e.input.outcome.Changed? }

  /** The last such entry. */
  function LastValidation(ledger: seq<Entry>, t: int): Option<Entry> {
    if ledger == [] then None
    else if Validates(ledger[|ledger| - 1], t) then Some(ledger[|ledger| - 1])
    else LastValidation(ledger[..|ledger| - 1], t)
  }

  function LastPublication(ledger: seq<Entry>, t: int): Option<Entry> {
    if ledger == [] then None
    else if PublishesFor(ledger[|ledger| - 1], t) then Some(ledger[|ledger| - 1])
    else LastPublication(ledger[..|ledger| - 1], t)
  }

  /** Target and version of every publication, in order. */
  function Outbox(ledger: seq<Entry>): seq<(int, nat)> {
    if ledger == [] then []
    else
      var last := ledger[|ledger| - 1].input;
      Outbox(ledger[..|ledger| - 1]) +
      if last.outcome.Changed? then [(last.target, Publications(ledger, last.target))] else []
  }

  lemma {:induction false} NothingRecorded(ledger: seq<Entry>, t: int)
    requires forall j :: 0 <= j < |ledger| ==> ledger[j].input.target != t
    ensures LastValidation(ledger, t).None? && LastPublication(ledger, t).None?
  {
    if ledger != [] { NothingRecorded(ledger[..|ledger| - 1], t); }
  }

  /** The published columns of a target against its last validation and its last publication. */
  ghost predicate ContentRecorded(s: System, t: int)
    requires t in s.store.targets
  {
    var content := s.store.targets[t].content;
    && (match LastValidation(s.ledger, t)
        case None => content.validatedAt == None
        case Some(e) => content.validatedAt == Some(e.input.finishedAt))
    && (match LastPublication(s.ledger, t)
        case None => content.snapshot == None && content.hash == None && content.records == 0
        case Some(e) =>
          && content.hash == Some(e.input.hash) && content.records == e.input.records && content.snapshot.Some?
          && (content.snapshot.value in s.store.snapshots ==>
                SnapshotFrom(s.store.snapshots[content.snapshot.value], e.input)))
  }

  /** The snapshot row carries what the commit submitted. */
  predicate SnapshotFrom(snap: Snapshot, i: CommitInput) {
    && snap.target == i.target && snap.run == Some(Key(i.target, i.generation)) && snap.hash == i.hash
    && i.payload == Some(snap.payload) && snap.rawHash == i.rawHash && snap.parser == i.parser
    && snap.fetchedAt == i.finishedAt
  }

  ghost predicate SnapshotRecorded(s: System, snap: Snapshot) {
    exists j :: 0 <= j < |s.ledger| && SnapshotOf(s.ledger, j, snap)
  }

  ghost predicate RunRecorded(s: System, k: Key, run: Run) {
    exists j :: 0 <= j < |s.ledger| && RunOf(s.ledger, j, k, run)
  }

  /** The snapshot row of the j-th commit: what it submitted, under the version it made. */
  predicate SnapshotOf(ledger: seq<Entry>, j: nat, snap: Snapshot)
    requires j < |ledger|
  {
    && PublishesFor(ledger[j], snap.target) && SnapshotFrom(snap, ledger[j].input)
    && snap.version == Publications(ledger[..j + 1], snap.target)
  }

  /** The run row of the j-th commit; a successful one carries the sequence number it validated. */
  predicate RunOf(ledger: seq<Entry>, j: nat, k: Key, run: Run)
    requires j < |ledger|
  {
    var i := ledger[j].input;
    && k == Key(i.target, i.generation)
    && run.worker == i.worker && run.outcome == i.outcome && run.finishedAt == i.finishedAt
    && run.seqAfter == (if Validates(ledger[j], i.target) then Some(Validations(ledger[..j + 1], i.target)) else None)
  }

  ghost predicate EventsRecorded(s: System) {
    && |s.store.events| == |Outbox(s.ledger)|
    && forall n :: 0 <= n < |s.store.events| ==>
         (s.store.events[n].target, s.store.events[n].version) == Outbox(s.ledger)[n]
  }

  ghost predicate Recorded(s: System) {
    && (forall t :: t in s.store.targets ==> ContentRecorded(s, t))
    && (forall id :: id in s.store.snapshots ==> SnapshotRecorded(s, s.store.snapshots[id]))
    && (forall k :: k in s.store.runs ==> RunRecorded(s, k, s.store.runs[k]))
    && EventsRecorded(s)
  }

  // ---- Steps that publish nothing ----

  lemma QuietKeepsRecords(s: System, s': System)
    requires Recorded(s) && Fenced(s) && Quiet(s, s')
    ensures Recorded(s')
  {
    forall t | t in s'.store.targets ensures ContentRecorded(s', t) {
      if t in s.store.targets {
        assert ContentRecorded(s, t);
      } else {
        forall j | 0 <= j < |s.ledger| ensures s.ledger[j].input.target != t {
          assert Dead(s.store, KeyOf(s.ledger[j].input));
        }
        NothingRecorded(s.ledger, t);
      }
    }
    forall id | id in s'.store.snapshots ensures SnapshotRecorded(s', s'.store.snapshots[id]) {
      assert SnapshotRecorded(s, s.store.snapshots[id]);
    }
    forall k | k in s'.store.runs ensures RunRecorded(s', k, s'.store.runs[k]) {
      assert RunRecorded(s, k, s.store.runs[k]);
    }
  }

  lemma DropKeepsRecords(s: System, step: Step)
    requires Recorded(s) && (step.DropSnapshots? || step.DropRuns?)
    ensures Recorded(Next(s, step))
  {
    var s' := Next(s, step);
    DropIsShed(s, step);
    forall t | t in s'.store.targets ensures ContentRecorded(s', t) { assert ContentRecorded(s, t); }
    forall id | id in s'.store.snapshots ensures SnapshotRecorded(s', s'.store.snapshots[id]) {
      assert SnapshotRecorded(s, s.store.snapshots[id]);
    }
    forall k | k in s'.store.runs ensures RunRecorded(s', k, s'.store.runs[k]) {
      assert s'.store.runs[k] == s.store.runs[k];
      assert RunRecorded(s, k, s.store.runs[k]);
    }
  }

  // ---- A commit ----

  /** What the proofs below need of an accepted, disciplined commit. */
  ghost predicate Appended(s: System, e: Entry, s': System) {
    && CommitEffect(s.store, e.input, s'.store) && s'.ledger == s.ledger + [e]
    && (Successful(e.input.outcome) ==> e.input.validatedAt == Some(e.input.finishedAt))
    && (e.input.changed <==> e.input.outcome.Changed?)
  }

  lemma NewRowRecorded(s: System, e: Entry, s': System, t: int)
    requires LedgerDead(s) && Appended(s, e, s') && t in s'.store.targets && t !in s.store.targets
    ensures ContentRecorded(s', t)
  {
    assert s'.ledger[..|s.ledger|] == s.ledger;
    forall j | 0 <= j < |s.ledger| ensures s.ledger[j].input.target != t {
      assert Dead(s.store, KeyOf(s.ledger[j].input));
    }
    NothingRecorded(s.ledger, t);
  }

  lemma OtherRowRecorded(s: System, e: Entry, s': System, t: int)
    requires Appended(s, e, s') && t in s.store.targets && t != e.input.target && ContentRecorded(s, t)
    requires var p := s.store.targets[t].content.snapshot; p.Some? ==> p.value <= s.store.lastSnapshot
    ensures ContentRecorded(s', t)
  {
    assert s'.ledger[..|s.ledger|] == s.ledger;
    assert Weakened(s.store.targets[t], s'.store.targets[t]);
  }

  lemma OwnRowRecorded(s: System, e: Entry, s': System)
    requires Appended(s, e, s') && ContentRecorded(s, e.input.target)
    ensures ContentRecorded(s', e.input.target)
  {
    assert s'.ledger[..|s.ledger|] == s.ledger;
  }

  lemma CommitKeepsContent(s: System, e: Entry, s': System, t: int, c: Codec)
    requires Recorded(s) && LedgerDead(s) && RowsSound(s.store, c) && Appended(s, e, s') && t in s'.store.targets
    ensures ContentRecorded(s', t)
  {
    if t !in s.store.targets {
      NewRowRecorded(s, e, s', t);
    } else if t == e.input.target {
      OwnRowRecorded(s, e, s');
    } else {
      assert PointerSound(s.store, t, c);
      if s.store.targets[t].content.snapshot.Some? {
        assert SnapshotSound(s.store, s.store.targets[t].content.snapshot.value);
      }
      OtherRowRecorded(s, e, s', t);
    }
  }

  lemma CommitKeepsLogs(s: System, e: Entry, s': System)
    requires Recorded(s) && CountsSound(s) && Appended(s, e, s')
    ensures forall id :: id in s'.store.snapshots ==> SnapshotRecorded(s', s'.store.snapshots[id])
    ensures forall k :: k in s'.store.runs ==> RunRecorded(s', k, s'.store.runs[k])
  {
    var n := |s.ledger|;
    assert s'.ledger[n] == e && s'.ledger[..n] == s.ledger && s'.ledger[..n + 1] == s'.ledger;
    forall id | id in s'.store.snapshots ensures SnapshotRecorded(s', s'.store.snapshots[id]) {
      if Publishes(e.input) && id == s.store.lastSnapshot + 1 {
        assert SnapshotOf(s'.ledger, n, s'.store.snapshots[id]);
      } else {
        assert SnapshotRecorded(s, s.store.snapshots[id]);
        var j :| 0 <= j < n && SnapshotOf(s.ledger, j, s.store.snapshots[id]);
        assert s'.ledger[j] == s.ledger[j] && s'.ledger[..j + 1] == s.ledger[..j + 1];
        assert SnapshotOf(s'.ledger, j, s.store.snapshots[id]);
      }
    }
    forall k | k in s'.store.runs ensures RunRecorded(s', k, s'.store.runs[k]) {
      if k == KeyOf(e.input) {
        assert RunOf(s'.ledger, n, k, s'.store.runs[k]);
      } else {
        assert RunRecorded(s, k, s.store.runs[k]);
        var j :| 0 <= j < n && RunOf(s.ledger, j, k, s.store.runs[k]);
        assert s'.ledger[j] == s.ledger[j] && s'.ledger[..j + 1] == s.ledger[..j + 1];
        assert RunOf(s'.ledger, j, k, s.store.runs[k]);
      }
    }
  }

  lemma CommitKeepsEvents(s: System, e: Entry, s': System)
    requires EventsRecorded(s) && CountsSound(s) && Appended(s, e, s')
    ensures EventsRecorded(s')
  {
    assert s'.ledger[..|s.ledger|] == s.ledger;
    assert s'.ledger[|s.ledger|] == e;
  }

  lemma LockKeepsRecords(s: System, step: Step, c: Codec, limit: int)
    requires Recorded(s) && Sound(s, c, limit) && step.Lock? && Disciplined(s, step, c, limit)
    ensures Recorded(Next(s, step))
  {
    if Accepts(s.store, step.input) {
      var s', e := Next(s, step), EntryOf(s, step.input, step.evidence);
      AcceptedRows(s.store, step.input);
      LockAppends(s, step);
      ChangedCarriesCanonicalContent(s.attempts[KeyOf(step.input)].row, step.evidence, c, limit);
      assert Appended(s, e, s');
      forall t | t in s'.store.targets ensures ContentRecorded(s', t) { CommitKeepsContent(s, e, s', t, c); }
      CommitKeepsLogs(s, e, s');
      CommitKeepsEvents(s, e, s');
    }
  }

  lemma {:induction false} RunsRecord(steps: seq<Step>, c: Codec, limit: int)
    requires DisciplinedRun(steps, c, limit)
    ensures Recorded(After(Initial(), steps))
  {
    if steps != [] {
      var earlier, step := steps[..|steps| - 1], steps[|steps| - 1];
      forall n | 0 <= n < |earlier| ensures Disciplined(After(Initial(), earlier[..n]), earlier[n], c, limit) {
        assert earlier[..n] == steps[..n];
      }
      var s := After(Initial(), earlier);
      RunsRecord(earlier, c, limit);
      DisciplinedRunsSound(earlier, c, limit);
      if step.Lock? {
        LockKeepsRecords(s, step, c, limit);
      } else if Silent(step) {
        SilentIsQuiet(s, step);
        QuietKeepsRecords(s, Next(s, step));
      } else {
        DropKeepsRecords(s, step);
      }
    }
  }

  // ---- Read off the ledger by position ----

  /** Position j holds the last entry of this target that validated. */
  ghost predicate IsLastValidation(ledger: seq<Entry>, t: int, j: nat) {
    j < |ledger| && Validates(ledger[j], t) && forall k :: j < k < |ledger| ==> !Validates(ledger[k], t)
  }

  ghost predicate IsLastPublication(ledger: seq<Entry>, t: int, j: nat) {
    j < |ledger| && PublishesFor(ledger[j], t) && forall k :: j < k < |ledger| ==> !PublishesFor(ledger[k], t)
  }

  lemma {:induction false} LastValidationIs(ledger: seq<Entry>, t: int, j: nat)
    requires IsLastValidation(ledger, t, j)
    ensures LastValidation(ledger, t) == Some(ledger[j])
  {
    if j < |ledger| - 1 { LastValidationIs(ledger[..|ledger| - 1], t, j); }
  }

  lemma {:induction false} LastPublicationIs(ledger: seq<Entry>, t: int, j: nat)
    requires IsLastPublication(ledger, t, j)
    ensures LastPublication(ledger, t) == Some(ledger[j])
  {
    if j < |ledger| - 1 { LastPublicationIs(ledger[..|ledger| - 1], t, j); }
  }

  lemma {:induction false} NoValidation(ledger: seq<Entry>, t: int)
    ensures LastValidation(ledger, t).None? <==> forall j :: 0 <= j < |ledger| ==> !Validates(ledger[j], t)
  {
    if ledger != [] {
      var n := |ledger| - 1;
      NoValidation(ledger[..n], t);
      assert forall j :: 0 <= j < n ==> ledger[..n][j] == ledger[j];
    }
  }

  /** last_validated_at in every disciplined run: none without a successful commit, otherwise the finishing time of the
      last one. */
  lemma {:induction false} ValidationTimeIsLast(steps: seq<Step>, c: Codec, limit: int, t: int, j: nat)
    requires DisciplinedRun(steps, c, limit) && t in After(Initial(), steps).store.targets
    ensures var s := After(Initial(), steps);
            && (s.store.targets[t].content.validatedAt.None? <==>
                  forall k :: 0 <= k < |s.ledger| ==> !Validates(s.ledger[k], t))
            && (IsLastValidation(s.ledger, t, j) ==>
                  s.store.targets[t].content.validatedAt == Some(s.ledger[j].input.finishedAt))
  {
    RunsRecord(steps, c, limit);
    var s := After(Initial(), steps);
    assert ContentRecorded(s, t);
    NoValidation(s.ledger, t);
    if IsLastValidation(s.ledger, t, j) { LastValidationIs(s.ledger, t, j); }
  }

  /** What is published is what the last publishing commit submitted, column by column: payload, hash, count, raw hash,
      parser and fetch time, under the run that fetched it. */
  lemma {:induction false} PublishedIsLast(steps: seq<Step>, c: Codec, limit: int, t: int, j: nat)
    requires DisciplinedRun(steps, c, limit) && t in After(Initial(), steps).store.targets
    requires IsLastPublication(After(Initial(), steps).ledger, t, j)
    ensures var s, i := After(Initial(), steps), After(Initial(), steps).ledger[j].input;
            var content := s.store.targets[t].content;
            && content.hash == Some(i.hash) && content.records == i.records && i.payload.Some?
            && Published(s.store, t) ==
               Some(Snapshot(t, Some(Key(t, i.generation)), content.version, i.hash, i.payload.value, i.rawHash,
                             i.parser, i.finishedAt))
  {
    RunsRecord(steps, c, limit);
    DisciplinedRunsSound(steps, c, limit);
    var s := After(Initial(), steps);
    assert ContentRecorded(s, t) && PointerSound(s.store, t, c);
    LastPublicationIs(s.ledger, t, j);
  }

  /** The outbox is complete and in order: one event for every publication, naming its target and its version. */
  lemma {:induction false} OutboxIsComplete(steps: seq<Step>, c: Codec, limit: int)
    requires DisciplinedRun(steps, c, limit)
    ensures var s := After(Initial(), steps);
            && |s.store.events| == |Outbox(s.ledger)|
            && forall n :: 0 <= n < |s.store.events| ==>
                 (s.store.events[n].target, s.store.events[n].version) == Outbox(s.ledger)[n]
  {
    RunsRecord(steps, c, limit);
  }

  /** Every retained snapshot and run row is the record of one accepted commit. */
  lemma {:induction false} RowsHaveOrigin(steps: seq<Step>, c: Codec, limit: int)
    requires DisciplinedRun(steps, c, limit)
    ensures var s := After(Initial(), steps);
            && (forall id :: id in s.store.snapshots ==> SnapshotRecorded(s, s.store.snapshots[id]))
            && (forall k :: k in s.store.runs ==> RunRecorded(s, k, s.store.runs[k]))
  {
    RunsRecord(steps, c, limit);
  }
}
