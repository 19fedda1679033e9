/** The store driven by coordinators: runs in which every commit is the one its worker's coordinator built
    from the claim it holds. The theorems join claim, decision and commit across arbitrary interleavings. */
module Pipeline {
  import opened Domain
  import opened Canonical
  import opened Policy
  import opened Repository
  import opened Coordinator
  import opened Fencing
  import opened Columns

  /** A commit is submitted by a coordinator for its own claim, on the evidence of that run. */
  ghost predicate Disciplined(s: System, step: Step, c: Codec, limit: int) {
    step.Lock? ==>
      var k := KeyOf(step.input);
      && k in s.attempts && !step.evidence.fetch.FetchCanceled?
      && step.input == BuildInput(k, s.attempts[k].row, step.evidence, c, limit)
      && (step.evidence.fetch.Fetched? ==> s.attempts[k].prior == Some(step.evidence.prior))
  }

  ghost predicate DisciplinedRun(steps: seq<Step>, c: Codec, limit: int) {
    forall n :: 0 <= n < |steps| ==> Disciplined(After(Initial(), steps[..n]), steps[n], c, limit)
  }

  // ---- Ledgers ----

  function Validations(ledger: seq<Entry>, t: int): nat {
    if ledger == [] then 0
    else
      var last := ledger[|ledger| - 1].input;
      Validations(ledger[..|ledger| - 1], t) + if last.target == t && Successful(last.outcome) then 1 else 0
  }

  function Publications(ledger: seq<Entry>, t: int): nat {
    if ledger == [] then 0
    else
      var last := ledger[|ledger| - 1].input;
      Publications(ledger[..|ledger| - 1], t) + if last.target == t && Publishes(last) then 1 else 0
  }

  lemma {:induction false} NothingCounted(ledger: seq<Entry>, t: int)
    requires forall j :: 0 <= j < |ledger| ==> ledger[j].input.target != t
    ensures Validations(ledger, t) == 0 && Publications(ledger, t) == 0
  {
    if ledger != [] { NothingCounted(ledger[..|ledger| - 1], t); }
  }

  // ---- Soundness of one row, one snapshot, one attempt, one entry ----

  ghost predicate IsCanonical(kind: Kind, v: Value, c: Codec) {
    exists w :: CanonicalValue(kind, w, c) == Some(v) && DistinctIds(w)
  }

  ghost predicate PointerSound(s: Store, t: int, c: Codec)
    requires t in s.targets
  {
    var content := s.targets[t].content;
    match content.snapshot
    case None => content == NO_CONTENT
    case Some(p) =>
      && p in s.snapshots
      && var snap := s.snapshots[p];
         && snap.target == t && snap.version == content.version
         && content.hash == Some(snap.hash) && snap.hash == c.hash(snap.payload) && snap.hash != 0
         && content.records == CountRecords(snap.payload) && IsCanonical(s.targets[t].kind, snap.payload, c)
  }

  ghost predicate SnapshotSound(s: Store, id: int)
    requires id in s.snapshots
  {
    var snap := s.snapshots[id];
    && id <= s.lastSnapshot
    && snap.target in s.targets && 1 <= snap.version <= s.targets[snap.target].content.version
    && snap.run.Some? && snap.run.value in s.runs && s.runs[snap.run.value].outcome.Changed?
  }

  ghost predicate RowsSound(s: Store, c: Codec) {
    && (forall t :: t in s.targets ==> PointerSound(s, t, c))
    && (forall id :: id in s.snapshots ==> SnapshotSound(s, id))
    && (forall e :: e in s.events ==> e.target in s.targets && e.version <= s.targets[e.target].content.version)
  }

  ghost predicate CountsSound(s: System) {
    forall t :: t in s.store.targets ==>
      && s.store.targets[t].content.version == Publications(s.ledger, t)
      && s.store.targets[t].content.seqNo == Validations(s.ledger, t)
  }

  /** A snapshot read during a run proves one is still published, and while the claim lives it is that one. */
  ghost predicate PriorSound(s: System, k: Key)
    requires k in s.attempts
  {
    s.attempts[k].prior.Some? && s.attempts[k].prior.value.Some? ==>
      && k.target in s.store.targets
      && s.store.targets[k.target].content.snapshot.Some?
      && (!Dead(s.store, k) ==> Published(s.store, k.target) == s.attempts[k].prior.value)
  }

  ghost predicate EntrySound(s: System, e: Entry, c: Codec, limit: int) {
    var k := KeyOf(e.input);
    && k in s.attempts && !e.evidence.fetch.FetchCanceled?
    && var row := s.attempts[k].row;
       && e.input == BuildInput(k, row, e.evidence, c, limit)
       && row.content == e.before
       && (e.replaced.Some? <==> e.before.snapshot.Some?) && (e.replaced.None? ==> e.before == NO_CONTENT)
       && (e.replaced.Some? ==>
             && e.before.records == CountRecords(e.replaced.value.payload)
             && e.before.hash == Some(c.hash(e.replaced.value.payload))
             && e.before.hash != Some(0) && IsCanonical(row.kind, e.replaced.value.payload, c))
       && (e.evidence.fetch.Fetched? && e.evidence.prior.Some? ==> e.replaced == e.evidence.prior)
  }

  ghost predicate Sound(s: System, c: Codec, limit: int) {
    && Fenced(s)
    && RowsSound(s.store, c)
    && CountsSound(s)
    && (forall k :: k in s.attempts ==> PriorSound(s, k))
    && (forall j :: 0 <= j < |s.ledger| ==> EntrySound(s, s.ledger[j], c, limit))
  }

  // ---- Steps that publish nothing ----

  /** Same content everywhere, possibly fresh empty rows, attempts kept or added. */
  ghost predicate Quiet(s: System, s': System) {
    && s.store.targets.Keys <= s'.store.targets.Keys
    && (forall t :: t in s'.store.targets && t !in s.store.targets ==> s'.store.targets[t].content == NO_CONTENT)
    && (forall t :: t in s.store.targets ==>
          && s'.store.targets[t].content == s.store.targets[t].content
          && s'.store.targets[t].kind == s.store.targets[t].kind)
    && s'.store.(targets := s.store.targets) == s.store
    && s'.ledger == s.ledger
  }

  lemma QuietKeepsRows(s: System, s': System, c: Codec, limit: int)
    requires Sound(s, c, limit) && Quiet(s, s')
    ensures RowsSound(s'.store, c) && CountsSound(s')
  {
    forall t | t in s'.store.targets ensures PointerSound(s'.store, t, c) {
      if t in s.store.targets { assert PointerSound(s.store, t, c); }
    }
    forall id | id in s'.store.snapshots ensures SnapshotSound(s'.store, id) {
      assert SnapshotSound(s.store, id);
    }
    forall t | t in s'.store.targets && t !in s.store.targets
      ensures Publications(s'.ledger, t) == 0 && Validations(s'.ledger, t) == 0
    {
      forall j | 0 <= j < |s.ledger| ensures s.ledger[j].input.target != t {
        assert Dead(s.store, KeyOf(s.ledger[j].input));
      }
      NothingCounted(s.ledger, t);
    }
  }

  lemma EntriesKept(s: System, s': System, c: Codec, limit: int)
    requires forall j :: 0 <= j < |s.ledger| ==> EntrySound(s, s.ledger[j], c, limit)
    requires forall k :: k in s.attempts ==> k in s'.attempts && s'.attempts[k].row == s.attempts[k].row
    ensures forall j :: 0 <= j < |s.ledger| ==> EntrySound(s', s.ledger[j], c, limit)
  {
    forall j | 0 <= j < |s.ledger| ensures EntrySound(s', s.ledger[j], c, limit) {
      assert EntrySound(s, s.ledger[j], c, limit);
    }
  }

  /** Attempts keep their rows; a previous snapshot known afterwards was known before, under a claim that was
      alive if it is alive now, or has just been read. */
  ghost predicate AttemptsQuiet(s: System, s': System) {
    && (forall k :: k in s.attempts ==> k in s'.attempts && s'.attempts[k].row == s.attempts[k].row)
    && (forall k :: k in s'.attempts && s'.attempts[k].prior.Some? && s'.attempts[k].prior.value.Some? ==>
          || (&& k in s.attempts && s.attempts[k].prior == s'.attempts[k].prior
              && (Dead(s.store, k) ==> Dead(s'.store, k)))
          || Published(s'.store, k.target) == s'.attempts[k].prior.value)
  }

  lemma QuietKeepsSound(s: System, s': System, c: Codec, limit: int)
    requires Sound(s, c, limit) && Quiet(s, s') && AttemptsQuiet(s, s') && Fenced(s')
    ensures Sound(s', c, limit)
  {
    QuietKeepsRows(s, s', c, limit);
    EntriesKept(s, s', c, limit);
    forall k | k in s'.attempts ensures PriorSound(s', k) {
      if k in s.attempts { assert PriorSound(s, k); }
    }
  }

  predicate Silent(step: Step) {
    Housekeeping(step) || step.Claim? || step.Plant? || step.ReadPrevious?
  }

  lemma HousekeepingIsQuiet(s: System, step: Step)
    requires Fenced(s) && Housekeeping(step)
    ensures Quiet(s, Next(s, step)) && AttemptsQuiet(s, Next(s, step))
  {
    HousekeepingWeakens(s, step);
  }

  lemma ClaimIsQuiet(s: System, step: Step)
    requires Fenced(s) && step.Claim?
    ensures Quiet(s, Next(s, step)) && AttemptsQuiet(s, Next(s, step))
  {
    if step.id in s.store.targets {
      assert Key(step.id, s.store.targets[step.id].lease.generation + 1) !in s.attempts;
    }
  }

  lemma SilentIsQuiet(s: System, step: Step)
    requires Fenced(s) && Silent(step)
    ensures Quiet(s, Next(s, step)) && AttemptsQuiet(s, Next(s, step))
  {
    if Housekeeping(step) { HousekeepingIsQuiet(s, step); }
    else if step.Claim? { ClaimIsQuiet(s, step); }
  }

  // ---- Retention ----

  ghost predicate PublishesAs(s: Store, t: int, p: int)
    requires t in s.targets
  {
    s.targets[t].content.snapshot == Some(p) && p in s.snapshots && s.snapshots[p].target == t
  }

  /** Rows of snapshots and runs go, but no published snapshot and no run of a remaining snapshot. */
  ghost predicate Shed(s: System, s': System) {
    && s'.store == s.store.(snapshots := s'.store.snapshots, runs := s'.store.runs)
    && s'.attempts == s.attempts && s'.ledger == s.ledger
    && (forall id :: id in s'.store.snapshots ==>
          id in s.store.snapshots && s'.store.snapshots[id] == s.store.snapshots[id])
    && (forall t, p :: t in s.store.targets && PublishesAs(s.store, t, p) ==> p in s'.store.snapshots)
    && (forall id, k :: id in s'.store.snapshots && s'.store.snapshots[id].run == Some(k) && k in s.store.runs ==>
          k in s'.store.runs && s'.store.runs[k] == s.store.runs[k])
  }

  lemma DropIsShed(s: System, step: Step)
    requires step.DropSnapshots? || step.DropRuns?
    ensures Shed(s, Next(s, step))
  {
  }

  lemma ShedKeepsPointer(s: System, s': System, c: Codec, t: int)
    requires Shed(s, s') && t in s.store.targets && PointerSound(s.store, t, c)
    ensures PointerSound(s'.store, t, c) && Published(s'.store, t) == Published(s.store, t)
  {
    if s.store.targets[t].content.snapshot.Some? {
      assert PublishesAs(s.store, t, s.store.targets[t].content.snapshot.value);
    }
  }

  lemma ShedKeepsSound(s: System, s': System, c: Codec, limit: int)
    requires Sound(s, c, limit) && Shed(s, s') && Fenced(s')
    ensures Sound(s', c, limit)
  {
    EntriesKept(s, s', c, limit);
    forall t | t in s'.store.targets ensures PointerSound(s'.store, t, c) {
      ShedKeepsPointer(s, s', c, t);
    }
    forall id | id in s'.store.snapshots ensures SnapshotSound(s'.store, id) {
      assert SnapshotSound(s.store, id);
    }
    forall k | k in s'.attempts ensures PriorSound(s', k) {
      assert PriorSound(s, k);
      if k.target in s.store.targets { ShedKeepsPointer(s, s', c, k.target); }
    }
  }

  // ---- The commit ----

  lemma CommitCounts(s: System, i: CommitInput, s': System)
    requires CountsSound(s) && LedgerDead(s) && CommitEffect(s.store, i, s'.store)
    requires |s'.ledger| == |s.ledger| + 1 && s'.ledger[..|s.ledger|] == s.ledger
    requires s'.ledger[|s.ledger|].input == i
    ensures CountsSound(s')
  {
    forall t | t in s'.store.targets
      ensures s'.store.targets[t].content.version == Publications(s'.ledger, t)
      ensures s'.store.targets[t].content.seqNo == Validations(s'.ledger, t)
    {
      if t !in s.store.targets {
        forall j | 0 <= j < |s.ledger| ensures s.ledger[j].input.target != t {
          assert Dead(s.store, KeyOf(s.ledger[j].input));
        }
        NothingCounted(s.ledger, t);
      } else if t != i.target {
        assert Weakened(s.store.targets[t], s'.store.targets[t]);
      }
    }
  }

  /** Everything a coordinator-built input tells about itself. */
  ghost predicate WellBuilt(s: System, i: CommitInput, c: Codec) {
    && i.target in s.store.targets
    && (i.changed <==> i.outcome.Changed?)
    && (Publishes(i) ==>
          && i.payload.Some? && i.hash == c.hash(i.payload.value) && i.hash != 0
          && i.records == CountRecords(i.payload.value)
          && IsCanonical(s.store.targets[i.target].kind, i.payload.value, c))
    && (Successful(i.outcome) && !i.changed ==> s.store.targets[i.target].content.snapshot.Some?)
  }

  lemma DisciplineBuildsWell(s: System, step: Step, c: Codec, limit: int)
    requires Sound(s, c, limit) && step.Lock? && Disciplined(s, step, c, limit) && Accepts(s.store, step.input)
    ensures WellBuilt(s, step.input, c)
  {
    var i := step.input;
    var k := KeyOf(i);
    AcceptedRows(s.store, i);
    assert PriorSound(s, k);
    ChangedCarriesCanonicalContent(s.attempts[k].row, step.evidence, c, limit);
    SuccessWithoutContentHasBasis(s.attempts[k].row, step.evidence, c, limit);
  }

  lemma CommitKeepsPointers(s: System, i: CommitInput, s': System, c: Codec)
    requires RowsSound(s.store, c) && CommitEffect(s.store, i, s'.store) && WellBuilt(s, i, c)
    ensures forall t :: t in s'.store.targets ==> PointerSound(s'.store, t, c)
  {
    forall t | t in s'.store.targets ensures PointerSound(s'.store, t, c) {
      if t in s.store.targets {
        assert PointerSound(s.store, t, c);
        if s.store.targets[t].content.snapshot.Some? {
          assert SnapshotSound(s.store, s.store.targets[t].content.snapshot.value);
        }
        if t != i.target { assert Weakened(s.store.targets[t], s'.store.targets[t]); }
      }
    }
  }

  lemma CommitKeepsSnapshots(s: System, i: CommitInput, s': System, c: Codec)
    requires RowsSound(s.store, c) && CommitEffect(s.store, i, s'.store) && WellBuilt(s, i, c)
    ensures forall id :: id in s'.store.snapshots ==> SnapshotSound(s'.store, id)
    ensures forall e :: e in s'.store.events ==>
              e.target in s'.store.targets && e.version <= s'.store.targets[e.target].content.version
  {
    forall t | t in s.store.targets
      ensures s.store.targets[t].content.version <= s'.store.targets[t].content.version
    {
      if t != i.target { assert Weakened(s.store.targets[t], s'.store.targets[t]); }
    }
    forall id | id in s'.store.snapshots ensures SnapshotSound(s'.store, id) {
      if id in s.store.snapshots { assert SnapshotSound(s.store, id); }
    }
  }

  lemma CommitKeepsPrior(s: System, i: CommitInput, s': System, c: Codec, k: Key)
    requires Fenced(s) && RowsSound(s.store, c) && CommitEffect(s.store, i, s'.store) && s'.attempts == s.attempts
    requires k in s.attempts && PriorSound(s, k)
    ensures PriorSound(s', k)
  {
    if k.target == i.target {
      assert k.generation <= s.store.targets[k.target].lease.generation;
      assert Dead(s'.store, k);
    } else {
      assert Weakened(s.store.targets[k.target], s'.store.targets[k.target]);
      assert PointerSound(s.store, k.target, c);
      if s.store.targets[k.target].content.snapshot.Some? {
        assert SnapshotSound(s.store, s.store.targets[k.target].content.snapshot.value);
      }
    }
  }

  /** The ledger entry an accepted commit makes. */
  function EntryOf(s: System, i: CommitInput, e: Evidence): Entry
    requires i.target in s.store.targets
  {
    Entry(i, e, s.store.targets[i.target].content, Published(s.store, i.target))
  }

  lemma LockAppends(s: System, step: Step)
    requires step.Lock? && Accepts(s.store, step.input)
    ensures step.input.target in s.store.targets
    ensures Next(s, step).ledger == s.ledger + [EntryOf(s, step.input, step.evidence)]
    ensures Next(s, step).attempts == s.attempts && Next(s, step).store == CommitLocked(s.store, step.input).0
  {
  }

  lemma NewEntrySound(s: System, i: CommitInput, e: Evidence, c: Codec, limit: int)
    requires Fenced(s) && HoldsLease(s.store, i) && Disciplined(s, Lock(i, e), c, limit)
    requires PointerSound(s.store, i.target, c) && KeyOf(i) in s.attempts && PriorSound(s, KeyOf(i))
    ensures EntrySound(s, EntryOf(s, i, e), c, limit)
  {
    assert !Dead(s.store, KeyOf(i));
  }

  lemma CommitKeepsSound(s: System, i: CommitInput, s': System, c: Codec, limit: int)
    requires Sound(s, c, limit) && CommitEffect(s.store, i, s'.store) && WellBuilt(s, i, c) && Fenced(s')
    requires s'.attempts == s.attempts
    requires |s'.ledger| == |s.ledger| + 1 && s'.ledger[..|s.ledger|] == s.ledger
    requires s'.ledger[|s.ledger|].input == i && EntrySound(s', s'.ledger[|s.ledger|], c, limit)
    ensures Sound(s', c, limit)
  {
    CommitCounts(s, i, s');
    CommitKeepsPointers(s, i, s', c);
    CommitKeepsSnapshots(s, i, s', c);
    EntryAppended(s, s', c, limit);
    forall k | k in s'.attempts ensures PriorSound(s', k) {
      CommitKeepsPrior(s, i, s', c, k);
    }
  }

  lemma EntryAppended(s: System, s': System, c: Codec, limit: int)
    requires forall j :: 0 <= j < |s.ledger| ==> EntrySound(s, s.ledger[j], c, limit)
    requires s'.attempts == s.attempts && |s'.ledger| == |s.ledger| + 1 && s'.ledger[..|s.ledger|] == s.ledger
    requires EntrySound(s', s'.ledger[|s.ledger|], c, limit)
    ensures forall j :: 0 <= j < |s'.ledger| ==> EntrySound(s', s'.ledger[j], c, limit)
  {
    EntriesKept(s, s', c, limit);
    forall j | 0 <= j < |s.ledger| ensures EntrySound(s', s'.ledger[j], c, limit) {
      assert s'.ledger[j] == s'.ledger[..|s.ledger|][j];
    }
  }

  lemma LockKeepsSound(s: System, step: Step, c: Codec, limit: int)
    requires Sound(s, c, limit) && step.Lock? && Disciplined(s, step, c, limit)
    ensures Sound(Next(s, step), c, limit)
  {
    if Accepts(s.store, step.input) {
      AcceptedRows(s.store, step.input);
      LockKeepsFence(s, step);
      DisciplineBuildsWell(s, step, c, limit);
      LockAppends(s, step);
      NewEntrySound(s, step.input, step.evidence, c, limit);
      CommitKeepsSound(s, step.input, Next(s, step), c, limit);
    }
  }

  lemma StepKeepsSound(s: System, step: Step, c: Codec, limit: int)
    requires Sound(s, c, limit) && Disciplined(s, step, c, limit)
    ensures Sound(Next(s, step), c, limit)
  {
    if step.Lock? {
      LockKeepsSound(s, step, c, limit);
    } else {
      StepKeepsFence(s, step);
      if Silent(step) {
        SilentIsQuiet(s, step);
        QuietKeepsSound(s, Next(s, step), c, limit);
      } else {
        DropIsShed(s, step);
        ShedKeepsSound(s, Next(s, step), c, limit);
      }
    }
  }

  lemma {:induction false} DisciplinedRunsSound(steps: seq<Step>, c: Codec, limit: int)
    requires DisciplinedRun(steps, c, limit)
    ensures Sound(After(Initial(), steps), c, limit)
  {
    if steps != [] {
      var earlier := steps[..|steps| - 1];
      forall n | 0 <= n < |earlier| ensures Disciplined(After(Initial(), earlier[..n]), earlier[n], c, limit) {
        assert earlier[..n] == steps[..n];
      }
      DisciplinedRunsSound(earlier, c, limit);
      StepKeepsSound(After(Initial(), earlier), steps[|steps| - 1], c, limit);
    }
  }

  // ---- What every disciplined run delivers ----

  /** The counters are ledgers: current_version counts accepted content-changing commits, validation_seq
      accepted successful ones; whoever has validated has a snapshot, and current_snapshot_id names this target's
      snapshot of the current version. */
  lemma {:induction false} LedgerIsExact(steps: seq<Step>, c: Codec, limit: int, t: int)
    requires DisciplinedRun(steps, c, limit) && t in After(Initial(), steps).store.targets
    ensures var s := After(Initial(), steps);
            var content := s.store.targets[t].content;
            && content.version == Publications(s.ledger, t)
            && content.seqNo == Validations(s.ledger, t)
            && (content.seqNo > 0 ==> content.snapshot.Some?)
            && (content.version > 0 <==> content.snapshot.Some?)
            && (content.snapshot.Some? ==>
                  && content.snapshot.value in s.store.snapshots
                  && s.store.snapshots[content.snapshot.value].target == t
                  && s.store.snapshots[content.snapshot.value].version == content.version)
  {
    DisciplinedRunsSound(steps, c, limit);
    var s := After(Initial(), steps);
    assert PointerSound(s.store, t, c);
    if s.store.targets[t].content.snapshot.Some? {
      assert SnapshotSound(s.store, s.store.targets[t].content.snapshot.value);
    }
  }

  /** All four queries of AuditSnapshotIntegrity count zero rows in every reachable state. */
  lemma {:induction false} AuditFindsNothing(steps: seq<Step>, c: Codec, limit: int)
    requires DisciplinedRun(steps, c, limit)
    ensures var store := After(Initial(), steps).store;
            OrphanedPointers(store) == {} && MismatchedTargets(store) == {}
            && InvalidVersions(store) == {} && RejectedPayloads(store) == {}
  {
    DisciplinedRunsSound(steps, c, limit);
    var store := After(Initial(), steps).store;
    forall t | t in store.targets && Points(store, t)
      ensures Pointer(store, t) in store.snapshots && store.snapshots[Pointer(store, t)].target == t
      ensures store.snapshots[Pointer(store, t)].version == store.targets[t].content.version
      ensures t !in RejectedPayloads(store)
    {
      assert PointerSound(store, t, c);
      assert SnapshotSound(store, Pointer(store, t));
    }
  }

  lemma SequenceIsNext(s: System, c: Codec, limit: int, i: CommitInput, e: Evidence)
    requires Fenced(s) && Disciplined(s, Lock(i, e), c, limit) && HoldsLease(s.store, i)
    ensures SequenceAgrees(s.store.targets[i.target].content, i)
  {
  }

  lemma IndexesFree(s: System, c: Codec, i: CommitInput)
    requires Fenced(s) && RowsSound(s.store, c) && HoldsLease(s.store, i)
    ensures KeyOf(i) !in s.store.runs
    ensures forall e :: e in s.store.events ==>
              !(e.target == i.target && e.version == s.store.targets[i.target].content.version + 1)
    ensures forall id :: id in s.store.snapshots ==>
              !(s.store.snapshots[id].target == i.target
                && s.store.snapshots[id].version == s.store.targets[i.target].content.version + 1)
  {
    assert KeyOf(i) in s.store.runs ==> Committed(s, KeyOf(i));
    forall id | id in s.store.snapshots
      ensures !(s.store.snapshots[id].target == i.target
                && s.store.snapshots[id].version == s.store.targets[i.target].content.version + 1)
    {
      assert SnapshotSound(s.store, id);
    }
  }

  /** What the claim and the evidence must bring for the commit built from them to be well formed: changed content
      must be complete, and its hash not all zero. */
  ghost predicate Submittable(row: Target, i: CommitInput, e: Evidence, c: Codec, limit: int) {
    && i.target > 0 && !Blank(i.worker)
    && e.timing.startedAt != 0 && e.timing.finishedAt != 0 && e.timing.finishedAt >= e.timing.startedAt
    && i.nextRunAt != 0
    && (forall id :: id in i.discovered ==> Storable(i.discovered[id]))
    && (Decide(row, e, c, limit).changed ==>
          && e.fetch.Fetched? && Complete(e.fetch, |Ids(e.fetch.value)|)
          && CanonicalValue(row.kind, e.fetch.value, c).Some?
          && c.hash(CanonicalValue(row.kind, e.fetch.value, c).value) != 0)
  }

  lemma ChangedIsValid(row: Target, e: Evidence, c: Codec, limit: int)
    requires Decide(row, e, c, limit).changed
    ensures var d := Decide(row, e, c, limit);
            && e.fetch.Fetched? && d.outcome.Changed? && d.payload.Some?
            && d.payload == CanonicalValue(row.kind, e.fetch.value, c) && d.hash == c.hash(d.payload.value)
            && d.complete == Complete(e.fetch, |Ids(e.fetch.value)|)
  {
  }

  lemma BuiltInterval(k: Key, row: Target, e: Evidence, c: Codec, limit: int)
    requires DutyAdmitted(row.duty)
    ensures BuildInput(k, row, e, c, limit).interval >= SECOND
  {
    OneRunSettles(PolicyForTarget(row), row.duty.interval, row.duty.history, Decide(row, e, c, limit).outcome);
  }

  lemma ValidWhenSubmittable(k: Key, row: Target, e: Evidence, c: Codec, limit: int)
    requires DutyAdmitted(row.duty) && k.generation > 0
    ensures var i := BuildInput(k, row, e, c, limit);
            Submittable(row, i, e, c, limit) <==>
            && ValidCommit(i) && i.finishedAt >= i.startedAt
            && forall id :: id in i.discovered ==> Storable(i.discovered[id])
  {
    BuiltInterval(k, row, e, c, limit);
    if Decide(row, e, c, limit).changed { ChangedIsValid(row, e, c, limit); }
  }

  lemma HeldLeaseAccepted(s: System, c: Codec, limit: int, i: CommitInput, e: Evidence)
    requires Sound(s, c, limit) && ColumnsSound(s, false)
    requires Disciplined(s, Lock(i, e), c, limit) && HoldsLease(s.store, i)
    ensures Accepts(s.store, i) <==> Submittable(s.attempts[KeyOf(i)].row, i, e, c, limit)
  {
    var row := s.attempts[KeyOf(i)].row;
    SequenceIsNext(s, c, limit, i, e);
    IndexesFree(s, c, i);
    BuiltInterval(KeyOf(i), row, e, c, limit);
    ValidWhenSubmittable(KeyOf(i), row, e, c, limit);
  }

  /** A coordinator that still holds its lease is never refused for its sequence number or by a unique index: its
      commit is accepted if and only if claim and evidence are well formed, so a changed but incomplete fetch is
      always refused. */
  lemma {:induction false} HeldLeaseCommits(steps: seq<Step>, c: Codec, limit: int, i: CommitInput, e: Evidence)
    requires DisciplinedRun(steps, c, limit)
    requires Disciplined(After(Initial(), steps), Lock(i, e), c, limit)
    requires HoldsLease(After(Initial(), steps).store, i)
    ensures var s := After(Initial(), steps);
            Accepts(s.store, i) <==> Submittable(s.attempts[KeyOf(i)].row, i, e, c, limit)
  {
    DisciplinedRunsSound(steps, c, limit);
    RunsKeepColumns(steps, false);
    HeldLeaseAccepted(After(Initial(), steps), c, limit, i, e);
  }

  /** A published version keeps four fifths of the records it replaced and, when the run could read the version it
      replaced, nine tenths of its ids; or a second fetch reproduced it. What the run read is what it replaced. */
  ghost predicate Harmless(row: Target, e: Entry, c: Codec, limit: int) {
    && e.input.payload.Some? && e.replaced.Some?
    && e.before.records == CountRecords(e.replaced.value.payload) == |Ids(e.replaced.value.payload)|
    && (e.evidence.prior.Some? ==> e.replaced == e.evidence.prior)
    && (|| (&& 5 * |Ids(e.input.payload.value)| >= 4 * |Ids(e.replaced.value.payload)|
            && (e.evidence.prior.Some? ==> KeepsMost(e.replaced.value.payload, e.input.payload.value)))
        || Confirmed(row, e.evidence, Canonicalized(e.input.payload.value, e.input.hash, e.input.records), c, limit))
  }

  lemma EntryIsHarmless(s: System, e: Entry, c: Codec, limit: int)
    requires EntrySound(s, e, c, limit) && Publishes(e.input) && e.before.records >= 2
    ensures Harmless(s.attempts[KeyOf(e.input)].row, e, c, limit)
  {
    var row := s.attempts[KeyOf(e.input)].row;
    ChangedCarriesCanonicalContent(row, e.evidence, c, limit);
    CountedMeansIds(e.replaced.value.payload);
    CanonicalHasKind(row.kind, e.replaced.value.payload, c);
    ChangeIsSafeOrConfirmed(row, e.evidence, c, limit);
  }

  /** No unconfirmed destructive publish: in every disciplined run, every version that replaced one of at least two
      counted records is harmless. */
  lemma {:induction false} NoUnconfirmedDestruction(steps: seq<Step>, c: Codec, limit: int, j: nat)
    requires DisciplinedRun(steps, c, limit) && j < |After(Initial(), steps).ledger|
    requires var e := After(Initial(), steps).ledger[j]; Publishes(e.input) && e.before.records >= 2
    ensures var s := After(Initial(), steps);
            && KeyOf(s.ledger[j].input) in s.attempts
            && Harmless(s.attempts[KeyOf(s.ledger[j].input)].row, s.ledger[j], c, limit)
  {
    DisciplinedRunsSound(steps, c, limit);
    var s := After(Initial(), steps);
    assert EntrySound(s, s.ledger[j], c, limit);
    EntryIsHarmless(s, s.ledger[j], c, limit);
  }

  lemma CountedMeansIds(v: Value)
    requires CountRecords(v) > 0
    ensures CountRecords(v) == |Ids(v)|
  {
  }

  lemma CanonicalHasKind(kind: Kind, v: Value, c: Codec)
    requires IsCanonical(kind, v, c)
    ensures KindOf(kind, v)
    ensures StampIdempotent(c) ==> CanonicalValue(kind, v, c) == Some(v)
  {
    var w :| CanonicalValue(kind, w, c) == Some(v) && DistinctIds(w);
    if StampIdempotent(c) { CanonicalIdempotent(kind, w, c); }
  }

  /** Quarantined and failed runs leave everything published as it was, whatever row they are committed to. */
  lemma FailureKeepsContent(s: Store, i: CommitInput)
    requires Accepts(s, i) && !Successful(i.outcome)
    ensures var s' := CommitLocked(s, i).0;
            && s'.snapshots == s.snapshots && s'.events == s.events
            && forall t :: t in s.targets ==> t in s'.targets && s'.targets[t].content == s.targets[t].content
  {
    AcceptedRows(s, i);
    forall t | t in s.targets
      ensures t in CommitLocked(s, i).0.targets && CommitLocked(s, i).0.targets[t].content == s.targets[t].content
    {
      if t != i.target { assert Weakened(s.targets[t], CommitLocked(s, i).0.targets[t]); }
    }
  }
}
