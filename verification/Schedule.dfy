/** The adaptive schedule over whole runs: what every accepted commit writes, measured against the columns its
    worker claimed under and against those the row has by then. */
module Schedule {
  import opened Domain
  import opened Canonical
  import opened Validation
  import opened Policy
  import opened Repository
  import opened Coordinator
  import opened Fencing
  import opened Columns
  import opened Pipeline

  lemma ClaimPolicy(row: Target, seeded: bool)
    requires DutySound(row.duty, seeded)
    ensures PolicyForTarget(row) == ColumnsPolicy(row.duty)
    ensures Admitted(PolicyForTarget(row)) && (seeded ==> Bounded(PolicyForTarget(row)))
  {
  }

  /** The interval is inside the claimed bounds, and the next run inside the claimed serve age of the validation. */
  predicate InInterval(d: Duty, i: CommitInput) { d.minInterval <= i.interval <= d.maxInterval }

  predicate InServeAge(d: Duty, i: CommitInput) {
    i.validatedAt.Some? && i.validatedAt.value < i.nextRunAt <= i.validatedAt.value + d.maxServeAge
  }

  lemma BuiltInRange(k: Key, row: Target, e: Evidence, c: Codec, limit: int, seeded: bool)
    requires DutySound(row.duty, seeded) && Successful(Decide(row, e, c, limit).outcome)
    ensures var i := BuildInput(k, row, e, c, limit);
            && InInterval(row.duty, i)
            && (seeded ==> Moves(ColumnsPolicy(row.duty), row.duty.interval, i.outcome, Stored(i.interval)))
            && (seeded && 0.0 <= e.timing.draw < 1.0 ==>
                  InServeAge(row.duty, i) && 10 * (i.nextRunAt - i.validatedAt.value) <= 11 * i.interval + 5)
  {
    var p, outcome := PolicyForTarget(row), Decide(row, e, c, limit).outcome;
    ClaimPolicy(row, seeded);
    OneRunSettles(p, row.duty.interval, row.duty.history, outcome);
    if seeded { OneRun(p, row.duty.interval, row.duty.history, outcome); }
    if seeded && 0.0 <= e.timing.draw < 1.0 {
      NextRunWithinServeAge(p, row.duty.interval, row.duty.history, outcome, e.timing.draw);
    }
  }

  /** In every disciplined run, each accepted successful commit writes an interval inside the bounds its worker
      claimed under; when all seeds come from the policies, the interval moves toward the bound its outcome calls
      for, and the next run falls within the claimed serve age of the validation. */
  lemma {:induction false} CommitsAreScheduled(steps: seq<Step>, c: Codec, limit: int, j: nat, seeded: bool)
    requires DisciplinedRun(steps, c, limit) && (seeded ==> SeededRun(steps))
    requires j < |After(Initial(), steps).ledger|
    requires Successful(After(Initial(), steps).ledger[j].input.outcome)
    ensures var s := After(Initial(), steps);
            var e := s.ledger[j];
            && KeyOf(e.input) in s.attempts
            && InInterval(s.attempts[KeyOf(e.input)].row.duty, e.input)
            && (seeded ==>
                  var claimed := s.attempts[KeyOf(e.input)].row.duty;
                  Moves(ColumnsPolicy(claimed), claimed.interval, e.input.outcome, Stored(e.input.interval)))
            && (seeded && 0.0 <= e.evidence.timing.draw < 1.0 ==>
                  InServeAge(s.attempts[KeyOf(e.input)].row.duty, e.input))
  {
    DisciplinedRunsSound(steps, c, limit);
    RunsKeepColumns(steps, seeded);
    var s := After(Initial(), steps);
    var e := s.ledger[j];
    assert EntrySound(s, e, c, limit);
    BuiltInRange(KeyOf(e.input), s.attempts[KeyOf(e.input)].row, e.evidence, c, limit, seeded);
  }

  // ---- Against the row's current columns ----

  lemma CommittedDuty(s: Store, i: CommitInput)
    requires Accepts(s, i) && i.target !in i.discovered
    ensures i.target in CommitLocked(s, i).0.targets
    ensures CommitLocked(s, i).0.targets[i.target].duty ==
            s.targets[i.target].duty.(nextRunAt := i.nextRunAt, interval := Stored(i.interval), failures := i.failures,
                                      history := Trimmed(i.history))
  {
  }

  /** The bounds now on the row are no tighter than those the worker claimed under. The serve age needs no such
      condition: in a seeded run it leaves room for every interval up to the maximum and its jitter. */
  predicate NoTighter(claimed: Duty, current: Duty) {
    current.minInterval <= claimed.minInterval && claimed.maxInterval <= current.maxInterval
  }

  /** The row obeys its own columns: interval in bounds, and the next run after the last validation recorded on the
      row but within the serve age of it. */
  predicate OwnColumns(row: Target) {
    && row.duty.minInterval <= row.duty.interval <= row.duty.maxInterval
    && row.content.validatedAt.Some?
    && row.content.validatedAt.value < row.duty.nextRunAt <= row.content.validatedAt.value + row.duty.maxServeAge
  }

  /** An accepted successful commit leaves the row obeying its own columns if and only if the interval it stores
      lies within the bounds the row has at that moment; the serve age then follows. */
  lemma {:induction false} CommitsFitExactly(steps: seq<Step>, c: Codec, limit: int, i: CommitInput, e: Evidence)
    requires DisciplinedRun(steps, c, limit) && SeededRun(steps)
    requires Disciplined(After(Initial(), steps), Lock(i, e), c, limit)
    requires Accepts(After(Initial(), steps).store, i) && i.target !in i.discovered
    requires Successful(i.outcome) && 0.0 <= e.timing.draw < 1.0
    ensures var store := After(Initial(), steps).store;
            var rows, before := CommitLocked(store, i).0.targets, store.targets[i.target].duty;
            && i.target in rows && rows[i.target].content.validatedAt == Some(e.timing.finishedAt)
            && (OwnColumns(rows[i.target]) <==>
                before.minInterval <= i.interval / SECOND * SECOND <= before.maxInterval)
  {
    RunsKeepColumns(steps, true);
    FitsTheRow(After(Initial(), steps), c, limit, i, e);
  }

  /** In particular it does whenever those bounds were not tightened between claim and commit. */
  lemma {:induction false} CommitsFitTheRow(steps: seq<Step>, c: Codec, limit: int, i: CommitInput, e: Evidence)
    requires DisciplinedRun(steps, c, limit) && SeededRun(steps)
    requires Disciplined(After(Initial(), steps), Lock(i, e), c, limit)
    requires Accepts(After(Initial(), steps).store, i) && i.target !in i.discovered
    requires Successful(i.outcome) && 0.0 <= e.timing.draw < 1.0
    requires var s := After(Initial(), steps);
             NoTighter(s.attempts[KeyOf(i)].row.duty, s.store.targets[i.target].duty)
    ensures var rows := CommitLocked(After(Initial(), steps).store, i).0.targets;
            i.target in rows && OwnColumns(rows[i.target])
  {
    CommitsFitExactly(steps, c, limit, i, e);
    RunsKeepColumns(steps, true);
    var claimed := After(Initial(), steps).attempts[KeyOf(i)].row;
    BuiltInRange(KeyOf(i), claimed, e, c, limit, true);
    StoredBetween(claimed.duty.minInterval, i.interval, claimed.duty.maxInterval);
  }

  lemma FitsTheRow(s: System, c: Codec, limit: int, i: CommitInput, e: Evidence)
    requires ColumnsSound(s, true) && Disciplined(s, Lock(i, e), c, limit)
    requires Accepts(s.store, i) && i.target !in i.discovered && Successful(i.outcome) && 0.0 <= e.timing.draw < 1.0
    ensures var rows, before := CommitLocked(s.store, i).0.targets, s.store.targets[i.target].duty;
            && i.target in rows && rows[i.target].content.validatedAt == Some(e.timing.finishedAt)
            && (OwnColumns(rows[i.target]) <==>
                before.minInterval <= i.interval / SECOND * SECOND <= before.maxInterval)
  {
    var claimed := s.attempts[KeyOf(i)].row.duty;
    BuiltInRange(KeyOf(i), s.attempts[KeyOf(i)].row, e, c, limit, true);
    CommittedDuty(s.store, i);
    AcceptedRows(s.store, i);
    StoredBetween(claimed.minInterval, i.interval, claimed.maxInterval);
  }

  /** For all runs of policy p together: bounds hold of whatever one may store, for every interval in range, history
      and outcome, if and only if they are no tighter than p's own. */
  lemma BoundsFitEveryRun(p: Policy, min: int, max: int)
    requires Admitted(p)
    ensures (forall interval: int, history: seq<bool>, outcome: Outcome :: Settled(p, interval) ==>
               min <= Stored(NextSchedule(p, interval, history, outcome).interval) <= max)
            <==> min <= p.min && p.max <= max
  {
    if min <= p.min && p.max <= max {
      forall interval: int, history: seq<bool>, outcome: Outcome | Settled(p, interval)
        ensures min <= Stored(NextSchedule(p, interval, history, outcome).interval) <= max
      {
        OneRunSettles(p, interval, history, outcome);
      }
    }
    StoredBetween(p.min, p.min, p.min);
    StoredBetween(p.max, p.max, p.max);
    assert Stored(NextSchedule(p, p.min, [], Changed).interval) == p.min;
    assert Stored(NextSchedule(p, p.max, [], Unchanged).interval) == p.max;
  }

  // ---- Reseeding is the only thing that can tighten them ----

  predicate Reseeds(step: Step, t: int) {
    (step.Reseed? && step.id == t) || (step.Lock? && t in step.input.discovered)
  }

  predicate SameColumns(a: Duty, b: Duty) {
    a.minInterval == b.minInterval && a.maxInterval == b.maxInterval && a.maxServeAge == b.maxServeAge
  }

  lemma StepKeepsColumns(s: System, step: Step, k: Key)
    requires Fenced(s) && k in s.attempts && !Reseeds(step, k.target)
    ensures var s' := Next(s, step);
            && k in s'.attempts && s'.attempts[k].row == s.attempts[k].row && k.target in s'.store.targets
            && SameColumns(s'.store.targets[k.target].duty, s.store.targets[k.target].duty)
  {
    AttemptsStay(s, step, k);
    if step.Lock? && Accepts(s.store, step.input) { CommitKeepsColumns(s.store, step.input, k.target); }
  }

  /** A claim takes a fresh key, and nothing else touches the row an attempt recorded. */
  lemma AttemptsStay(s: System, step: Step, k: Key)
    requires Fenced(s) && k in s.attempts
    ensures k in Next(s, step).attempts && Next(s, step).attempts[k].row == s.attempts[k].row
  {
    if step.Claim? && step.id in s.store.targets {
      assert Key(step.id, s.store.targets[step.id].lease.generation + 1) !in s.attempts;
    }
  }

  lemma CommitKeepsColumns(s: Store, i: CommitInput, t: int)
    requires Accepts(s, i) && t in s.targets && t !in i.discovered
    ensures t in CommitLocked(s, i).0.targets
    ensures SameColumns(CommitLocked(s, i).0.targets[t].duty, s.targets[t].duty)
  {
  }

  /** As long as nothing reseeds the target after the claim, its columns are those the worker claimed under. */
  lemma {:induction false} UntouchedSinceClaim(steps: seq<Step>, more: seq<Step>, k: Key)
    requires var s := After(Initial(), steps);
             k in s.attempts && k.target in s.store.targets
             && SameColumns(s.attempts[k].row.duty, s.store.targets[k.target].duty)
    requires forall n :: 0 <= n < |more| ==> !Reseeds(more[n], k.target)
    ensures var s := After(Initial(), steps + more);
            && k in s.attempts && k.target in s.store.targets
            && SameColumns(s.attempts[k].row.duty, s.store.targets[k.target].duty)
    decreases |more|
  {
    if more == [] {
      assert steps + more == steps;
    } else {
      var earlier := more[..|more| - 1];
      UntouchedSinceClaim(steps, earlier, k);
      assert (steps + more)[..|steps + more| - 1] == steps + earlier;
      assert (steps + more)[|steps + more| - 1] == more[|more| - 1];
      RunsAreFenced(steps + earlier);
      StepKeepsColumns(After(Initial(), steps + earlier), more[|more| - 1], k);
    }
  }

  // ---- A run in which reseeding leaves the row outside its own columns ----

  /** Any codec will do that hashes to something and bounds nothing. */
  const PLAIN := Codec((v: Value) => 1, (v: Value) => 0, (t: string) => t, (t: string) => true)

  function SessionSeed(status: SessionStatus): Seed {
    var p := PolicyFor(SessionDetail, status);
    Seed(SessionDetail, "s", 0, status, p.initial, p.min, p.max, p.maxServeAge, 1)
  }

  const EMPTY_SESSION := Session(SessionSummary("s", 0, "", "", 0, 0, ""), [], false, None)

  const FIRST_RUN :=
    Evidence(Fetched(EMPTY_SESSION, "", 1, 0, 0), None, NoConfirmationSource, Timing(1, 2, 0.5, 0, map[]))

  function ClaimedSession(): Target { Claimed(Planted(SessionSeed(DONE)), "w", 1, MINUTE) }

  /** A done session is claimed, and its course reseeds it as active before its own run commits. */
  function ReseededRun(): seq<Step> {
    [Plant(1, SessionSeed(DONE)), Claim(1, "w", 1, MINUTE, false), Reseed(1, SessionSeed(ACTIVE)),
     ReadPrevious(Key(1, 1), true)]
  }

  lemma FirstRunChanges()
    ensures Decide(ClaimedSession(), FIRST_RUN, PLAIN, 1) == Decision(Changed, true, Some(EMPTY_SESSION), 1, 0, true)
  {
    assert NormalizeStudents([], PLAIN) == [];
    assert CanonicalValue(SessionDetail, EMPTY_SESSION, PLAIN) == Some(EMPTY_SESSION);
    assert Ids(EMPTY_SESSION) == [];
    assert ValidPayload(SessionDetail, EMPTY_SESSION, "s", PLAIN);
  }

  lemma FirstRunWrites()
    ensures var i := BuildInput(Key(1, 1), ClaimedSession(), FIRST_RUN, PLAIN, 1);
            && ValidCommit(i) && i.outcome.Changed? && i.interval == 6 * HOUR && i.nextRunAt == 2 + 6 * HOUR
            && i.validatedAt == Some(2) && i.seqAfter == Some(1) && i.discovered == map[] && i.worker == "w"
            && i.startedAt == 1 && i.finishedAt == 2
  {
    FirstRunChanges();
    assert Stored(12 * HOUR) == 12 * HOUR && Stored(HOUR) == HOUR && Stored(30 * DAY) == 30 * DAY;
    assert ApplyJitter(6 * HOUR, 0.5) == 6 * HOUR;
  }

  lemma AfterOneMore(steps: seq<Step>, step: Step)
    ensures After(Initial(), steps + [step]) == Next(After(Initial(), steps), step)
  {
    assert (steps + [step])[..|steps|] == steps;
  }

  /** One target and one claim, nothing committed yet. */
  function OneClaim(row: Target, prior: Option<Option<Snapshot>>): System {
    System(Store(map[1 := row], map[], map[], [], 0), map[Key(1, 1) := Attempt(ClaimedSession(), prior)], [])
  }

  function ReseededSession(): Target {
    ClaimedSession().(duty := Reseeded(ClaimedSession().duty, SessionSeed(ACTIVE)))
  }

  lemma ClaimedState()
    ensures After(Initial(), ReseededRun()[..2]) == OneClaim(ClaimedSession(), None)
  {
    var run := ReseededRun();
    AfterOneMore([], run[0]);
    AfterOneMore([run[0]], run[1]);
    assert [] + [run[0]] == [run[0]] && [run[0]] + [run[1]] == run[..2];
  }

  lemma ReseededState()
    ensures After(Initial(), ReseededRun()[..3]) == OneClaim(ReseededSession(), None)
  {
    var run := ReseededRun();
    ClaimedState();
    AfterOneMore(run[..2], run[2]);
    assert run[..2] + [run[2]] == run[..3];
    assert map[1 := ClaimedSession()][1 := ReseededSession()] == map[1 := ReseededSession()];
  }

  lemma ReadState()
    ensures After(Initial(), ReseededRun()) == OneClaim(ReseededSession(), Some(None))
  {
    var run := ReseededRun();
    ReseededState();
    AfterOneMore(run[..3], run[3]);
    assert run[..3] + [run[3]] == run;
    var attempt := Attempt(ClaimedSession(), None);
    assert map[Key(1, 1) := attempt][Key(1, 1) := attempt.(prior := Some(None))]
        == map[Key(1, 1) := attempt.(prior := Some(None))];
  }

  lemma SeedIsFromPolicy(status: SessionStatus)
    ensures FromPolicy(SessionSeed(status))
  {
    var p := PolicyFor(SessionDetail, status);
    assert SessionSeed(status).initial == p.initial && SessionSeed(status).min == p.min;
  }

  lemma RunIsProper()
    ensures DisciplinedRun(ReseededRun(), PLAIN, 1) && SeededRun(ReseededRun())
  {
    SeedIsFromPolicy(DONE);
    SeedIsFromPolicy(ACTIVE);
    var run := ReseededRun();
    forall n | 0 <= n < |run| ensures SeedsFromPolicy(run[n]) && !run[n].Lock? {
      assert n == 0 || n == 1 || n == 2 || n == 3;
    }
  }

  function FirstCommit(): CommitInput { BuildInput(Key(1, 1), ClaimedSession(), FIRST_RUN, PLAIN, 1) }

  lemma FirstCommitAccepted()
    ensures var s := OneClaim(ReseededSession(), Some(None));
            Disciplined(s, Lock(FirstCommit(), FIRST_RUN), PLAIN, 1) && Accepts(s.store, FirstCommit())
  {
    FirstRunWrites();
  }

  /** The commit is accepted and successful, and leaves the row outside its own columns. */
  ghost predicate Escapes(s: System, i: CommitInput, e: Evidence) {
    && Disciplined(s, Lock(i, e), PLAIN, 1) && Accepts(s.store, i) && Successful(i.outcome)
    && i.target in CommitLocked(s.store, i).0.targets
    && var row := CommitLocked(s.store, i).0.targets[i.target];
       && row.duty.interval > row.duty.maxInterval && row.content.validatedAt.Some?
       && row.duty.nextRunAt > row.content.validatedAt.value + row.duty.maxServeAge
  }

  lemma RowEscapes(s: Store, i: CommitInput)
    requires Accepts(s, i) && i.target == 1 && i.discovered == map[] && s.targets == map[1 := ReseededSession()]
    requires i.interval == 6 * HOUR && i.nextRunAt == 2 + 6 * HOUR && i.validatedAt == Some(2) && i.outcome.Changed?
    ensures 1 in CommitLocked(s, i).0.targets
    ensures var row := CommitLocked(s, i).0.targets[1];
            && row.duty.interval > row.duty.maxInterval
            && row.content.validatedAt == Some(2) && row.duty.nextRunAt > 2 + row.duty.maxServeAge
  {
    CommittedDuty(s, i);
    AcceptedRows(s, i);
    assert Stored(6 * HOUR) == 6 * HOUR && Stored(30 * MINUTE) == 30 * MINUTE && Stored(2 * HOUR) == 2 * HOUR;
  }

  lemma FirstCommitEscapes()
    ensures Escapes(OneClaim(ReseededSession(), Some(None)), FirstCommit(), FIRST_RUN)
  {
    FirstRunWrites();
    FirstCommitAccepted();
    RowEscapes(OneClaim(ReseededSession(), Some(None)).store, FirstCommit());
  }

  /** So the condition is needed: in this disciplined, seeded run the commit is accepted and leaves an interval of
      six hours in a row whose maximum is thirty minutes, and a next run beyond its serve age of two hours. */
  lemma ReseedDuringLeaseEscapes()
    ensures DisciplinedRun(ReseededRun(), PLAIN, 1) && SeededRun(ReseededRun())
    ensures Escapes(After(Initial(), ReseededRun()), FirstCommit(), FIRST_RUN)
  {
    RunIsProper();
    ReadState();
    FirstCommitEscapes();
  }
}
