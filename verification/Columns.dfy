/** The scheduling columns over every run: the checks of the schema hold of every row and of every claim, and where
    all seeds come from the seeding policies so do the bounds those policies have in common. */
module Columns {
  import opened Policy
  import opened Repository
  import opened Fencing

  function ColumnsPolicy(d: Duty): Policy { Policy(d.interval, d.minInterval, d.maxInterval, d.maxServeAge) }

  /** `seeded` asks for the bounds of the seeding policies on top of those of the schema. */
  predicate DutySound(d: Duty, seeded: bool) {
    DutyAdmitted(d) && (seeded ==> Bounded(ColumnsPolicy(d)))
  }

  /** The seed carries one of the policies of PolicyFor, as every seed the program makes does. */
  ghost predicate FromPolicy(s: Seed) {
    exists kind, status ::
      var p := PolicyFor(kind, status);
      s.initial == p.initial && s.min == p.min && s.max == p.max && s.maxServeAge == p.maxServeAge
  }

  ghost predicate SeedsFromPolicy(step: Step) {
    && (step.Plant? || step.Reseed? ==> FromPolicy(step.seed))
    && (step.Lock? ==> forall id :: id in step.input.discovered ==> FromPolicy(step.input.discovered[id]))
  }

  ghost predicate SeededRun(steps: seq<Step>) {
    forall n :: 0 <= n < |steps| ==> SeedsFromPolicy(steps[n])
  }

  lemma StoredAtLeast(a: int, b: int)
    requires SECOND <= a <= b
    ensures SECOND <= Stored(a) <= Stored(b) && Stored(a) % SECOND == 0
  {
    assert a / SECOND <= b / SECOND && 1 <= a / SECOND;
  }

  lemma PlantedColumns(s: Seed, seeded: bool)
    requires Storable(s) && (seeded ==> FromPolicy(s))
    ensures DutySound(Planted(s).duty, seeded)
  {
    StoredAtLeast(s.initial, s.initial);
    StoredAtLeast(s.min, s.max);
    StoredAtLeast(s.max, s.maxServeAge);
    StoredAtLeast(s.maxServeAge, s.maxServeAge);
    if seeded { StoredSeedBounded(s); }
  }

  lemma StoredSeedBounded(s: Seed)
    requires FromPolicy(s)
    ensures Bounded(Policy(Stored(s.initial), Stored(s.min), Stored(s.max), Stored(s.maxServeAge)))
  {
    var kind, status :| var p := PolicyFor(kind, status);
      s.initial == p.initial && s.min == p.min && s.max == p.max && s.maxServeAge == p.maxServeAge;
    SeededPoliciesBounded(kind, status);
  }

  /** Reseeding takes the seed's bounds and clamps the interval to them. */
  lemma ReseededColumns(s: Seed, d: Duty, seeded: bool)
    requires Storable(s) && (seeded ==> FromPolicy(s)) && DutySound(d, seeded)
    ensures DutySound(Reseeded(d, s), seeded)
  {
    PlantedColumns(s, seeded);
    var planted, reseeded := Planted(s).duty, Reseeded(d, s);
    assert reseeded.interval in {planted.maxInterval, d.interval, planted.minInterval};
  }

  ghost predicate RowsAdmitted(targets: map<int, Target>, seeded: bool) {
    forall t :: t in targets ==> DutySound(targets[t].duty, seeded)
  }

  ghost predicate ColumnsSound(s: System, seeded: bool) {
    && RowsAdmitted(s.store.targets, seeded)
    && forall k :: k in s.attempts ==> DutySound(s.attempts[k].row.duty, seeded)
  }

  lemma UpsertColumns(targets: map<int, Target>, seeds: map<int, Seed>, seeded: bool)
    requires RowsAdmitted(targets, seeded) && forall id :: id in seeds ==> Storable(seeds[id])
    requires seeded ==> forall id :: id in seeds ==> FromPolicy(seeds[id])
    ensures RowsAdmitted(UpsertSeeds(targets, seeds), seeded)
  {
    var after := UpsertSeeds(targets, seeds);
    forall t | t in after ensures DutySound(after[t].duty, seeded) {
      if t in seeds {
        if t in targets { ReseededColumns(seeds[t], targets[t].duty, seeded); }
        else { PlantedColumns(seeds[t], seeded); }
      }
    }
  }

  lemma CommitColumns(s: Store, i: CommitInput, seeded: bool)
    requires RowsAdmitted(s.targets, seeded) && Accepts(s, i)
    requires seeded ==> forall id :: id in i.discovered ==> FromPolicy(i.discovered[id])
    ensures RowsAdmitted(CommitLocked(s, i).0.targets, seeded)
  {
    var own := CommittedTarget(s.targets[i.target], i, s.lastSnapshot + 1);
    CommittedColumns(s.targets[i.target], i, s.lastSnapshot + 1, seeded);
    UpsertColumns(s.targets[i.target := own], i.discovered, seeded);
  }

  lemma CommittedColumns(t: Target, i: CommitInput, snapshot: int, seeded: bool)
    requires DutySound(t.duty, seeded) && i.interval >= SECOND
    ensures DutySound(CommittedTarget(t, i, snapshot).duty, seeded)
  {
    StoredAtLeast(i.interval, i.interval);
  }

  /** What one transaction other than a commit leaves in the scheduling columns of a row. */
  lemma RowColumns(s: System, step: Step, seeded: bool, t: int)
    requires ColumnsSound(s, seeded) && (seeded ==> SeedsFromPolicy(step)) && !step.Lock?
    requires t in Next(s, step).store.targets
    ensures DutySound(Next(s, step).store.targets[t].duty, seeded)
  {
    if step.Plant? && t !in s.store.targets { PlantedColumns(step.seed, seeded); }
    if step.Reseed? && step.id == t && Storable(step.seed) {
      ReseededColumns(step.seed, s.store.targets[t].duty, seeded);
    }
  }

  lemma StepColumns(s: System, step: Step, seeded: bool)
    requires ColumnsSound(s, seeded) && (seeded ==> SeedsFromPolicy(step))
    ensures ColumnsSound(Next(s, step), seeded)
  {
    if step.Lock? {
      if Accepts(s.store, step.input) { CommitColumns(s.store, step.input, seeded); }
    } else {
      forall t | t in Next(s, step).store.targets ensures DutySound(Next(s, step).store.targets[t].duty, seeded) {
        RowColumns(s, step, seeded, t);
      }
    }
  }

  /** In every run the columns satisfy the schema; in every seeded run also the bounds of the policies. */
  lemma {:induction false} RunsKeepColumns(steps: seq<Step>, seeded: bool)
    requires seeded ==> SeededRun(steps)
    ensures ColumnsSound(After(Initial(), steps), seeded)
  {
    if steps != [] {
      RunsKeepColumns(steps[..|steps| - 1], seeded);
      StepColumns(After(Initial(), steps[..|steps| - 1]), steps[|steps| - 1], seeded);
    }
  }
}
