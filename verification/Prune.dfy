/** Batched retention (Prune in internal/db/snapshot_repository.go): the loops delete, batch by batch,
    exactly what one unbounded delete would. */
module Prune {
  import opened Domain
  import opened Repository

  const KEPT_PER_TARGET := 3

  function Newer(s: Store, id: int): set<int>
    requires id in s.snapshots
  {
    set x | x in s.snapshots && s.snapshots[x].target == s.snapshots[id].target
            && s.snapshots[x].version > s.snapshots[id].version
  }

  predicate IsCurrent(s: Store, id: int)
    requires id in s.snapshots
  {
    s.snapshots[id].target in s.targets && s.targets[s.snapshots[id].target].content.snapshot == Some(id)
  }

  /** Position beyond three (ROW_NUMBER over version descending), target present, not current, too old. */
  predicate Prunable(s: Store, id: int, cutoff: int)
    requires id in s.snapshots
  {
    && |Newer(s, id)| >= KEPT_PER_TARGET
    && s.snapshots[id].target in s.targets
    && !IsCurrent(s, id)
    && s.snapshots[id].fetchedAt < cutoff
  }

  function PrunableSet(s: Store, cutoff: int): set<int> {
    set id | id in s.snapshots && Prunable(s, id, cutoff)
  }

  function WithoutSnapshots(s: Store, ids: set<int>): Store {
    s.(snapshots := s.snapshots - ids)
  }

  function PrunableRuns(s: Store, cutoff: int): set<Key> {
    set k | k in s.runs && s.runs[k].finishedAt < cutoff
            && (forall id :: id in s.snapshots ==> s.snapshots[id].run != Some(k))
  }

  function WithoutRuns(s: Store, keys: set<Key>): Store {
    s.(runs := s.runs - keys)
  }

  // ---- The newest three of a target are never candidates, so ranks are stable under deletion ----

  function Above(n: set<int>, version: map<int, int>, t: int): set<int>
    requires n <= version.Keys && t in n
  {
    set x | x in n && version[x] > version[t]
  }

  lemma {:induction false} LowestExists(n: set<int>, version: map<int, int>) returns (m: int)
    requires n != {} && n <= version.Keys
    ensures m in n && forall x :: x in n ==> version[m] <= version[x]
    decreases n
  {
    m := PickOne(n);
    if n != {m} {
      var other := LowestExists(n - {m}, version);
      assert forall x :: x in n ==> x == m || x in n - {m};
      if version[other] < version[m] { m := other; }
    }
  }

  lemma {:induction false} TopThree(n: set<int>, version: map<int, int>) returns (top: set<int>)
    requires n <= version.Keys && |n| >= 3
    ensures top <= n && |top| == 3
    ensures forall t :: t in top ==> |Above(n, version, t)| <= 2
    decreases n
  {
    if |n| == 3 {
      top := n;
      forall t | t in top ensures |Above(n, version, t)| <= 2 {
        SubsetSize(Above(n, version, t), n - {t});
      }
    } else {
      var m := LowestExists(n, version);
      top := TopThree(n - {m}, version);
      forall t | t in top ensures |Above(n, version, t)| <= 2 {
        assert Above(n, version, t) == Above(n - {m}, version, t);
      }
    }
  }

  lemma {:induction false} SubsetSize<T>(a: set<T>, b: set<T>)
    requires a <= b
    ensures |a| <= |b|
  {
    assert b == a + (b - a);
  }

  lemma RankStable(s: Store, gone: set<int>, id: int, cutoff: int)
    requires id in s.snapshots && id !in gone && gone <= PrunableSet(s, cutoff)
    ensures |Newer(s, id)| >= 3 <==> |Newer(WithoutSnapshots(s, gone), id)| >= 3
  {
    var after := WithoutSnapshots(s, gone);
    var n := Newer(s, id);
    SubsetSize(Newer(after, id), n);
    if |n| >= 3 {
      var version := map x | x in s.snapshots :: s.snapshots[x].version as int;
      var top := TopThree(n, version);
      forall t | t in top ensures t !in gone {
        assert Newer(s, t) == Above(n, version, t);
      }
      assert top <= Newer(after, id);
      SubsetSize(top, Newer(after, id));
    }
  }

  /** Deleting any candidates leaves exactly the other candidates as candidates. */
  lemma CandidatesStable(s: Store, gone: set<int>, cutoff: int)
    requires gone <= PrunableSet(s, cutoff)
    ensures PrunableSet(WithoutSnapshots(s, gone), cutoff) == PrunableSet(s, cutoff) - gone
  {
    var after := WithoutSnapshots(s, gone);
    forall id ensures id in PrunableSet(after, cutoff) <==> id in PrunableSet(s, cutoff) - gone {
      if id in s.snapshots && id !in gone {
        RankStable(s, gone, id, cutoff);
        assert id in after.snapshots;
      }
    }
  }

  function Size(candidates: nat, limit: nat): nat { if candidates < limit then candidates else limit }

  /** A LIMIT query: some subset of the candidates of the right size. */
  method TakeBatch<T(==)>(candidates: set<T>, limit: nat) returns (batch: set<T>)
    ensures batch <= candidates && |batch| == Size(|candidates|, limit)
  {
    batch := {};
    var rest := candidates;
    while |batch| < limit && rest != {}
      invariant batch + rest == candidates && batch !! rest && |batch| <= limit
      decreases rest
    {
      var x :| x in rest;
      batch, rest := batch + {x}, rest - {x};
    }
    SubsetSize(batch, candidates);
    if rest == {} { assert batch == candidates; }
  }

  /** One round of a batched delete against a set of candidates that only loses what is deleted. */
  lemma Round<T>(all: set<T>, gone: set<T>, batch: set<T>, limit: nat)
    requires gone <= all && batch <= all - gone && |batch| == Size(|all - gone|, limit)
    ensures gone + batch <= all && |gone + batch| == |gone| + |batch|
    ensures |batch| < limit ==> gone + batch == all
    ensures |batch| >= limit > 0 ==> all - (gone + batch) < all - gone
  {
    if |batch| < limit {
      assert all - gone == batch + (all - gone - batch);
      assert all - gone - batch == {};
    }
    if |batch| >= limit > 0 {
      var x := PickOne(batch);
      assert x in all - gone && x !in all - (gone + batch);
    }
  }

  /** The one-shot deletes. */
  function SnapshotsRetained(s: Store, cutoff: int): Store { WithoutSnapshots(s, PrunableSet(s, cutoff)) }

  function RunsRetained(s: Store, cutoff: int): Store { WithoutRuns(s, PrunableRuns(s, cutoff)) }

  /** For every batch size and whichever candidates each batch happens to take, the loop ends with the rows
      of the one-shot delete and counts them. */
  method PruneSnapshots(repo: SnapshotRepository, cutoff: int, limit: nat) returns (deleted: nat)
    requires limit > 0
    modifies repo
    ensures repo.Rows() == SnapshotsRetained(old(repo.Rows()), cutoff)
    ensures deleted == |PrunableSet(old(repo.Rows()), cutoff)|
  {
    ghost var before := repo.Rows();
    ghost var gone: set<int> := {};
    deleted := 0;
    assert before.snapshots - {} == before.snapshots;
    while true
      invariant gone <= PrunableSet(before, cutoff) && deleted == |gone|
      invariant repo.Rows() == WithoutSnapshots(before, gone)
      decreases PrunableSet(before, cutoff) - gone
    {
      CandidatesStable(before, gone, cutoff);
      var batch := DeleteBatch(repo, PrunableSet(repo.Rows(), cutoff), limit);
      deleted := deleted + |batch|;
      DeletedTwice(before, gone, batch);
      Round(PrunableSet(before, cutoff), gone, batch, limit);
      gone := gone + batch;
      if |batch| < limit { break; }
    }
  }

  lemma DeletedTwice(s: Store, a: set<int>, b: set<int>)
    ensures WithoutSnapshots(WithoutSnapshots(s, a), b) == WithoutSnapshots(s, a + b)
  {
    assert s.snapshots - a - b == s.snapshots - (a + b);
  }

  /** One DELETE of at most `limit` of the candidates. */
  method DeleteBatch(repo: SnapshotRepository, candidates: set<int>, limit: nat) returns (batch: set<int>)
    modifies repo
    ensures repo.Rows() == WithoutSnapshots(old(repo.Rows()), batch)
    ensures batch <= candidates && |batch| == Size(|candidates|, limit)
  {
    batch := TakeBatch(candidates, limit);
    repo.snapshots := repo.snapshots - batch;
  }

  lemma RunCandidatesStable(s: Store, gone: set<Key>, cutoff: int)
    ensures PrunableRuns(WithoutRuns(s, gone), cutoff) == PrunableRuns(s, cutoff) - gone
  {
  }

  method PruneRuns(repo: SnapshotRepository, cutoff: int, limit: nat) returns (deleted: nat)
    requires limit > 0
    modifies repo
    ensures repo.Rows() == RunsRetained(old(repo.Rows()), cutoff)
    ensures deleted == |PrunableRuns(old(repo.Rows()), cutoff)|
  {
    ghost var before := repo.Rows();
    ghost var gone: set<Key> := {};
    deleted := 0;
    assert before.runs - {} == before.runs;
    while true
      invariant gone <= PrunableRuns(before, cutoff) && deleted == |gone|
      invariant repo.Rows() == WithoutRuns(before, gone)
      decreases PrunableRuns(before, cutoff) - gone
    {
      RunCandidatesStable(before, gone, cutoff);
      var batch := DeleteRunBatch(repo, PrunableRuns(repo.Rows(), cutoff), limit);
      deleted := deleted + |batch|;
      RunsDeletedTwice(before, gone, batch);
      Round(PrunableRuns(before, cutoff), gone, batch, limit);
      gone := gone + batch;
      if |batch| < limit { break; }
    }
  }

  lemma RunsDeletedTwice(s: Store, a: set<Key>, b: set<Key>)
    ensures WithoutRuns(WithoutRuns(s, a), b) == WithoutRuns(s, a + b)
  {
    assert s.runs - a - b == s.runs - (a + b);
  }

  method DeleteRunBatch(repo: SnapshotRepository, candidates: set<Key>, limit: nat) returns (batch: set<Key>)
    modifies repo
    ensures repo.Rows() == WithoutRuns(old(repo.Rows()), batch)
    ensures batch <= candidates && |batch| == Size(|candidates|, limit)
  {
    batch := TakeBatch(candidates, limit);
    repo.runs := repo.runs - batch;
  }

  datatype PruneResult = Pruned(snapshots: nat, runs: nat) | BadRequest

  /** The store a one-shot retention would leave: snapshots go first, then the runs no survivor names. */
  function Retained(s: Store, snapshotCutoff: int, runCutoff: int): Store {
    RunsRetained(SnapshotsRetained(s, snapshotCutoff), runCutoff)
  }

  /** Retention takes no run from a surviving snapshot, and no snapshot a target points to as its current one. */
  lemma SurvivorsKeepRuns(s: Store, snapshotCutoff: int, runCutoff: int, id: int)
    requires id in s.snapshots
    ensures var r := Retained(s, snapshotCutoff, runCutoff);
            && (id in r.snapshots <==> !Prunable(s, id, snapshotCutoff))
            && (id in r.snapshots ==> r.snapshots[id] == s.snapshots[id])
            && (IsCurrent(s, id) ==> id in r.snapshots)
            && (id in r.snapshots && s.snapshots[id].run.Some? ==>
                  (s.snapshots[id].run.value in r.runs <==> s.snapshots[id].run.value in s.runs))
  {
    var pruned := SnapshotsRetained(s, snapshotCutoff);
    if id in pruned.snapshots && s.snapshots[id].run.Some? {
      assert s.snapshots[id].run.value !in PrunableRuns(pruned, runCutoff);
    }
  }

  /** What is left, row by row: a snapshot stays if and only if its target is gone, points to it, has fewer than three
      newer ones, or it is recent enough; a run stays if and only if it is recent enough or a remaining snapshot names
      it. Nothing else changes. */
  ghost predicate LeftBy(s: Store, snapshotCutoff: int, runCutoff: int, r: Store) {
    && r.targets == s.targets && r.events == s.events && r.lastSnapshot == s.lastSnapshot
    && (forall id :: id in r.snapshots <==> id in s.snapshots && StaysBy(s, id, snapshotCutoff))
    && (forall id :: id in r.snapshots ==> r.snapshots[id] == s.snapshots[id])
    && (forall k :: k in r.runs <==>
          && k in s.runs
          && (s.runs[k].finishedAt >= runCutoff || exists id :: id in r.snapshots && r.snapshots[id].run == Some(k)))
    && (forall k :: k in r.runs ==> r.runs[k] == s.runs[k])
  }

  ghost predicate StaysBy(s: Store, id: int, cutoff: int)
    requires id in s.snapshots
  {
    var snap := s.snapshots[id];
    || snap.target !in s.targets || s.targets[snap.target].content.snapshot == Some(id) || snap.fetchedAt >= cutoff
    || |set x | x in s.snapshots && s.snapshots[x].target == snap.target && s.snapshots[x].version > snap.version| <= 2
  }

  ghost predicate MayGo(s: Store, id: int, cutoff: int) { id in s.snapshots && !StaysBy(s, id, cutoff) }

  /** An old run that no snapshot names. */
  ghost predicate RunMayGo(s: Store, k: Key, cutoff: int) {
    k in s.runs && s.runs[k].finishedAt < cutoff && forall id :: id in s.snapshots ==> s.snapshots[id].run != Some(k)
  }

  lemma PrunableMeans(s: Store, cutoff: int)
    ensures forall id :: id in PrunableSet(s, cutoff) <==> MayGo(s, id, cutoff)
  {
    forall id ensures id in PrunableSet(s, cutoff) <==> MayGo(s, id, cutoff) {
      if id in s.snapshots {
        assert Newer(s, id) == set x | x in s.snapshots && s.snapshots[x].target == s.snapshots[id].target
                                       && s.snapshots[x].version > s.snapshots[id].version;
      }
    }
  }

  lemma RetentionExactly(s: Store, snapshotCutoff: int, runCutoff: int)
    ensures LeftBy(s, snapshotCutoff, runCutoff, Retained(s, snapshotCutoff, runCutoff))
  {
    PrunableMeans(s, snapshotCutoff);
  }

  /** How many rows are gone. */
  function Lost<K, V>(before: map<K, V>, after: map<K, V>): nat { |before.Keys - after.Keys| }

  /** The rows the one-shot retention would delete, counted. */
  ghost function Doomed(s: Store, snapshotCutoff: int, runCutoff: int): PruneResult {
    Pruned(|PrunableSet(s, snapshotCutoff)|, |PrunableRuns(SnapshotsRetained(s, snapshotCutoff), runCutoff)|)
  }

  /** The counts Prune returns are those of the rows that are gone. */
  lemma RetentionCounts(s: Store, snapshotCutoff: int, runCutoff: int)
    ensures var r := Retained(s, snapshotCutoff, runCutoff);
            Doomed(s, snapshotCutoff, runCutoff) == Pruned(Lost(s.snapshots, r.snapshots), Lost(s.runs, r.runs))
  {
    var between, r := SnapshotsRetained(s, snapshotCutoff), Retained(s, snapshotCutoff, runCutoff);
    assert s.snapshots.Keys - r.snapshots.Keys == PrunableSet(s, snapshotCutoff);
    assert s.runs.Keys - r.runs.Keys == PrunableRuns(between, runCutoff);
  }

  /** The whole of Prune refines the one-shot retention. */
  method PruneStore(repo: SnapshotRepository, now: int, snapshotRetention: int, runRetention: int, limit: int)
    returns (r: PruneResult)
    modifies repo
    ensures r.BadRequest? <==> limit <= 0 || limit > 5000 || snapshotRetention <= 0 || runRetention <= 0 || now == 0
    ensures repo.Rows() == if r.BadRequest? then old(repo.Rows())
                           else Retained(old(repo.Rows()), now - snapshotRetention, now - runRetention)
    ensures r.Pruned? ==> r == Doomed(old(repo.Rows()), now - snapshotRetention, now - runRetention)
  {
    if limit <= 0 || limit > 5000 { return BadRequest; }
    if snapshotRetention <= 0 || runRetention <= 0 || now == 0 { return BadRequest; }
    var snapshots := PruneSnapshots(repo, now - snapshotRetention, limit);
    var runs := PruneRuns(repo, now - runRetention, limit);
    return Pruned(snapshots, runs);
  }
}
