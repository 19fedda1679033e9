/** The course attendance report (internal/warwick/report_client.go): a bounded fan-out over the sessions of
    a course, whose per-student totals must agree with its per-session cells. */
module Report {
  import opened Domain

  // ---- Deduplication by session id, first occurrence wins ----

  predicate HasSession(sessions: seq<SessionSummary>, id: string) {
    exists i :: 0 <= i < |sessions| && sessions[i].sessionId == id
  }

  lemma HasSessionExtends(sessions: seq<SessionSummary>, last: SessionSummary, id: string)
    ensures HasSession(sessions + [last], id) <==> HasSession(sessions, id) || last.sessionId == id
  {
    var longer := sessions + [last];
    assert longer[|sessions|] == last;
    if HasSession(sessions, id) {
      var i :| 0 <= i < |sessions| && sessions[i].sessionId == id;
      assert longer[i] == sessions[i];
    }
  }

  function UniqueSessions(sessions: seq<SessionSummary>): seq<SessionSummary> {
    if sessions == [] then []
    else
      var last := sessions[|sessions| - 1];
      var earlier := UniqueSessions(sessions[..|sessions| - 1]);
      if HasSession(earlier, last.sessionId) then earlier else earlier + [last]
  }

  method Deduplicate(sessions: seq<SessionSummary>) returns (unique: seq<SessionSummary>)
    ensures unique == UniqueSessions(sessions)
  {
    var seen: set<string> := {};
    unique := [];
    for n := 0 to |sessions|
      invariant unique == UniqueSessions(sessions[..n])
      invariant forall id :: id in seen <==> HasSession(unique, id)
    {
      assert sessions[..n + 1][..n] == sessions[..n];
      if sessions[n].sessionId !in seen {
        forall id { HasSessionExtends(unique, sessions[n], id); }
        seen := seen + {sessions[n].sessionId};
        unique := unique + [sessions[n]];
      }
    }
    assert sessions[..|sessions|] == sessions;
  }

  /** Distinct ids, nothing invented, no id lost. */
  lemma {:induction false} UniqueSessionsDistinct(sessions: seq<SessionSummary>, id: string)
    ensures var u := UniqueSessions(sessions);
            && (forall i, j :: 0 <= i < j < |u| ==> u[i].sessionId != u[j].sessionId)
            && (forall i :: 0 <= i < |u| ==> u[i] in sessions)
            && (HasSession(u, id) <==> HasSession(sessions, id))
  {
    if sessions != [] {
      var earlier, last := sessions[..|sessions| - 1], sessions[|sessions| - 1];
      assert sessions == earlier + [last];
      UniqueSessionsDistinct(earlier, id);
      HasSessionExtends(earlier, last, id);
      HasSessionExtends(UniqueSessions(earlier), last, id);
    }
  }

  /** The session at this place is the first of its id. */
  predicate IsFirst(sessions: seq<SessionSummary>, n: nat) {
    n < |sessions| && !HasSession(sessions[..n], sessions[n].sessionId)
  }

  /** The places of the first sessions, in order. */
  function FirstPlaces(sessions: seq<SessionSummary>, n: nat): seq<nat>
    requires n <= |sessions|
  {
    if n == 0 then [] else FirstPlaces(sessions, n - 1) + if IsFirst(sessions, n - 1) then [n - 1] else []
  }

  lemma FirstIsNew(sessions: seq<SessionSummary>, n: nat)
    requires n < |sessions|
    ensures IsFirst(sessions, n) <==> !HasSession(UniqueSessions(sessions[..n]), sessions[n].sessionId)
  {
    UniqueSessionsDistinct(sessions[..n], sessions[n].sessionId);
  }

  /** The kept sessions are exactly those that are the first of their id, in their order. */
  lemma {:induction false} UniqueSessionsFirst(sessions: seq<SessionSummary>, n: nat)
    requires n <= |sessions|
    ensures var at, unique := FirstPlaces(sessions, n), UniqueSessions(sessions[..n]);
            && |at| == |unique|
            && (forall i :: 0 <= i < |at| ==> at[i] < n && IsFirst(sessions, at[i]) && unique[i] == sessions[at[i]])
            && (forall i, j :: 0 <= i < j < |at| ==> at[i] < at[j])
            && (forall k :: 0 <= k < n && IsFirst(sessions, k) ==> k in at)
  {
    if n > 0 {
      UniqueSessionsFirst(sessions, n - 1);
      assert sessions[..n][..n - 1] == sessions[..n - 1];
      FirstIsNew(sessions, n - 1);
    }
  }

  // ---- The bounded worker pool (runBoundedIndices) ----

  /** `next` is the shared counter; `working` maps a worker to the index whose job it is running. */
  datatype Pool = Pool(next: nat, working: map<int, int>, finished: seq<int>, exited: set<int>, cancelled: bool)

  datatype PoolStep = Take(worker: int) | Finish(worker: int) | Cancel

  function PoolNext(p: Pool, count: nat, workers: set<int>, step: PoolStep): Pool {
    match step
    case Take(w) =>
      if w !in workers || w in p.working || w in p.exited then p
      else if p.next >= count || p.cancelled then p.(next := p.next + 1, exited := p.exited + {w})
      else p.(next := p.next + 1, working := p.working[w := p.next])
    case Finish(w) =>
      if w in p.working then p.(working := p.working - {w}, finished := p.finished + [p.working[w]]) else p
    case Cancel => p.(cancelled := true)
  }

  function PoolAfter(count: nat, workers: set<int>, steps: seq<PoolStep>): Pool
    decreases |steps|
  {
    if steps == [] then Pool(0, map[], [], {}, false)
    else PoolNext(PoolAfter(count, workers, steps[..|steps| - 1]), count, workers, steps[|steps| - 1])
  }

  ghost predicate Held(p: Pool, i: int) {
    i in p.finished || exists w :: w in p.working && p.working[w] == i
  }

  ghost predicate Covered(p: Pool, count: nat) {
    forall i :: 0 <= i < p.next && i < count ==> Held(p, i)
  }

  ghost predicate PoolSound(p: Pool, count: nat, workers: set<int>) {
    && p.working.Keys <= workers && p.exited <= workers && p.working.Keys !! p.exited
    && (forall i, j :: 0 <= i < j < |p.finished| ==> p.finished[i] != p.finished[j])
    && (forall i :: 0 <= i < |p.finished| ==> 0 <= p.finished[i] < p.next && p.finished[i] < count)
    && (forall w :: w in p.working ==>
          0 <= p.working[w] < p.next && p.working[w] < count && p.working[w] !in p.finished)
    && (forall v, w :: v in p.working && w in p.working && v != w ==> p.working[v] != p.working[w])
    && (!p.cancelled ==> Covered(p, count))
    && (!p.cancelled && p.exited != {} ==> p.next > count)
  }

  lemma PoolStepSound(p: Pool, count: nat, workers: set<int>, step: PoolStep)
    requires PoolSound(p, count, workers)
    ensures PoolSound(PoolNext(p, count, workers, step), count, workers)
  {
    var q := PoolNext(p, count, workers, step);
    if !q.cancelled {
      assert Covered(q, count) by {
        forall i | 0 <= i < q.next && i < count ensures Held(q, i) {
          if i < p.next {
            assert Held(p, i);
            StepHolds(p, count, workers, step, i);
          } else {
            assert q.working[step.worker] == i;
          }
        }
      }
    }
  }

  lemma StepHolds(p: Pool, count: nat, workers: set<int>, step: PoolStep, i: int)
    requires Held(p, i)
    ensures Held(PoolNext(p, count, workers, step), i)
  {
    var q := PoolNext(p, count, workers, step);
    if i in p.finished {
      var k :| 0 <= k < |p.finished| && p.finished[k] == i;
      assert q.finished[k] == i;
    } else {
      var w :| w in p.working && p.working[w] == i;
      if w in q.working { assert q.working[w] == i; } else { assert q.finished[|p.finished|] == i; }
    }
  }

  lemma {:induction false} PoolRunsSound(count: nat, workers: set<int>, steps: seq<PoolStep>)
    ensures PoolSound(PoolAfter(count, workers, steps), count, workers)
  {
    if steps != [] {
      PoolRunsSound(count, workers, steps[..|steps| - 1]);
      PoolStepSound(PoolAfter(count, workers, steps[..|steps| - 1]), count, workers, steps[|steps| - 1]);
    }
  }

  /** When every worker has exited, no index was processed twice, and unless the context was cancelled every
      index was processed, in whatever order the workers finished. */
  lemma PoolCompletes(count: nat, workers: set<int>, steps: seq<PoolStep>)
    requires workers != {} && PoolAfter(count, workers, steps).exited == workers
    ensures var p := PoolAfter(count, workers, steps);
            && (forall i, j :: 0 <= i < j < |p.finished| ==> p.finished[i] != p.finished[j])
            && (forall i :: i in p.finished ==> 0 <= i < count)
            && (!p.cancelled ==> forall i :: 0 <= i < count ==> i in p.finished)
  {
    PoolRunsSound(count, workers, steps);
    var p := PoolAfter(count, workers, steps);
    if !p.cancelled {
      forall i | 0 <= i < count ensures i in p.finished { assert Held(p, i); }
    }
  }

  /** One worker's way through the whole of the work: take and finish each index, then exit. */
  lemma {:induction false} WorkerFinishes(count: nat, workers: set<int>, w: int, n: nat) returns (steps: seq<PoolStep>)
    requires w in workers && n <= count
    ensures var p := PoolAfter(count, workers, steps);
            p.next == n && p.working == map[] && p.exited == {} && !p.cancelled
  {
    steps := [];
    if n > 0 {
      var earlier := WorkerFinishes(count, workers, w, n - 1);
      steps := earlier + [Take(w), Finish(w)];
      assert steps[..|steps| - 1] == earlier + [Take(w)] && (earlier + [Take(w)])[..|earlier|] == earlier;
      var taken := PoolAfter(count, workers, earlier + [Take(w)]);
      assert taken.working == map[w := n - 1];
    }
  }

  lemma {:induction false} WorkersExit(count: nat, workers: set<int>, start: seq<PoolStep>, left: set<int>)
    returns (steps: seq<PoolStep>)
    requires var p := PoolAfter(count, workers, start);
             p.next >= count && p.working == map[] && !p.cancelled && p.exited == workers - left
    requires left <= workers
    ensures PoolAfter(count, workers, steps).exited == workers && !PoolAfter(count, workers, steps).cancelled
    decreases left
  {
    if left == {} {
      steps := start;
      assert workers - left == workers;
    } else {
      var w := PickOne(left);
      assert (start + [Take(w)])[..|start|] == start;
      assert workers - (left - {w}) == (workers - left) + {w};
      steps := WorkersExit(count, workers, start + [Take(w)], left - {w});
    }
  }

  /** The pool can always finish: for every amount of work and set of workers there is a schedule that leaves none of
      them running and is not cancelled. */
  lemma {:induction false} PoolCanFinish(count: nat, workers: set<int>) returns (steps: seq<PoolStep>)
    requires workers != {}
    ensures PoolAfter(count, workers, steps).exited == workers && !PoolAfter(count, workers, steps).cancelled
  {
    var w := PickOne(workers);
    steps := WorkerFinishes(count, workers, w, count);
    assert workers - workers == {};
    steps := WorkersExit(count, workers, steps, workers);
  }

  /** A worker that is neither busy nor gone gets the next index while there is one, and otherwise exits. */
  lemma TakeServes(p: Pool, count: nat, workers: set<int>, w: int)
    requires w in workers && w !in p.working && w !in p.exited
    ensures var q := PoolNext(p, count, workers, Take(w));
            if p.next < count && !p.cancelled then
              && w in q.working && q.working[w] == p.next
              && PoolNext(q, count, workers, Finish(w)).finished == p.finished + [p.next]
            else w in q.exited
  {
  }

  // ---- Session results ----

  /** What fetching a session (with its retry) came to. */
  datatype FetchOutcome = FetchError | NilDetail | Roster(students: seq<StudentCheckin>)

  datatype SessionResult = Pending | Failed | Empty | Present(students: seq<StudentCheckin>)

  function Resolve(f: FetchOutcome): SessionResult {
    match f
    case FetchError => Failed
    case NilDetail => Failed
    case Roster(students) => if students == [] then Empty else Present(students)
  }

  /** The workers fill the slice in completion order; leftovers of a cancelled fan-out become errors. The
      outcome of a session does not depend on that order. */
  method CollectResults(fetches: seq<FetchOutcome>, finished: seq<int>, cancelled: bool)
    returns (results: seq<SessionResult>)
    requires forall i :: 0 <= i < |finished| ==> 0 <= finished[i] < |fetches|
    requires !cancelled ==> forall i :: 0 <= i < |fetches| ==> i in finished
    ensures |results| == |fetches|
    ensures forall i :: 0 <= i < |fetches| ==>
              results[i] == if i in finished then Resolve(fetches[i]) else Failed
    ensures Pending !in results
  {
    var slots := new SessionResult[|fetches|](_ => Pending);
    for n := 0 to |finished|
      invariant forall i :: 0 <= i < |fetches| ==>
        slots[i] == if i in finished[..n] then Resolve(fetches[i]) else Pending
    {
      slots[finished[n]] := Resolve(fetches[finished[n]]);
      assert finished[..n + 1] == finished[..n] + [finished[n]];
    }
    assert finished[..|finished|] == finished;
    if cancelled {
      for n := 0 to |fetches|
        invariant forall i :: 0 <= i < n ==> slots[i] == if i in finished then Resolve(fetches[i]) else Failed
        invariant forall i :: n <= i < |fetches| ==> slots[i] == if i in finished then Resolve(fetches[i]) else Pending
      {
        if slots[n] == Pending { slots[n] := Failed; }
      }
    }
    results := slots[..];
  }

  // ---- What one roster says about one student ----

  /** How often the roster lists the student, and how often as checked in. */
  function Mentions(students: seq<StudentCheckin>, id: string): nat {
    if students == [] then 0
    else
      var last := students[|students| - 1];
      Mentions(students[..|students| - 1], id) + if last.studentId == id then 1 else 0
  }

  function CheckIns(students: seq<StudentCheckin>, id: string): nat {
    if students == [] then 0
    else
      var last := students[|students| - 1];
      CheckIns(students[..|students| - 1], id) + if last.studentId == id && last.checkedIn then 1 else 0
  }

  /** The mark a cell ends up with: the last entry for the student wins. */
  predicate Mark(students: seq<StudentCheckin>, id: string) {
    if students == [] then false
    else
      var last := students[|students| - 1];
      if last.studentId == id then last.checkedIn else Mark(students[..|students| - 1], id)
  }

  lemma RosterExtends(students: seq<StudentCheckin>, n: nat, id: string)
    requires n < |students|
    ensures var s, before := students[n], students[..n];
            && Mentions(students[..n + 1], id) == Mentions(before, id) + (if s.studentId == id then 1 else 0)
            && CheckIns(students[..n + 1], id) ==
               CheckIns(before, id) + (if s.studentId == id && s.checkedIn then 1 else 0)
            && Mark(students[..n + 1], id) == (if s.studentId == id then s.checkedIn else Mark(before, id))
  {
    assert students[..n + 1][..n] == students[..n];
  }

  lemma {:induction false} SingleMention(students: seq<StudentCheckin>, id: string)
    ensures CheckIns(students, id) <= Mentions(students, id)
    ensures Mentions(students, id) <= 1 ==> CheckIns(students, id) == if Mark(students, id) then 1 else 0
    ensures Mentions(students, id) == 0 ==> !Mark(students, id)
  {
    if students != [] { SingleMention(students[..|students| - 1], id); }
  }

  // ---- Totals per student ----

  datatype Tally = Tally(attended: nat, total: nat)

  function RosterTally(session: SessionSummary, result: SessionResult, id: string): Tally {
    if result.Present? && session.status == DONE
    then Tally(CheckIns(result.students, id), Mentions(result.students, id)) else Tally(0, 0)
  }

  /** Entries for the student over all done sessions, and those checked in. */
  function Counted(id: string, sessions: seq<SessionSummary>, results: seq<SessionResult>): Tally
    requires |sessions| == |results|
  {
    if results == [] then Tally(0, 0)
    else
      var n := |results| - 1;
      var (before, last) := (Counted(id, sessions[..n], results[..n]), RosterTally(sessions[n], results[n], id));
      Tally(before.attended + last.attended, before.total + last.total)
  }

  predicate Lists(result: SessionResult, id: string) { result.Present? && Mentions(result.students, id) > 0 }

  predicate Appears(results: seq<SessionResult>, id: string) {
    exists r :: 0 <= r < |results| && Lists(results[r], id)
  }

  datatype Accum = Accum(detail: StudentCheckin, attended: nat, total: nat)

  function TallyOf(a: map<string, Accum>, id: string): Tally {
    if id in a then Tally(a[id].attended, a[id].total) else Tally(0, 0)
  }

  /** What the map holds for one student. */
  predicate Recorded(a: map<string, Accum>, id: string, listed: bool, tally: Tally) {
    (id in a <==> listed) && (id in a ==> a[id].detail.studentId == id) && TallyOf(a, id) == tally
  }

  function AfterRoster(t: Tally, students: seq<StudentCheckin>, id: string, done: bool): Tally {
    if done then Tally(t.attended + CheckIns(students, id), t.total + Mentions(students, id)) else t
  }

  function Entered(a: map<string, Accum>, s: StudentCheckin, done: bool): map<string, Accum> {
    var entry := if s.studentId in a then a[s.studentId] else Accum(s, 0, 0);
    a[s.studentId := if done
                     then Accum(entry.detail, entry.attended + (if s.checkedIn then 1 else 0), entry.total + 1)
                     else entry]
  }

  function EnteredAll(a: map<string, Accum>, students: seq<StudentCheckin>, done: bool): map<string, Accum> {
    if students == [] then a
    else Entered(EnteredAll(a, students[..|students| - 1], done), students[|students| - 1], done)
  }

  /** One roster: each entry adds one session to its student, or none if the session is not done. */
  lemma {:induction false} RosterRecords(a: map<string, Accum>, students: seq<StudentCheckin>, done: bool, id: string)
    requires id in a ==> a[id].detail.studentId == id
    ensures Recorded(EnteredAll(a, students, done), id, id in a || Mentions(students, id) > 0,
                     AfterRoster(TallyOf(a, id), students, id, done))
  {
    if students != [] { RosterRecords(a, students[..|students| - 1], done, id); }
  }

  function EnteredResults(sessions: seq<SessionSummary>, results: seq<SessionResult>): map<string, Accum>
    requires |sessions| == |results|
  {
    if results == [] then map[]
    else
      var n := |results| - 1;
      var a := EnteredResults(sessions[..n], results[..n]);
      if results[n].Present? then EnteredAll(a, results[n].students, sessions[n].status == DONE) else a
  }

  /** The map ends up with exactly the students some roster lists, each with the count over the rosters. */
  lemma {:induction false} ResultsRecord(sessions: seq<SessionSummary>, results: seq<SessionResult>, id: string)
    requires |sessions| == |results|
    ensures Recorded(EnteredResults(sessions, results), id, Appears(results, id), Counted(id, sessions, results))
  {
    if results != [] {
      var n := |results| - 1;
      ResultsRecord(sessions[..n], results[..n], id);
      AppearsExtends(results, id);
      if results[n].Present? {
        RosterRecords(EnteredResults(sessions[..n], results[..n]), results[n].students, sessions[n].status == DONE, id);
      }
    }
  }

  lemma AppearsExtends(results: seq<SessionResult>, id: string)
    requires results != []
    ensures Appears(results, id) <==> Appears(results[..|results| - 1], id) || Lists(results[|results| - 1], id)
  {
    var before := results[..|results| - 1];
    if Appears(before, id) {
      var r :| 0 <= r < |before| && Lists(before[r], id);
      assert results[r] == before[r];
    }
    if Appears(results, id) {
      var r :| 0 <= r < |results| && Lists(results[r], id);
      if r < |before| { assert before[r] == results[r]; }
    }
  }

  /** This roster entry is for the student. */
  predicate ListsAt(results: seq<SessionResult>, r: int, i: int, id: string) {
    && 0 <= r < |results| && results[r].Present? && 0 <= i < |results[r].students|
    && results[r].students[i].studentId == id
  }

  /** The name is that of the student's first entry, by session and then by place in the roster. */
  ghost predicate FirstListed(results: seq<SessionResult>, id: string, name: string) {
    exists r, i :: ListsAt(results, r, i, id) && results[r].students[i].name == name && NoneBefore(results, r, i, id)
  }

  ghost predicate NoneBefore(results: seq<SessionResult>, r: int, i: int, id: string) {
    forall q, k :: ListsAt(results, q, k, id) ==> r < q || (r == q && i <= k)
  }

  lemma {:induction false} RosterNames(a: map<string, Accum>, students: seq<StudentCheckin>, done: bool, id: string)
    ensures id in a ==> id in EnteredAll(a, students, done) && EnteredAll(a, students, done)[id].detail == a[id].detail
    ensures id !in a && id in EnteredAll(a, students, done) ==>
              exists i :: 0 <= i < |students| && students[i] == EnteredAll(a, students, done)[id].detail
                && students[i].studentId == id && forall k :: 0 <= k < i ==> students[k].studentId != id
    ensures id !in EnteredAll(a, students, done) ==>
              id !in a && forall k :: 0 <= k < |students| ==> students[k].studentId != id
  {
    if students != [] {
      var n := |students| - 1;
      RosterNames(a, students[..n], done, id);
      if id !in a && id in EnteredAll(a, students, done) {
        if id in EnteredAll(a, students[..n], done) {
          var i :| 0 <= i < n && students[..n][i] == EnteredAll(a, students[..n], done)[id].detail
                   && students[..n][i].studentId == id && forall k :: 0 <= k < i ==> students[..n][k].studentId != id;
          assert students[i] == EnteredAll(a, students, done)[id].detail;
        } else {
          assert students[n] == EnteredAll(a, students, done)[id].detail;
        }
      }
    }
  }

  lemma {:induction false} ResultsName(sessions: seq<SessionSummary>, results: seq<SessionResult>, id: string)
    requires |sessions| == |results|
    ensures id in EnteredResults(sessions, results) ==>
              FirstListed(results, id, EnteredResults(sessions, results)[id].detail.name)
    ensures id !in EnteredResults(sessions, results) ==> forall r, i :: !ListsAt(results, r, i, id)
  {
    if results != [] {
      var n := |results| - 1;
      var earlier, a := results[..n], EnteredResults(sessions[..n], results[..n]);
      ResultsName(sessions[..n], earlier, id);
      forall q, k | q < n ensures ListsAt(results, q, k, id) <==> ListsAt(earlier, q, k, id) {}
      if results[n].Present? { RosterNames(a, results[n].students, sessions[n].status == DONE, id); }
      if id in a {
        var r, i :| ListsAt(earlier, r, i, id) && earlier[r].students[i].name == a[id].detail.name
                    && NoneBefore(earlier, r, i, id);
        assert ListsAt(results, r, i, id) && NoneBefore(results, r, i, id);
      } else if results[n].Present? && id in EnteredResults(sessions, results) {
        var students := results[n].students;
        var i :| 0 <= i < |students| && students[i] == EnteredResults(sessions, results)[id].detail
                 && students[i].studentId == id && forall k :: 0 <= k < i ==> students[k].studentId != id;
        assert ListsAt(results, n, i, id) && NoneBefore(results, n, i, id);
      }
    }
  }

  /** The accumulation loops. */
  method Accumulate(sessions: seq<SessionSummary>, results: seq<SessionResult>) returns (accum: map<string, Accum>)
    requires |sessions| == |results|
    ensures accum == EnteredResults(sessions, results)
  {
    accum := map[];
    for n := 0 to |results|
      invariant accum == EnteredResults(sessions[..n], results[..n])
    {
      assert sessions[..n + 1][..n] == sessions[..n] && results[..n + 1][..n] == results[..n];
      if results[n].Present? {
        accum := AccumulateRoster(accum, results[n].students, sessions[n].status == DONE);
      }
    }
    assert results[..|results|] == results && sessions[..|sessions|] == sessions;
  }

  method AccumulateRoster(a: map<string, Accum>, students: seq<StudentCheckin>, done: bool)
    returns (b: map<string, Accum>)
    ensures b == EnteredAll(a, students, done)
  {
    b := a;
    for n := 0 to |students|
      invariant b == EnteredAll(a, students[..n], done)
    {
      var s := students[n];
      assert students[..n + 1][..n] == students[..n];
      var entry := if s.studentId in b then b[s.studentId] else Accum(s, 0, 0);
      if done {
        entry := Accum(entry.detail, entry.attended + (if s.checkedIn then 1 else 0), entry.total + 1);
      }
      b := b[s.studentId := entry];
    }
    assert students[..|students|] == students;
  }

  // ---- Cells ----

  /** The cell of one student in one session: "ok" exactly when the session's roster lists the student. */
  datatype Cell = Cell(sessionId: string, done: bool, ok: bool, checkedIn: bool)

  function CellFor(id: string, session: SessionSummary, result: SessionResult): Cell {
    Cell(session.sessionId, session.status == DONE,
         Lists(result, id), result.Present? && Mark(result.students, id))
  }

  function CellsFor(id: string, sessions: seq<SessionSummary>, results: seq<SessionResult>): seq<Cell>
    requires |sessions| == |results|
  {
    seq(|sessions|, j requires 0 <= j < |sessions| => CellFor(id, sessions[j], results[j]))
  }

  function DoneCells(cells: seq<Cell>): nat {
    if cells == [] then 0
    else
      var last := cells[|cells| - 1];
      DoneCells(cells[..|cells| - 1]) + if last.done && last.ok then 1 else 0
  }

  function AttendedCells(cells: seq<Cell>): nat {
    if cells == [] then 0
    else
      var last := cells[|cells| - 1];
      AttendedCells(cells[..|cells| - 1]) + if last.done && last.ok && last.checkedIn then 1 else 0
  }

  /** No done session lists the student twice. */
  predicate ListedOnce(id: string, sessions: seq<SessionSummary>, results: seq<SessionResult>)
    requires |sessions| == |results|
  {
    forall r :: 0 <= r < |results| && results[r].Present? && sessions[r].status == DONE ==>
      Mentions(results[r].students, id) <= 1
  }

  /** Conservation: a student's total is the number of done-and-ok cells exactly when no done roster lists
      the student twice, and then attended is the number of those cells that are checked in. */
  lemma {:induction false} TotalsMatchCells(id: string, sessions: seq<SessionSummary>, results: seq<SessionResult>)
    requires |sessions| == |results|
    ensures var cells, tally := CellsFor(id, sessions, results), Counted(id, sessions, results);
            && tally.attended <= tally.total && DoneCells(cells) <= tally.total
            && (tally.total == DoneCells(cells) <==> ListedOnce(id, sessions, results))
            && (ListedOnce(id, sessions, results) ==> tally.attended == AttendedCells(cells))
  {
    if results != [] {
      var n := |results| - 1;
      var ss, rs := sessions[..n], results[..n];
      TotalsMatchCells(id, ss, rs);
      assert CellsFor(id, sessions, results)[..n] == CellsFor(id, ss, rs);
      if results[n].Present? { SingleMention(results[n].students, id); }
      assert ListedOnce(id, sessions, results) <==>
             ListedOnce(id, ss, rs) && RosterTally(sessions[n], results[n], id).total <= 1;
    }
  }

  /** The condition can fail: one done session whose roster lists a student twice counts two against one cell. */
  lemma DoubleListingMiscounts(id: string)
    ensures var session := SessionSummary("s", 1, "", "", 0, 0, DONE);
            var student := StudentCheckin(id, "", "", "", "", true, None, 0);
            var sessions, results := [session], [Present([student, student])];
            Counted(id, sessions, results).total != DoneCells(CellsFor(id, sessions, results))
  {
    var student := StudentCheckin(id, "", "", "", "", true, None, 0);
    var sessions, results := [SessionSummary("s", 1, "", "", 0, 0, DONE)], [Present([student, student])];
    RosterExtends([student, student], 0, id);
    RosterExtends([student, student], 1, id);
    assert [student, student][..2] == [student, student] && [student, student][..0] == [];
    assert Mentions(results[0].students, id) == 2;
    TotalsMatchCells(id, sessions, results);
  }

  /** The cell loop: one pass over the results, writing into the table of the listed students in place. */
  method FillCells(ids: seq<string>, sessions: seq<SessionSummary>, results: seq<SessionResult>)
    returns (table: array2<Cell>)
    requires |sessions| == |results|
    requires forall i, j :: 0 <= i < j < |ids| ==> ids[i] != ids[j]
    ensures fresh(table) && table.Length0 == |ids| && table.Length1 == |sessions|
    ensures forall i, j :: 0 <= i < |ids| && 0 <= j < |sessions| ==>
              table[i, j] == CellFor(ids[i], sessions[j], results[j])
  {
    var index := map i | 0 <= i < |ids| :: ids[i] := i;
    table := new Cell[|ids|, |sessions|]((i, j) => if 0 <= j < |sessions| then Blank(sessions[j]) else NO_CELL);
    for j := 0 to |results|
      invariant forall i, k :: 0 <= i < |ids| && 0 <= k < j ==> table[i, k] == CellFor(ids[i], sessions[k], results[k])
      invariant forall i, k :: 0 <= i < |ids| && j <= k < |sessions| ==> table[i, k] == Blank(sessions[k])
    {
      if results[j].Present? {
        FillColumn(table, j, ids, index, sessions[j], results[j].students);
      }
    }
  }

  function Blank(session: SessionSummary): Cell {
    Cell(session.sessionId, session.status == DONE, false, false)
  }

  const NO_CELL := Cell("", false, false, false)

  method FillColumn(table: array2<Cell>, j: nat, ids: seq<string>, index: map<string, int>,
                    session: SessionSummary, students: seq<StudentCheckin>)
    requires table.Length0 == |ids| && j < table.Length1
    requires forall i, k :: 0 <= i < k < |ids| ==> ids[i] != ids[k]
    requires forall i :: 0 <= i < |ids| ==> ids[i] in index && index[ids[i]] == i
    requires forall id :: id in index ==> 0 <= index[id] < |ids| && ids[index[id]] == id
    requires forall i :: 0 <= i < |ids| ==> table[i, j] == Blank(session)
    modifies table
    ensures forall i, k :: 0 <= i < |ids| && 0 <= k < table.Length1 && k != j ==> table[i, k] == old(table[i, k])
    ensures forall i :: 0 <= i < |ids| ==> table[i, j] == CellFor(ids[i], session, Present(students))
  {
    for n := 0 to |students|
      invariant forall i, k :: 0 <= i < |ids| && 0 <= k < table.Length1 && k != j ==> table[i, k] == old(table[i, k])
      invariant forall i :: 0 <= i < |ids| ==> table[i, j] == CellFor(ids[i], session, Present(students[..n]))
    {
      var s := students[n];
      forall i | 0 <= i < |ids| { RosterExtends(students, n, ids[i]); }
      if s.studentId in index {
        var i := index[s.studentId];
        table[i, j] := table[i, j].(ok := true, checkedIn := s.checkedIn);
      }
    }
    assert students[..|students|] == students;
  }

  // ---- The report ----

  datatype StudentRow = StudentRow(id: string, name: string, attended: nat, total: nat, atRisk: bool, cells: seq<Cell>)

  /** 20% of the sessions, rounded up, unless the caller gives a positive threshold. */
  function Threshold(given: int, sessions: nat): int {
    if given <= 0 then (sessions + 4) / 5 else given
  }

  /** A row says about its student what the rosters say. */
  ghost predicate RowRight(row: StudentRow, sessions: seq<SessionSummary>, results: seq<SessionResult>, threshold: int)
    requires |sessions| == |results|
  {
    && Tally(row.attended, row.total) == Counted(row.id, sessions, results)
    && row.cells == CellsFor(row.id, sessions, results) && FirstListed(results, row.id, row.name)
    && row.atRisk == (row.total - row.attended >= threshold)
  }

  predicate HasRow(rows: seq<StudentRow>, id: string) {
    exists i :: 0 <= i < |rows| && rows[i].id == id
  }

  /** The rows of a report, in no particular order: exactly the students listed by a done session, each with
      the tally and the cells of that student. The threshold counts the sessions before duplicates go. */
  method ComputeRows(listed: seq<SessionSummary>, fetches: seq<FetchOutcome>, finished: seq<int>, cancelled: bool,
                     given: int)
    returns (sessions: seq<SessionSummary>, results: seq<SessionResult>, rows: seq<StudentRow>)
    requires |fetches| == |UniqueSessions(listed)|
    requires forall i :: 0 <= i < |finished| ==> 0 <= finished[i] < |fetches|
    requires !cancelled ==> forall i :: 0 <= i < |fetches| ==> i in finished
    ensures sessions == UniqueSessions(listed) && |results| == |sessions|
    ensures forall i :: 0 <= i < |sessions| ==>
              results[i] == if i in finished then Resolve(fetches[i]) else Failed
    ensures forall i, j :: 0 <= i < j < |rows| ==> rows[i].id != rows[j].id
    ensures forall id :: HasRow(rows, id) <==> Counted(id, sessions, results).total > 0
    ensures forall i :: 0 <= i < |rows| ==> RowRight(rows[i], sessions, results, Threshold(given, |listed|))
  {
    sessions := Deduplicate(listed);
    results := CollectResults(fetches, finished, cancelled);
    var accum := Accumulate(sessions, results);
    rows := BuildRows(accum, sessions, results, Threshold(given, |listed|));
  }

  // ---- What a row means ----

  lemma {:induction false} MarkMeans(students: seq<StudentCheckin>, id: string)
    ensures Mentions(students, id) > 0 <==> exists i :: 0 <= i < |students| && students[i].studentId == id
    ensures Mark(students, id) <==>
            exists i :: 0 <= i < |students| && students[i].studentId == id && students[i].checkedIn
              && forall k :: i < k < |students| ==> students[k].studentId != id
  {
    if students != [] {
      var n := |students| - 1;
      MarkMeans(students[..n], id);
      assert forall i :: 0 <= i < n ==> students[..n][i] == students[i];
      if students[n].studentId != id && Mark(students[..n], id) {
        var i :| 0 <= i < n && students[..n][i].studentId == id && students[..n][i].checkedIn
                 && forall k :: i < k < n ==> students[..n][k].studentId != id;
        assert students[i].studentId == id && students[i].checkedIn;
      }
      if Mentions(students[..n], id) > 0 {
        var i :| 0 <= i < n && students[..n][i].studentId == id;
        assert students[i].studentId == id;
      }
    }
  }

  /** The last entry of the session's roster for the student. */
  ghost predicate LastEntry(results: seq<SessionResult>, r: int, i: int, id: string) {
    ListsAt(results, r, i, id) && forall k :: k > i ==> !ListsAt(results, r, k, id)
  }

  /** One cell by itself: the session's, done if the session is, ok if its roster lists the student, and checked in if
      the last entry for the student there says so. */
  ghost predicate CellMeans(cell: Cell, id: string, sessions: seq<SessionSummary>, results: seq<SessionResult>, j: nat)
    requires |sessions| == |results| && j < |sessions|
  {
    && cell.sessionId == sessions[j].sessionId && (cell.done <==> sessions[j].status == "done")
    && (cell.ok <==> exists i :: ListsAt(results, j, i, id))
    && (cell.checkedIn <==> exists i :: LastEntry(results, j, i, id) && results[j].students[i].checkedIn)
  }

  lemma CellsMean(id: string, sessions: seq<SessionSummary>, results: seq<SessionResult>, j: nat)
    requires |sessions| == |results| && j < |sessions|
    ensures CellMeans(CellsFor(id, sessions, results)[j], id, sessions, results, j)
  {
    if results[j].Present? {
      var students := results[j].students;
      MarkMeans(students, id);
      if Mentions(students, id) > 0 {
        var i :| 0 <= i < |students| && students[i].studentId == id;
        assert ListsAt(results, j, i, id);
      }
      if Mark(students, id) {
        var i :| 0 <= i < |students| && students[i].studentId == id && students[i].checkedIn
                 && forall k :: i < k < |students| ==> students[k].studentId != id;
        assert LastEntry(results, j, i, id);
      }
      forall i | LastEntry(results, j, i, id) && students[i].checkedIn ensures Mark(students, id) {
        forall k | i < k < |students| ensures students[k].studentId != id { assert !ListsAt(results, j, k, id); }
      }
    }
  }

  lemma {:induction false} DoneCellCount(cells: seq<Cell>)
    ensures DoneCells(cells) == |set j | 0 <= j < |cells| && cells[j].done && cells[j].ok|
  {
    if cells != [] {
      var n := |cells| - 1;
      DoneCellCount(cells[..n]);
      var done := set j | 0 <= j < n && cells[..n][j].done && cells[..n][j].ok;
      assert (set j | 0 <= j < |cells| && cells[j].done && cells[j].ok) ==
             if cells[n].done && cells[n].ok then done + {n} else done;
    }
  }

  predicate Attended(cell: Cell) { cell.done && cell.ok && cell.checkedIn }

  lemma {:induction false} AttendedCellCount(cells: seq<Cell>)
    ensures AttendedCells(cells) == |set j | 0 <= j < |cells| && Attended(cells[j])|
  {
    if cells != [] {
      var n := |cells| - 1;
      AttendedCellCount(cells[..n]);
      var came := set j | 0 <= j < n && Attended(cells[..n][j]);
      assert (set j | 0 <= j < |cells| && Attended(cells[j])) == if Attended(cells[n]) then came + {n} else came;
    }
  }

  /** A right row in plain terms: its cells are what the rosters say; unless a done roster lists the student twice,
      total and attended count the student's done cells and those checked in; and it is at risk from a fifth of the
      listed sessions missed, or from the threshold asked for. */
  lemma RowMeans(row: StudentRow, sessions: seq<SessionSummary>, results: seq<SessionResult>, given: int, listed: nat)
    requires |sessions| == |results| && RowRight(row, sessions, results, Threshold(given, listed))
    ensures |row.cells| == |sessions|
    ensures forall j :: 0 <= j < |sessions| ==> CellMeans(row.cells[j], row.id, sessions, results, j)
    ensures ListedOnce(row.id, sessions, results) ==>
              && row.total == |set j | 0 <= j < |row.cells| && row.cells[j].done && row.cells[j].ok|
              && row.attended == |set j | 0 <= j < |row.cells| && Attended(row.cells[j])|
    ensures row.atRisk <==>
            if given > 0 then row.total - row.attended >= given else 5 * (row.total - row.attended) >= listed
  {
    forall j | 0 <= j < |sessions| ensures CellMeans(row.cells[j], row.id, sessions, results, j) {
      CellsMean(row.id, sessions, results, j);
    }
    TotalsMatchCells(row.id, sessions, results);
    DoneCellCount(row.cells);
    AttendedCellCount(row.cells);
  }

  /** What became of a session: a failure if the fetch failed or brought nothing, empty or present by its roster. */
  predicate Resolved(f: FetchOutcome, r: SessionResult) {
    && (r == Failed <==> f == FetchError || f == NilDetail)
    && (r == Empty <==> f == Roster([]))
    && (r.Present? ==> f == Roster(r.students)) && r != Pending
  }

  /** The whole report: the rows of whatever a finished worker pool leaves behind. Every row counts a session. */
  method ComputeReport(listed: seq<SessionSummary>, fetches: seq<FetchOutcome>, workers: set<int>,
                       schedule: seq<PoolStep>, given: int)
    returns (sessions: seq<SessionSummary>, results: seq<SessionResult>, rows: seq<StudentRow>)
    requires |fetches| == |UniqueSessions(listed)|
    requires workers != {} && PoolAfter(|fetches|, workers, schedule).exited == workers
    ensures sessions == UniqueSessions(listed) && |results| == |sessions|
    ensures forall i :: 0 <= i < |sessions| ==> results[i] == Resolve(fetches[i]) || results[i] == Failed
    ensures !PoolAfter(|fetches|, workers, schedule).cancelled ==>
              forall i :: 0 <= i < |sessions| ==> results[i] == Resolve(fetches[i]) && Resolved(fetches[i], results[i])
    ensures forall i, j :: 0 <= i < j < |rows| ==> rows[i].id != rows[j].id
    ensures forall id :: HasRow(rows, id) <==> Counted(id, sessions, results).total > 0
    ensures forall i :: 0 <= i < |rows| ==>
              RowRight(rows[i], sessions, results, Threshold(given, |listed|)) && rows[i].total > 0
  {
    var pool := PoolAfter(|fetches|, workers, schedule);
    PoolCompletes(|fetches|, workers, schedule);
    assert forall i :: 0 <= i < |pool.finished| ==> pool.finished[i] in pool.finished;
    sessions, results, rows := ComputeRows(listed, fetches, pool.finished, pool.cancelled, given);
    forall i | 0 <= i < |rows| ensures rows[i].total > 0 {
      assert HasRow(rows, rows[i].id);
      assert RowRight(rows[i], sessions, results, Threshold(given, |listed|));
    }
  }

  method BuildRows(accum: map<string, Accum>, sessions: seq<SessionSummary>, results: seq<SessionResult>,
                   threshold: int)
    returns (rows: seq<StudentRow>)
    requires |sessions| == |results|
    requires accum == EnteredResults(sessions, results)
    ensures forall i, j :: 0 <= i < j < |rows| ==> rows[i].id != rows[j].id
    ensures forall id :: HasRow(rows, id) <==> Counted(id, sessions, results).total > 0
    ensures forall i :: 0 <= i < |rows| ==> RowRight(rows[i], sessions, results, threshold)
  {
    var ids := ListStudents(accum);
    var table := FillCells(ids, sessions, results);
    rows := [];
    for n := 0 to |ids|
      invariant forall i, j :: 0 <= i < |ids| && 0 <= j < |sessions| ==>
        table[i, j] == CellFor(ids[i], sessions[j], results[j])
      invariant |rows| == n
      invariant forall i :: 0 <= i < n ==> rows[i].id == ids[i]
      invariant forall i :: 0 <= i < n ==> RowRight(rows[i], sessions, results, threshold)
    {
      var id := ids[n];
      var a := accum[id];
      ResultsRecord(sessions, results, id);
      ResultsName(sessions, results, id);
      var cells := seq(|sessions|, j requires 0 <= j < |sessions| reads table => table[n, j]);
      forall j | 0 <= j < |sessions| ensures cells[j] == CellsFor(id, sessions, results)[j] {
        assert table[n, j] == CellFor(ids[n], sessions[j], results[j]);
      }
      rows := rows + [StudentRow(id, a.detail.name, a.attended, a.total,
                                 a.total - a.attended >= threshold, cells)];
    }
    forall id ensures HasRow(rows, id) <==> Counted(id, sessions, results).total > 0 {
      ResultsRecord(sessions, results, id);
      if id in ids {
        var i :| 0 <= i < |ids| && ids[i] == id;
        assert rows[i].id == id;
      }
    }
  }

  /** The students with at least one done session, in any order. */
  method ListStudents(accum: map<string, Accum>) returns (ids: seq<string>)
    ensures forall i, j :: 0 <= i < j < |ids| ==> ids[i] != ids[j]
    ensures forall id :: id in ids <==> id in accum && accum[id].total > 0
  {
    ids := [];
    var left := accum.Keys;
    while left != {}
      invariant left <= accum.Keys
      invariant forall i, j :: 0 <= i < j < |ids| ==> ids[i] != ids[j]
      invariant forall id :: id in ids <==> id in accum && id !in left && accum[id].total > 0
      decreases |left|
    {
      var id :| id in left;
      left := left - {id};
      if accum[id].total > 0 { ids := ids + [id]; }
    }
  }
}
