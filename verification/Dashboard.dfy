/** The dashboard (internal/service/dashboard_aggregator.go): course reports folded into one row per student,
    then totals and the at-risk list. */
module Dashboard {
  import opened Domain
  import opened Canonical
  import opened Report

  /** One course's report, or the failure to get one. */
  datatype CourseResult = CourseResult(courseId: string, readable: bool, rows: seq<StudentRow>)

  datatype CourseShare = CourseShare(courseId: string, attended: nat, total: nat, atRisk: bool)

  datatype Agg = Agg(guid: string, name: string, attended: nat, total: nat, courses: seq<CourseShare>)

  // ---- Folding the reports ----

  function Added(m: map<string, Agg>, courseId: string, row: StudentRow): map<string, Agg> {
    var a := if row.id in m then m[row.id] else Agg(row.id, row.name, 0, 0, []);
    m[row.id := Agg(a.guid, a.name, a.attended + row.attended, a.total + row.total,
                    a.courses + [CourseShare(courseId, row.attended, row.total, row.atRisk)])]
  }

  function AddedRows(m: map<string, Agg>, courseId: string, rows: seq<StudentRow>): map<string, Agg> {
    if rows == [] then m
    else Added(AddedRows(m, courseId, rows[..|rows| - 1]), courseId, rows[|rows| - 1])
  }

  function Aggregated(results: seq<CourseResult>): map<string, Agg> {
    if results == [] then map[]
    else
      var m, last := Aggregated(results[..|results| - 1]), results[|results| - 1];
      if last.readable then AddedRows(m, last.courseId, last.rows) else m
  }

  method AggregatePerCourse(results: seq<CourseResult>) returns (m: map<string, Agg>)
    ensures m == Aggregated(results)
  {
    m := map[];
    for n := 0 to |results|
      invariant m == Aggregated(results[..n])
    {
      assert results[..n + 1][..n] == results[..n];
      if results[n].readable { m := AggregateRows(m, results[n].courseId, results[n].rows); }
    }
    assert results[..|results|] == results;
  }

  method AggregateRows(before: map<string, Agg>, courseId: string, rows: seq<StudentRow>)
    returns (m: map<string, Agg>)
    ensures m == AddedRows(before, courseId, rows)
  {
    m := before;
    for n := 0 to |rows|
      invariant m == AddedRows(before, courseId, rows[..n])
    {
      var row := rows[n];
      assert rows[..n + 1][..n] == rows[..n];
      var a := if row.id in m then m[row.id] else Agg(row.id, row.name, 0, 0, []);
      a := Agg(a.guid, a.name, a.attended + row.attended, a.total + row.total,
               a.courses + [CourseShare(courseId, row.attended, row.total, row.atRisk)]);
      m := m[row.id := a];
    }
    assert rows[..|rows|] == rows;
  }

  // ---- Sums ----

  /** The two columns the dashboard adds up. */
  datatype Column = AttendedSessions | TotalSessions

  function Weight(a: Agg, c: Column): nat { if c.AttendedSessions? then a.attended else a.total }

  function RowWeight(r: StudentRow, c: Column): nat { if c.AttendedSessions? then r.attended else r.total }

  ghost function SumOver(m: map<string, Agg>, keys: set<string>, c: Column): nat
    requires keys <= m.Keys
  {
    if keys == {} then 0
    else
      var k :| k in keys;
      Weight(m[k], c) + SumOver(m, keys - {k}, c)
  }

  function SumRows(rows: seq<StudentRow>, c: Column): nat {
    if rows == [] then 0 else SumRows(rows[..|rows| - 1], c) + RowWeight(rows[|rows| - 1], c)
  }

  function SumReports(results: seq<CourseResult>, c: Column): nat {
    if results == [] then 0
    else
      var last := results[|results| - 1];
      SumReports(results[..|results| - 1], c) + if last.readable then SumRows(last.rows, c) else 0
  }

  /** The sum does not depend on the order in which the keys are picked. */
  lemma {:induction false} SumPick(m: map<string, Agg>, keys: set<string>, k: string, c: Column)
    requires keys <= m.Keys && k in keys
    ensures SumOver(m, keys, c) == Weight(m[k], c) + SumOver(m, keys - {k}, c)
    decreases keys
  {
    var j :| j in keys && SumOver(m, keys, c) == Weight(m[j], c) + SumOver(m, keys - {j}, c);
    if j != k {
      SumPick(m, keys - {j}, k, c);
      SumPick(m, keys - {k}, j, c);
      assert keys - {j} - {k} == keys - {k} - {j};
    }
  }

  lemma {:induction false} SumAgrees(m: map<string, Agg>, n: map<string, Agg>, keys: set<string>, c: Column)
    requires keys <= m.Keys && keys <= n.Keys && forall k :: k in keys ==> m[k] == n[k]
    ensures SumOver(m, keys, c) == SumOver(n, keys, c)
    decreases keys
  {
    if keys != {} {
      var k :| k in keys;
      SumPick(m, keys, k, c);
      SumPick(n, keys, k, c);
      SumAgrees(m, n, keys - {k}, c);
    }
  }

  lemma AddingAdds(m: map<string, Agg>, courseId: string, row: StudentRow, c: Column)
    ensures var n := Added(m, courseId, row);
            SumOver(n, n.Keys, c) == SumOver(m, m.Keys, c) + RowWeight(row, c)
  {
    var n := Added(m, courseId, row);
    SumPick(n, n.Keys, row.id, c);
    assert n.Keys - {row.id} == m.Keys - {row.id};
    SumAgrees(m, n, m.Keys - {row.id}, c);
    if row.id in m { SumPick(m, m.Keys, row.id, c); } else { assert m.Keys - {row.id} == m.Keys; }
  }

  lemma {:induction false} AddingRowsAdds(m: map<string, Agg>, courseId: string, rows: seq<StudentRow>, c: Column)
    ensures var n := AddedRows(m, courseId, rows);
            SumOver(n, n.Keys, c) == SumOver(m, m.Keys, c) + SumRows(rows, c)
  {
    if rows != [] {
      AddingRowsAdds(m, courseId, rows[..|rows| - 1], c);
      AddingAdds(AddedRows(m, courseId, rows[..|rows| - 1]), courseId, rows[|rows| - 1], c);
    }
  }

  /** Folding the reports by student conserves both columns. */
  lemma {:induction false} AggregationConserves(results: seq<CourseResult>, c: Column)
    ensures SumOver(Aggregated(results), Aggregated(results).Keys, c) == SumReports(results, c)
  {
    if results != [] {
      var m, last := Aggregated(results[..|results| - 1]), results[|results| - 1];
      AggregationConserves(results[..|results| - 1], c);
      if last.readable { AddingRowsAdds(m, last.courseId, last.rows, c); }
    }
  }

  /** What one student's rows add up to. */
  function RowsOfStudent(rows: seq<StudentRow>, id: string, c: Column): nat {
    if rows == [] then 0
    else
      var last := rows[|rows| - 1];
      RowsOfStudent(rows[..|rows| - 1], id, c) + if last.id == id then RowWeight(last, c) else 0
  }

  function ReportsOfStudent(results: seq<CourseResult>, id: string, c: Column): nat {
    if results == [] then 0
    else
      var last := results[|results| - 1];
      ReportsOfStudent(results[..|results| - 1], id, c) + if last.readable then RowsOfStudent(last.rows, id, c) else 0
  }

  function WeightIn(m: map<string, Agg>, id: string, c: Column): nat { if id in m then Weight(m[id], c) else 0 }

  lemma {:induction false} RowsCredited(m: map<string, Agg>, courseId: string, rows: seq<StudentRow>, id: string,
                                        c: Column)
    ensures WeightIn(AddedRows(m, courseId, rows), id, c) == WeightIn(m, id, c) + RowsOfStudent(rows, id, c)
  {
    if rows != [] { RowsCredited(m, courseId, rows[..|rows| - 1], id, c); }
  }

  /** Every student is credited with exactly the sessions of that student's own rows. */
  lemma {:induction false} StudentsCredited(results: seq<CourseResult>, id: string, c: Column)
    ensures WeightIn(Aggregated(results), id, c) == ReportsOfStudent(results, id, c)
  {
    if results != [] {
      var m, last := Aggregated(results[..|results| - 1]), results[|results| - 1];
      StudentsCredited(results[..|results| - 1], id, c);
      if last.readable { RowsCredited(m, last.courseId, last.rows, id, c); }
    }
  }

  ghost predicate Keyed(m: map<string, Agg>) {
    forall k :: k in m ==> m[k].guid == k
  }

  lemma {:induction false} RowsKeyed(m: map<string, Agg>, courseId: string, rows: seq<StudentRow>)
    requires Keyed(m)
    ensures Keyed(AddedRows(m, courseId, rows))
  {
    if rows != [] { RowsKeyed(m, courseId, rows[..|rows| - 1]); }
  }

  lemma {:induction false} AggregatedKeyed(results: seq<CourseResult>)
    ensures Keyed(Aggregated(results))
  {
    if results != [] {
      var last := results[|results| - 1];
      AggregatedKeyed(results[..|results| - 1]);
      if last.readable { RowsKeyed(Aggregated(results[..|results| - 1]), last.courseId, last.rows); }
    }
  }

  // ---- Student rows ----

  datatype Absence = Absence(
    guid: string, name: string, attended: nat, total: nat, atRisk: bool, courses: seq<CourseShare>)

  predicate AtRisk(total: nat, absences: int, threshold: int) {
    if threshold > 0 then absences >= threshold else absences >= (total + 4) / 5
  }

  function AbsenceOf(a: Agg, threshold: int): Absence {
    Absence(a.guid, a.name, a.attended, a.total, AtRisk(a.total, a.total - a.attended, threshold), a.courses)
  }

  /** The key that decides whether a student was already listed. */
  function ListKey(a: Agg): string { if a.guid == "" then a.name else a.guid }

  /** A student without an id bears a name that is another student's id. */
  predicate Collides(m: map<string, Agg>) {
    "" in m && m[""].name != "" && m[""].name in m
  }

  /** Of the visited students all are listed, but the later one of a colliding pair. */
  ghost predicate Listed(m: map<string, Agg>, visited: set<string>, kept: set<string>) {
    if Collides(m) && "" in visited && m[""].name in visited
    then kept == visited - {""} || kept == visited - {m[""].name}
    else kept == visited
  }

  function SumAbsences(students: seq<Absence>, c: Column): nat {
    if students == [] then 0
    else
      var last := students[|students| - 1];
      SumAbsences(students[..|students| - 1], c) + if c.AttendedSessions? then last.attended else last.total
  }

  /** The rows are those of the students in `order`. */
  ghost predicate RowsOf(m: map<string, Agg>, threshold: int, order: seq<string>, students: seq<Absence>) {
    && |order| == |students|
    && (forall i, j :: 0 <= i < j < |order| ==> order[i] != order[j])
    && (forall i :: 0 <= i < |order| ==> order[i] in m && students[i] == AbsenceOf(m[order[i]], threshold))
  }

  ghost function Members(order: seq<string>): set<string> { set k | k in order }

  ghost predicate SeenIs(m: map<string, Agg>, visited: set<string>, seen: set<string>)
    requires visited <= m.Keys
  {
    seen == set k | k in visited :: ListKey(m[k])
  }

  ghost predicate Visiting(m: map<string, Agg>, threshold: int, visited: set<string>, seen: set<string>,
                           order: seq<string>, students: seq<Absence>)
  {
    && visited <= m.Keys && RowsOf(m, threshold, order, students)
    && Listed(m, visited, Members(order)) && SeenIs(m, visited, seen)
  }

  lemma VisitOne(m: map<string, Agg>, threshold: int, visited: set<string>, seen: set<string>,
                 order: seq<string>, students: seq<Absence>, k: string)
    requires Keyed(m) && Visiting(m, threshold, visited, seen, order, students) && k in m && k !in visited
    ensures if ListKey(m[k]) in seen then Visiting(m, threshold, visited + {k}, seen, order, students)
            else Visiting(m, threshold, visited + {k}, seen + {ListKey(m[k])}, order + [k],
                          students + [AbsenceOf(m[k], threshold)])
  {
    if ListKey(m[k]) in seen {
      VisitDrops(m, visited, Members(order), k, seen);
    } else {
      VisitKeeps(m, visited, Members(order), k, seen);
      RowAppended(m, threshold, order, students, k);
    }
  }

  /** The rows of all students but the later one of a colliding pair, in some order. */
  ghost predicate ListsStudents(m: map<string, Agg>, threshold: int, students: seq<Absence>) {
    exists order: seq<string> :: RowsOf(m, threshold, order, students) && Listed(m, m.Keys, Members(order))
  }

  /** The loop over the map, in whatever order it is visited. */
  method BuildAbsences(m: map<string, Agg>, threshold: int) returns (students: seq<Absence>)
    requires Keyed(m)
    ensures ListsStudents(m, threshold, students)
  {
    students := [];
    ghost var order: seq<string> := [];
    var visited: set<string>, seen: set<string> := {}, {};
    while m.Keys - visited != {}
      invariant Visiting(m, threshold, visited, seen, order, students)
      decreases m.Keys - visited
    {
      var k :| k in m.Keys - visited;
      VisitOne(m, threshold, visited, seen, order, students, k);
      visited := visited + {k};
      var key := ListKey(m[k]);
      if key !in seen {
        seen := seen + {key};
        students, order := students + [AbsenceOf(m[k], threshold)], order + [k];
      }
    }
    assert visited == m.Keys;
    assert RowsOf(m, threshold, order, students) && Listed(m, m.Keys, Members(order));
  }

  lemma RowAppended(m: map<string, Agg>, threshold: int, order: seq<string>, students: seq<Absence>, k: string)
    requires RowsOf(m, threshold, order, students) && k in m && k !in Members(order)
    ensures RowsOf(m, threshold, order + [k], students + [AbsenceOf(m[k], threshold)])
    ensures Members(order + [k]) == Members(order) + {k}
  {
    assert forall i :: 0 <= i < |order| ==> order[i] in Members(order);
  }

  lemma VisitKeeps(m: map<string, Agg>, visited: set<string>, kept: set<string>, k: string, seen: set<string>)
    requires Keyed(m) && visited <= m.Keys && k in m && k !in visited && Listed(m, visited, kept)
    requires SeenIs(m, visited, seen) && ListKey(m[k]) !in seen
    ensures k !in kept && Listed(m, visited + {k}, kept + {k}) && SeenIs(m, visited + {k}, seen + {ListKey(m[k])})
  {
    assert forall j :: j in visited ==> ListKey(m[j]) in seen;
    if Collides(m) { assert ListKey(m[""]) == m[""].name == ListKey(m[m[""].name]); }
  }

  lemma VisitDrops(m: map<string, Agg>, visited: set<string>, kept: set<string>, k: string, seen: set<string>)
    requires Keyed(m) && visited <= m.Keys && k in m && k !in visited && Listed(m, visited, kept)
    requires SeenIs(m, visited, seen) && ListKey(m[k]) in seen
    ensures Listed(m, visited + {k}, kept) && SeenIs(m, visited + {k}, seen)
  {
    var j :| j in visited && ListKey(m[j]) == ListKey(m[k]);
    assert (visited + {k}) - {k} == visited;
  }

  lemma {:induction false} ListedSum(m: map<string, Agg>, threshold: int, order: seq<string>, students: seq<Absence>,
                                     c: Column)
    requires RowsOf(m, threshold, order, students)
    ensures Members(order) <= m.Keys
    ensures SumAbsences(students, c) == SumOver(m, Members(order), c)
  {
    if order != [] {
      var n := |order| - 1;
      var earlier := order[..n];
      assert order == earlier + [order[n]];
      ListedSum(m, threshold, earlier, students[..n], c);
      assert order[n] !in earlier;
      assert Members(order) - {order[n]} == Members(earlier);
      SumPick(m, Members(order), order[n], c);
    }
  }

  /** The listed rows add up to the whole map exactly when no id-less student's name is another's id. */
  lemma TotalsExactUnlessColliding(m: map<string, Agg>, threshold: int, students: seq<Absence>)
    requires ListsStudents(m, threshold, students)
    ensures (forall k :: k in m ==> m[k].total > 0) ==>
              (SumAbsences(students, TotalSessions) == SumOver(m, m.Keys, TotalSessions) <==> !Collides(m))
    ensures !Collides(m) ==>
              && |students| == |m|
              && SumAbsences(students, AttendedSessions) == SumOver(m, m.Keys, AttendedSessions)
  {
    var order: seq<string> :| RowsOf(m, threshold, order, students) && Listed(m, m.Keys, Members(order));
    ListedSum(m, threshold, order, students, TotalSessions);
    ListedSum(m, threshold, order, students, AttendedSessions);
    MembersCount(order);
    if Collides(m) {
      var gone := if Members(order) == m.Keys - {""} then "" else m[""].name;
      SumPick(m, m.Keys, gone, TotalSessions);
    }
  }

  // ---- Order and the at-risk list ----

  function Rate(s: Absence): real { if s.total > 0 then s.attended as real / s.total as real else 0.0 }

  predicate RiskBefore(a: Absence, b: Absence) {
    if a.atRisk != b.atRisk then a.atRisk
    else if Rate(a) != Rate(b) then Rate(a) < Rate(b)
    else StringBefore(a.name, b.name)
  }

  lemma RiskWeaklyOrdered()
    ensures WeakOrder(RiskBefore)
  {
    StringsWeaklyOrdered();
  }

  /** Some sorted arrangement; sort.Slice promises no more. */
  method SortByRisk(students: seq<Absence>) returns (sorted: seq<Absence>)
    ensures multiset(sorted) == multiset(students) && Sorted(sorted, RiskBefore)
  {
    RiskWeaklyOrdered();
    SortSorts(students, RiskBefore);
    sorted := StableSort(students, RiskBefore);
  }

  function AtRiskIn(students: seq<Absence>): nat {
    if students == [] then 0
    else AtRiskIn(students[..|students| - 1]) + if students[|students| - 1].atRisk then 1 else 0
  }

  /** In a sorted arrangement the students at risk come first, and there are AtRiskIn of them. */
  lemma {:induction false} RiskFirst(students: seq<Absence>)
    requires Sorted(students, RiskBefore)
    ensures AtRiskIn(students) <= |students|
    ensures forall i :: 0 <= i < |students| ==> (students[i].atRisk <==> i < AtRiskIn(students))
  {
    if students != [] {
      var n := |students| - 1;
      RiskFirst(students[..n]);
      forall i | 0 <= i < n && students[n].atRisk ensures students[i].atRisk {
        assert !RiskBefore(students[n], students[i]);
      }
      assert forall i :: 0 <= i < n ==> students[i] == students[..n][i];
    }
  }

  /** extractTopAtRisk stops at the limit or at the first student not at risk. On a sorted arrangement that is
      exactly the first min(limit, number at risk) students at risk. */
  method ExtractTopAtRisk(students: seq<Absence>, limit: nat) returns (top: seq<Absence>)
    requires Sorted(students, RiskBefore)
    ensures |top| == if AtRiskIn(students) < limit then AtRiskIn(students) else limit
    ensures top <= students
    ensures forall i :: 0 <= i < |top| ==> top[i].atRisk
  {
    RiskFirst(students);
    top := [];
    for n := 0 to |students|
      invariant top == students[..n] && n <= limit && n <= AtRiskIn(students)
    {
      if |top| >= limit { break; }
      if !students[n].atRisk { break; }
      top := top + [students[n]];
    }
  }

  lemma BagWithout(b: seq<Absence>, i: nat)
    requires i < |b|
    ensures multiset(b[..i] + b[i + 1..]) == multiset(b) - multiset{b[i]}
  {
    assert b == b[..i] + [b[i]] + b[i + 1..];
  }

  lemma SameFirst(a: seq<Absence>, b: seq<Absence>) returns (i: nat)
    requires multiset(a) == multiset(b) && a != []
    ensures i < |b| && b[i] == a[0]
    ensures multiset(a[..0] + a[1..]) == multiset(b[..i] + b[i + 1..])
  {
    assert a[0] in multiset(b);
    i :| 0 <= i < |b| && b[i] == a[0];
    BagWithout(a, 0);
    BagWithout(b, i);
  }

  lemma {:induction false} SumOfPermutation(a: seq<Absence>, b: seq<Absence>, c: Column)
    requires multiset(a) == multiset(b)
    ensures SumAbsences(a, c) == SumAbsences(b, c)
    decreases |a|
  {
    if a == [] {
      assert |multiset(b)| == 0;
    } else {
      var i := SameFirst(a, b);
      SumOfPermutation(a[..0] + a[1..], b[..i] + b[i + 1..], c);
      SumWithout(a, 0, c);
      SumWithout(b, i, c);
    }
  }

  lemma {:induction false} SumWithout(b: seq<Absence>, i: nat, c: Column)
    requires i < |b|
    ensures SumAbsences(b, c) ==
            SumAbsences(b[..i] + b[i + 1..], c) + if c.AttendedSessions? then b[i].attended else b[i].total
  {
    var n := |b| - 1;
    if i < n {
      SumWithout(b[..n], i, c);
      var rest := b[..i] + b[i + 1..];
      assert rest[..|rest| - 1] == b[..n][..i] + b[..n][i + 1..];
      assert rest[|rest| - 1] == b[n];
    } else {
      assert b[..i] + b[i + 1..] == b[..n];
    }
  }

  // ---- The whole aggregation ----

  datatype Totals = Totals(students: nat, atRisk: nat, attended: nat, total: nat, top: seq<Absence>)

  /** The students are the listed rows of the folded reports, in some order. */
  ghost predicate Arranges(results: seq<CourseResult>, threshold: int, students: seq<Absence>) {
    exists rows: seq<Absence> ::
      multiset(rows) == multiset(students) && ListsStudents(Aggregated(results), threshold, rows)
  }

  /** Every row of a readable report counts at least one session. */
  ghost predicate CountsSessions(results: seq<CourseResult>) {
    forall r :: 0 <= r < |results| && results[r].readable ==> RowsCount(results[r].rows)
  }

  predicate RowsCount(rows: seq<StudentRow>) { forall i :: 0 <= i < |rows| ==> rows[i].total > 0 }

  ghost predicate Positive(m: map<string, Agg>) { forall k :: k in m ==> m[k].total > 0 }

  lemma {:induction false} RowsPositive(m: map<string, Agg>, courseId: string, rows: seq<StudentRow>)
    requires Positive(m) && RowsCount(rows)
    ensures Positive(AddedRows(m, courseId, rows))
  {
    if rows != [] { RowsPositive(m, courseId, rows[..|rows| - 1]); }
  }

  lemma {:induction false} TotalsPositive(results: seq<CourseResult>)
    requires CountsSessions(results)
    ensures Positive(Aggregated(results))
  {
    if results != [] {
      var n := |results| - 1;
      assert forall r :: 0 <= r < n ==> results[..n][r] == results[r];
      TotalsPositive(results[..n]);
      if results[n].readable { RowsPositive(Aggregated(results[..n]), results[n].courseId, results[n].rows); }
    }
  }

  /** What one course brings: its report's input and worker schedule, unless the report could not be had. */
  datatype CourseRun = CourseRun(
    courseId: string, readable: bool, listed: seq<SessionSummary>, fetches: seq<FetchOutcome>, workers: set<int>,
    schedule: seq<PoolStep>)

  predicate Finished(c: CourseRun) {
    && |c.fetches| == |UniqueSessions(c.listed)|
    && c.workers != {} && PoolAfter(|c.fetches|, c.workers, c.schedule).exited == c.workers
  }

  /** The rows are those of a report over these fetches: one for every student a done session lists, all sessions
      resolved unless the workers were cancelled. */
  ghost predicate ReportsCourse(c: CourseRun, given: int, rows: seq<StudentRow>)
    requires Finished(c)
  {
    exists results: seq<SessionResult> ::
      var sessions := UniqueSessions(c.listed);
      && |results| == |sessions|
      && (!PoolAfter(|c.fetches|, c.workers, c.schedule).cancelled ==>
            forall i :: 0 <= i < |sessions| ==> results[i] == Resolve(c.fetches[i]))
      && (forall id :: HasRow(rows, id) <==> Counted(id, sessions, results).total > 0)
      && forall i :: 0 <= i < |rows| ==> RowRight(rows[i], sessions, results, Threshold(given, |c.listed|))
  }

  method ReportCourse(c: CourseRun, given: int) returns (rows: seq<StudentRow>)
    requires Finished(c)
    ensures ReportsCourse(c, given, rows) && RowsCount(rows)
  {
    var sessions, results;
    sessions, results, rows := ComputeReport(c.listed, c.fetches, c.workers, c.schedule, given);
    assert |results| == |UniqueSessions(c.listed)|;
  }

  /** What the dashboard gets from one course. */
  ghost predicate Delivered(c: CourseRun, given: int, r: CourseResult)
    requires c.readable ==> Finished(c)
  {
    && r.courseId == c.courseId && r.readable == c.readable
    && (c.readable ==> ReportsCourse(c, given, r.rows) && RowsCount(r.rows))
  }

  method ReportCourses(courses: seq<CourseRun>, given: int) returns (results: seq<CourseResult>)
    requires forall i :: 0 <= i < |courses| && courses[i].readable ==> Finished(courses[i])
    ensures |results| == |courses|
    ensures forall i :: 0 <= i < |courses| ==> Delivered(courses[i], given, results[i])
  {
    results := [];
    for n := 0 to |courses|
      invariant |results| == n
      invariant forall i :: 0 <= i < n ==> Delivered(courses[i], given, results[i])
    {
      var rows := [];
      if courses[n].readable { rows := ReportCourse(courses[n], given); }
      results := results + [CourseResult(courses[n].courseId, courses[n].readable, rows)];
    }
  }

  /** From the fetched sessions of all courses to the dashboard: whatever the schedules of the report workers, the
      totals are the sums over the course reports exactly when nothing collides. */
  method CourseDashboard(courses: seq<CourseRun>, given: int, threshold: int)
    returns (results: seq<CourseResult>, t: Totals, students: seq<Absence>)
    requires forall i :: 0 <= i < |courses| && courses[i].readable ==> Finished(courses[i])
    ensures |results| == |courses|
    ensures forall i :: 0 <= i < |courses| ==> Delivered(courses[i], given, results[i])
    ensures Arranges(results, threshold, students)
    ensures t.total == SumReports(results, TotalSessions) <==> !Collides(Aggregated(results))
    ensures !Collides(Aggregated(results)) ==> t.attended == SumReports(results, AttendedSessions)
  {
    results := ReportCourses(courses, given);
    forall r | 0 <= r < |results| && results[r].readable ensures RowsCount(results[r].rows) {
      assert Delivered(courses[r], given, results[r]);
    }
    t, students := AggregateDashboard(results, threshold);
  }

  /** aggregateDashboard without a W-code filter. When every row counts at least one session, as report rows
      do, the dashboard totals are the sums over the course reports exactly when no id-less student's name is
      another student's id. */
  method AggregateDashboard(results: seq<CourseResult>, threshold: int) returns (t: Totals, students: seq<Absence>)
    ensures t.students == |Aggregated(results)|
    ensures Arranges(results, threshold, students)
    ensures Sorted(students, RiskBefore) && t.atRisk == AtRiskIn(students)
    ensures t.attended == SumAbsences(students, AttendedSessions) && t.total == SumAbsences(students, TotalSessions)
    ensures |t.top| == (if t.atRisk < 5 then t.atRisk else 5) && t.top <= students
    ensures !Collides(Aggregated(results)) ==>
              |students| == t.students && t.attended == SumReports(results, AttendedSessions)
    ensures CountsSessions(results) ==>
              (t.total == SumReports(results, TotalSessions) <==> !Collides(Aggregated(results)))
  {
    var m := AggregatePerCourse(results);
    AggregatedKeyed(results);
    var rows := BuildAbsences(m, threshold);
    students := SortByRisk(rows);
    DashboardSums(results, threshold, rows, students);
    var atRisk, attended, total := AddUp(students);
    var top := ExtractTopAtRisk(students, 5);
    t := Totals(|m|, atRisk, attended, total, top);
  }

  method AddUp(students: seq<Absence>) returns (atRisk: nat, attended: nat, total: nat)
    ensures atRisk == AtRiskIn(students)
    ensures attended == SumAbsences(students, AttendedSessions) && total == SumAbsences(students, TotalSessions)
  {
    atRisk, attended, total := 0, 0, 0;
    for n := 0 to |students|
      invariant atRisk == AtRiskIn(students[..n])
      invariant attended == SumAbsences(students[..n], AttendedSessions)
      invariant total == SumAbsences(students[..n], TotalSessions)
    {
      assert students[..n + 1][..n] == students[..n];
      if students[n].atRisk { atRisk := atRisk + 1; }
      attended := attended + students[n].attended;
      total := total + students[n].total;
    }
    assert students[..|students|] == students;
  }

  lemma DashboardSums(results: seq<CourseResult>, threshold: int, rows: seq<Absence>, students: seq<Absence>)
    requires ListsStudents(Aggregated(results), threshold, rows) && multiset(rows) == multiset(students)
    ensures var m := Aggregated(results);
            && (!Collides(m) ==>
                  |students| == |m| && SumAbsences(students, AttendedSessions) == SumReports(results, AttendedSessions))
            && (CountsSessions(results) ==>
                  (SumAbsences(students, TotalSessions) == SumReports(results, TotalSessions) <==> !Collides(m)))
  {
    if CountsSessions(results) { TotalsPositive(results); }
    SumOfPermutation(students, rows, AttendedSessions);
    SumOfPermutation(students, rows, TotalSessions);
    AggregationConserves(results, AttendedSessions);
    AggregationConserves(results, TotalSessions);
    TotalsExactUnlessColliding(Aggregated(results), threshold, rows);
    assert |students| == |multiset(students)| == |multiset(rows)| == |rows|;
  }

  lemma {:induction false} MembersCount(order: seq<string>)
    requires forall i, j :: 0 <= i < j < |order| ==> order[i] != order[j]
    ensures |Members(order)| == |order|
  {
    if order != [] {
      var n := |order| - 1;
      MembersCount(order[..n]);
      assert order == order[..n] + [order[n]];
      assert Members(order) == Members(order[..n]) + {order[n]};
    }
  }

  lemma CollidingRows(a: StudentRow, b: StudentRow)
    requires a.id == "" && a.name == "u1" && b.id == "u1"
    ensures Aggregated([CourseResult("c", true, [a, b])]) == Added(Added(map[], "c", a), "c", b)
  {
    var rows := [a, b];
    assert rows[..1] == [a];
    assert AddedRows(map[], "c", rows[..1][..0]) == map[];
    assert AddedRows(map[], "c", rows[..1]) == Added(map[], "c", a);
    assert AddedRows(map[], "c", rows) == Added(Added(map[], "c", a), "c", b);
    var results := [CourseResult("c", true, rows)];
    assert Aggregated(results[..0]) == map[];
    assert Aggregated(results) == AddedRows(map[], "c", rows);
  }

  /** The loss is real: with a student without an id named "u1" beside the student whose id is "u1", no listing of
      the students adds up to the report, whatever order the map is visited in. */
  lemma CollisionExists(threshold: int, students: seq<Absence>)
    requires var rows := [StudentRow("", "u1", 1, 1, false, []), StudentRow("u1", "Ann", 1, 1, false, [])];
             ListsStudents(Aggregated([CourseResult("c", true, rows)]), threshold, students)
    ensures var rows := [StudentRow("", "u1", 1, 1, false, []), StudentRow("u1", "Ann", 1, 1, false, [])];
            && Collides(Aggregated([CourseResult("c", true, rows)]))
            && SumAbsences(students, TotalSessions) != SumReports([CourseResult("c", true, rows)], TotalSessions)
  {
    var a, b := StudentRow("", "u1", 1, 1, false, []), StudentRow("u1", "Ann", 1, 1, false, []);
    var results := [CourseResult("c", true, [a, b])];
    CollidingRows(a, b);
    AggregationConserves(results, TotalSessions);
    TotalsExactUnlessColliding(Aggregated(results), threshold, students);
  }

  // ---- The listed rows by themselves ----

  /** The student's rows of a report as shares of that course, and of all reports in their order. */
  function SharesIn(courseId: string, rows: seq<StudentRow>, id: string): seq<CourseShare> {
    if rows == [] then []
    else
      var last := rows[|rows| - 1];
      SharesIn(courseId, rows[..|rows| - 1], id) +
      if last.id == id then [CourseShare(courseId, last.attended, last.total, last.atRisk)] else []
  }

  function SharesOf(results: seq<CourseResult>, id: string): seq<CourseShare> {
    if results == [] then []
    else
      var last := results[|results| - 1];
      SharesOf(results[..|results| - 1], id) + if last.readable then SharesIn(last.courseId, last.rows, id) else []
  }

  function CoursesIn(m: map<string, Agg>, id: string): seq<CourseShare> { if id in m then m[id].courses else [] }

  lemma {:induction false} RowsShared(m: map<string, Agg>, courseId: string, rows: seq<StudentRow>, id: string)
    ensures CoursesIn(AddedRows(m, courseId, rows), id) == CoursesIn(m, id) + SharesIn(courseId, rows, id)
    ensures id in AddedRows(m, courseId, rows) <==> id in m || SharesIn(courseId, rows, id) != []
  {
    if rows != [] { RowsShared(m, courseId, rows[..|rows| - 1], id); }
  }

  /** A student is folded if and only if some readable report has a row of that student, and keeps every such row as a
      course share, in order. */
  lemma {:induction false} SharesKept(results: seq<CourseResult>, id: string)
    ensures CoursesIn(Aggregated(results), id) == SharesOf(results, id)
    ensures id in Aggregated(results) <==> SharesOf(results, id) != []
  {
    if results != [] {
      var m, last := Aggregated(results[..|results| - 1]), results[|results| - 1];
      SharesKept(results[..|results| - 1], id);
      if last.readable { RowsShared(m, last.courseId, last.rows, id); }
    }
  }

  /** The name of the student's first row. */
  function FirstName(rows: seq<StudentRow>, id: string): Option<string> {
    if rows == [] then None
    else
      var earlier, last := FirstName(rows[..|rows| - 1], id), rows[|rows| - 1];
      if earlier.Some? then earlier else if last.id == id then Some(last.name) else None
  }

  function NameIn(m: map<string, Agg>, id: string): Option<string> { if id in m then Some(m[id].name) else None }

  lemma {:induction false} RowsNamed(m: map<string, Agg>, courseId: string, rows: seq<StudentRow>, id: string)
    ensures NameIn(AddedRows(m, courseId, rows), id) == if id in m then Some(m[id].name) else FirstName(rows, id)
  {
    if rows != [] { RowsNamed(m, courseId, rows[..|rows| - 1], id); }
  }

  lemma {:induction false} FirstNameMeans(rows: seq<StudentRow>, id: string, i: nat)
    requires i < |rows| && rows[i].id == id && forall k :: 0 <= k < i ==> rows[k].id != id
    ensures FirstName(rows, id) == Some(rows[i].name)
  {
    var n := |rows| - 1;
    if i < n { FirstNameMeans(rows[..n], id, i); } else { NoName(rows[..n], id); }
  }

  lemma {:induction false} NoName(rows: seq<StudentRow>, id: string)
    requires forall k :: 0 <= k < |rows| ==> rows[k].id != id
    ensures FirstName(rows, id) == None
  {
    if rows != [] { NoName(rows[..|rows| - 1], id); }
  }

  /** All rows of the readable reports, one after the other. */
  function AllRows(results: seq<CourseResult>): seq<StudentRow> {
    if results == [] then []
    else
      var last := results[|results| - 1];
      AllRows(results[..|results| - 1]) + if last.readable then last.rows else []
  }

  lemma {:induction false} FirstNameJoins(a: seq<StudentRow>, b: seq<StudentRow>, id: string)
    ensures FirstName(a + b, id) == if FirstName(a, id).Some? then FirstName(a, id) else FirstName(b, id)
  {
    if b == [] {
      assert a + b == a;
    } else {
      FirstNameJoins(a, b[..|b| - 1], id);
      assert (a + b)[..|a + b| - 1] == a + b[..|b| - 1];
    }
  }

  /** A folded student bears the name of that student's first row. */
  lemma {:induction false} NamesAreFirst(results: seq<CourseResult>, id: string)
    ensures NameIn(Aggregated(results), id) == FirstName(AllRows(results), id)
  {
    if results != [] {
      var m, last := Aggregated(results[..|results| - 1]), results[|results| - 1];
      NamesAreFirst(results[..|results| - 1], id);
      if last.readable {
        RowsNamed(m, last.courseId, last.rows, id);
        FirstNameJoins(AllRows(results[..|results| - 1]), last.rows, id);
      } else {
        assert AllRows(results) == AllRows(results[..|results| - 1]);
      }
    }
  }

  /** A listed row of a student: the student's own columns, at risk from the given number of absences or, without one,
      from a fifth of the sessions. */
  lemma AbsenceMeans(a: Agg, threshold: int)
    ensures var s := AbsenceOf(a, threshold);
            && s.guid == a.guid && s.name == a.name && s.attended == a.attended && s.total == a.total
            && s.courses == a.courses
            && (s.atRisk <==>
                  if threshold > 0 then a.total - a.attended >= threshold else 5 * (a.total - a.attended) >= a.total)
  {
  }

  lemma RatesCompare(a: Absence, b: Absence)
    requires a.total > 0 && b.total > 0
    ensures Rate(a) < Rate(b) <==> a.attended * b.total < b.attended * a.total
    ensures Rate(a) == Rate(b) <==> a.attended * b.total == b.attended * a.total
  {
    var x, n, y, m := a.attended as real, a.total as real, b.attended as real, b.total as real;
    CrossMultiply(x, n, y, m);
    assert x * m == (a.attended * b.total) as real && y * n == (b.attended * a.total) as real;
  }

  lemma CrossMultiply(x: real, n: real, y: real, m: real)
    requires n > 0.0 && m > 0.0
    ensures x / n < y / m <==> x * m < y * n
    ensures x / n == y / m <==> x * m == y * n
  {
    var p, q := x / n, y / m;
    assert x * m - y * n == (p - q) * (n * m) by {
      assert x == p * n && y == q * m;
    }
    assert n * m > 0.0;
    if p < q { assert (p - q) * (n * m) < 0.0; }
    if p > q { assert (p - q) * (n * m) > 0.0; }
  }

  /** The order of the list, without rates: at risk first; then the lower attendance, compared by cross multiplication;
      then the name. */
  lemma RiskOrderMeans(a: Absence, b: Absence)
    requires a.total > 0 && b.total > 0
    ensures RiskBefore(a, b) <==>
            || (a.atRisk && !b.atRisk)
            || (a.atRisk == b.atRisk && a.attended * b.total < b.attended * a.total)
            || (a.atRisk == b.atRisk && a.attended * b.total == b.attended * a.total && StringBefore(a.name, b.name))
  {
    RatesCompare(a, b);
  }
}
