/** Payload validation and the suspicion rules (internal/scraper/validation.go). */
module Validation {
  import opened Domain
  import opened Canonical

  // ---- What a valid payload is ----

  predicate StatusAccepted(s: SessionStatus) {
    Trim(s) in {"", NOT_STARTED, ACTIVE, DONE, AUTH_ERROR}
  }

  function CheckedIn(students: seq<StudentCheckin>): nat {
    if students == [] then 0
    else CheckedIn(students[..|students| - 1]) + if students[|students| - 1].checkedIn then 1 else 0
  }

  /** The contract of ValidatePayload: right shape, right resource, nonblank distinct ids, and the
      per-kind consistency rules. */
  predicate ValidPayload(kind: Kind, v: Value, key: string, c: Codec) {
    && KindOf(kind, v)
    && DistinctIds(v)
    && (forall i :: 0 <= i < |Ids(v)| ==> !Blank(Ids(v)[i]))
    && match v
       case Course(course, sessions) =>
         && (key == "" || course.courseId == key)
         && forall i :: 0 <= i < |sessions| ==>
              StatusAccepted(sessions[i].status) && (sessions[i].date == "" || c.isDate(sessions[i].date))
       case Session(session, students, _, _) =>
         (key == "" || session.sessionId == key) && session.checkedInCount == CheckedIn(students)
       case _ => true
  }

  /** As many different ids as records, and none of them blank. */
  ghost predicate Identified(ids: seq<string>) {
    |set i | 0 <= i < |ids| :: ids[i]| == |ids| && forall i :: 0 <= i < |ids| ==> Trim(ids[i]) != ""
  }

  lemma {:induction false} DistinctMeans(ids: seq<string>)
    ensures |set i | 0 <= i < |ids| :: ids[i]| <= |ids|
    ensures |set i | 0 <= i < |ids| :: ids[i]| == |ids| <==> forall i, j :: 0 <= i < j < |ids| ==> ids[i] != ids[j]
  {
    if ids != [] {
      var n := |ids| - 1;
      DistinctMeans(ids[..n]);
      var all, most := set i | 0 <= i < |ids| :: ids[i], set i | 0 <= i < n :: ids[..n][i];
      assert all == most + {ids[n]};
    }
  }

  /** Exactly what is accepted, kind by kind: the asked resource, records with nonblank ids of their own, known
      statuses and dates, and a check-in count that is the number of checked-in students. */
  lemma ValidExactly(kind: Kind, v: Value, key: string, c: Codec)
    ensures ValidPayload(kind, v, key, c) <==>
            match kind
            case CourseCatalog =>
              v.Catalog? && Identified(seq(|v.courses|, i requires 0 <= i < |v.courses| => v.courses[i].courseId))
            case CourseDetail =>
              && v.Course? && (key == "" || v.course.courseId == key)
              && Identified(seq(|v.sessions|, i requires 0 <= i < |v.sessions| => v.sessions[i].sessionId))
              && forall i :: 0 <= i < |v.sessions| ==>
                   && Trim(v.sessions[i].status) in {"", "not_started", "active", "done", "auth_error"}
                   && (v.sessions[i].date == "" || c.isDate(v.sessions[i].date))
            case SessionDetail =>
              && v.Session? && (key == "" || v.session.sessionId == key)
              && Identified(seq(|v.students|, i requires 0 <= i < |v.students| => v.students[i].studentId))
              && v.session.checkedInCount == |set i | 0 <= i < |v.students| && v.students[i].checkedIn|
            case StudentProfiles =>
              v.Profiles? && Identified(seq(|v.profiles|, i requires 0 <= i < |v.profiles| => v.profiles[i].studentId))
  {
    DistinctMeans(Ids(v));
    if v.Session? { CheckedInMeans(v.students); }
  }

  lemma {:induction false} CheckedInMeans(students: seq<StudentCheckin>)
    ensures CheckedIn(students) == |set i | 0 <= i < |students| && students[i].checkedIn|
  {
    if students != [] {
      var n := |students| - 1;
      CheckedInMeans(students[..n]);
      var all := set i | 0 <= i < |students| && students[i].checkedIn;
      var most := set i | 0 <= i < n && students[..n][i].checkedIn;
      assert all == if students[n].checkedIn then most + {n} else most;
    }
  }

  /** The duplicate scan shared by the four validators. */
  method ScanIds(ids: seq<string>) returns (ok: bool)
    ensures ok <==> (forall i, j :: 0 <= i < j < |ids| ==> ids[i] != ids[j])
                    && (forall i :: 0 <= i < |ids| ==> !Blank(ids[i]))
  {
    var seen: set<string> := {};
    var n := 0;
    while n < |ids|
      invariant 0 <= n <= |ids|
      invariant seen == set i | 0 <= i < n :: ids[i]
      invariant forall i, j :: 0 <= i < j < n ==> ids[i] != ids[j]
      invariant forall i :: 0 <= i < n ==> !Blank(ids[i])
    {
      if Blank(ids[n]) { return false; }
      if ids[n] in seen { return false; }
      seen := seen + {ids[n]};
      n := n + 1;
    }
    return true;
  }

  method ScanSessions(sessions: seq<SessionSummary>, c: Codec) returns (ok: bool)
    ensures ok <==> forall i :: 0 <= i < |sessions| ==>
              StatusAccepted(sessions[i].status) && (sessions[i].date == "" || c.isDate(sessions[i].date))
  {
    for n := 0 to |sessions|
      invariant forall i :: 0 <= i < n ==>
        StatusAccepted(sessions[i].status) && (sessions[i].date == "" || c.isDate(sessions[i].date))
    {
      if !StatusAccepted(sessions[n].status) { return false; }
      if sessions[n].date != "" && !c.isDate(sessions[n].date) { return false; }
    }
    return true;
  }

  method CountCheckedIn(students: seq<StudentCheckin>) returns (n: nat)
    ensures n == CheckedIn(students)
  {
    n := 0;
    for i := 0 to |students|
      invariant n == CheckedIn(students[..i])
    {
      assert students[..i + 1][..i] == students[..i];
      if students[i].checkedIn { n := n + 1; }
    }
    assert students[..|students|] == students;
  }

  /** `Some(n)` is acceptance with record count n; unlike `CountRecords` it counts every kind. */
  method ValidatePayload(kind: Kind, v: Value, key: string, c: Codec) returns (r: Option<nat>)
    ensures r.Some? <==> ValidPayload(kind, v, key, c)
    ensures r.Some? ==> r.value == |Ids(v)|
  {
    if !KindOf(kind, v) { return None; }
    match v {
      case Course(course, sessions) =>
        if key != "" && course.courseId != key { return None; }
        var sessionsOk := ScanSessions(sessions, c);
        if !sessionsOk { return None; }
      case Session(session, students, _, _) =>
        if key != "" && session.sessionId != key { return None; }
        var n := CountCheckedIn(students);
        if n != session.checkedInCount { return None; }
      case _ =>
    }
    var ok := ScanIds(Ids(v));
    return if ok then Some(|Ids(v)|) else None;
  }

  // ---- Suspicion ----

  function IdSet(v: Value): set<string> {
    set i | 0 <= i < |Ids(v)| && Ids(v)[i] != "" :: Ids(v)[i]
  }

  const MINIMUM_PREVIOUS_COUNT := 2
  const MAXIMUM_DROP_RATIO := 0.20
  const MAX_MISSING_ID_RATIO := 0.10

  /** The rules of DefaultChangeSafetyPolicy. An empty `previousIds` (unreadable or undecodable previous
      snapshot) disables the id rule. */
  predicate Suspicious(count: nat, ids: set<string>, previousCount: int, previousIds: set<string>) {
    && previousCount > 0
    && (|| count == 0
        || (&& previousCount >= MINIMUM_PREVIOUS_COUNT
            && (|| (previousCount - count) as real / previousCount as real > MAXIMUM_DROP_RATIO
                || (previousIds != {} && |previousIds - ids| as real / |previousIds| as real > MAX_MISSING_ID_RATIO))))
  }

  method CountMissing(previousIds: set<string>, ids: set<string>) returns (missing: nat)
    ensures missing == |previousIds - ids|
  {
    missing := 0;
    var rest := previousIds;
    while rest != {}
      invariant missing + |rest - ids| == |previousIds - ids|
      decreases rest
    {
      var id :| id in rest;
      if id !in ids {
        assert rest - ids == ((rest - {id}) - ids) + {id};
        missing := missing + 1;
      } else {
        assert rest - ids == (rest - {id}) - ids;
      }
      rest := rest - {id};
    }
  }

  method ClassifyChangeAgainst(count: nat, ids: set<string>, previousCount: int, previousIds: set<string>)
    returns (suspicious: bool)
    ensures suspicious <==> Suspicious(count, ids, previousCount, previousIds)
  {
    if previousCount <= 0 { return false; }
    if count == 0 { return true; }
    var dropRatio := (previousCount - count) as real / previousCount as real;
    if previousCount >= MINIMUM_PREVIOUS_COUNT && dropRatio > MAXIMUM_DROP_RATIO { return true; }
    if previousCount >= MINIMUM_PREVIOUS_COUNT && previousIds != {} {
      var missing := CountMissing(previousIds, ids);
      if missing as real / |previousIds| as real > MAX_MISSING_ID_RATIO { return true; }
    }
    return false;
  }

  lemma RatioAtMost(part: int, whole: nat, numerator: nat, denominator: nat)
    requires whole > 0 && denominator > 0
    ensures part as real / whole as real <= numerator as real / denominator as real
            <==> denominator * part <= numerator * whole
  {
    var p, w, n, d := part as real, whole as real, numerator as real, denominator as real;
    assert p / w <= n / d <==> p * d <= n * w by {
      assert p == (p / w) * w;
      assert n == (n / d) * d;
      if p / w <= n / d {
        assert ((n / d) - (p / w)) * (w * d) >= 0.0;
        assert ((n / d) - (p / w)) * (w * d) == n * w - p * d;
      } else {
        assert ((p / w) - (n / d)) * (w * d) > 0.0;
        assert ((p / w) - (n / d)) * (w * d) == p * d - n * w;
      }
    }
    assert p * d == (part * denominator) as real;
    assert n * w == (numerator * whole) as real;
  }

  /** Read without ratios: with at least two previous records, an unsuspicious payload keeps at least
      four fifths of the count and, when the previous ids are known, nine tenths of them; and conversely. */
  lemma UnsuspiciousKeepsMost(count: nat, ids: set<string>, previousCount: int, previousIds: set<string>)
    requires previousCount >= MINIMUM_PREVIOUS_COUNT
    ensures !Suspicious(count, ids, previousCount, previousIds) <==>
            count > 0 && 5 * count >= 4 * previousCount && 10 * |previousIds * ids| >= 9 * |previousIds|
  {
    RatioAtMost(previousCount - count, previousCount, 1, 5);
    assert previousIds == (previousIds * ids) + (previousIds - ids);
    assert |previousIds| == |previousIds * ids| + |previousIds - ids|;
    if previousIds != {} {
      RatioAtMost(|previousIds - ids|, |previousIds|, 1, 10);
    }
  }
}
