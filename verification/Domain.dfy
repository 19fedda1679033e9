/** The values every part of the system exchanges: the four kinds of snapshot, the records
    inside them, run outcomes, and Go's ordering of strings. */
module Domain {

  datatype Option<+T> = None | Some(value: T)

  datatype Kind = CourseCatalog | CourseDetail | SessionDetail | StudentProfiles

  /** As in the source a status is any string; these are the four it knows. */
  type SessionStatus = string

  const NOT_STARTED := "not_started"
  const ACTIVE := "active"
  const DONE := "done"
  const AUTH_ERROR := "auth_error"

  /** `avgAttendance` stands for the bits of a float64; nothing here computes with it. */
  datatype CourseSummary = CourseSummary(
    courseId: string, name: string, startDate: string, endDate: string, enrolled: int,
    totalSessions: int, completedSessions: int, avgAttendance: int, status: string)

  datatype SessionSummary = SessionSummary(
    sessionId: string, number: int, name: string, date: string,
    checkedInCount: int, totalStudents: int, status: SessionStatus)

  datatype StudentCheckin = StudentCheckin(
    studentId: string, name: string, nickname: string, school: string, avatarUrl: string,
    checkedIn: bool, checkedInAt: Option<string>, points: int)

  datatype StudentProfile = StudentProfile(
    studentId: string, studentGuid: string, fullName: string, school: string)

  /** A fetched value. `Untyped` stands for nil, a typed nil pointer or a value of a foreign type. */
  datatype Value =
    | Catalog(courses: seq<CourseSummary>)
    | Course(course: CourseSummary, sessions: seq<SessionSummary>)
    | Session(session: SessionSummary, students: seq<StudentCheckin>, qrActive: bool, qrExpiresAt: Option<string>)
    | Profiles(profiles: seq<StudentProfile>)
    | Untyped

  datatype Outcome =
    | Changed | Unchanged | NotModified | RateLimited | AuthError | TransientError
    | NotFound | PermanentError | InvalidPayload | Canceled | Quarantined

  predicate Successful(o: Outcome) {
    o.Changed? || o.Unchanged? || o.NotModified?
  }

  lemma PickOne<T>(s: set<T>) returns (x: T)
    requires s != {}
    ensures x in s
  {
    x :| x in s;
  }

  lemma PickOutside<T>(a: set<T>, b: set<T>) returns (x: T)
    requires !(a <= b)
    ensures x in a && x !in b
  {
    x :| x in a && x !in b;
  }

  // ---- strings.TrimSpace ----

  predicate IsSpace(c: char) {
    || '\t' <= c <= '\r' || c == ' ' || c == '\U{85}' || c == '\U{A0}' || c == '\U{1680}'
    || '\U{2000}' <= c <= '\U{200A}' || c == '\U{2028}' || c == '\U{2029}'
    || c == '\U{202F}' || c == '\U{205F}' || c == '\U{3000}'
  }

  function Trim(s: string): string {
    if s == [] then []
    else if IsSpace(s[0]) then Trim(s[1..])
    else if IsSpace(s[|s| - 1]) then Trim(s[..|s| - 1])
    else s
  }

  predicate Blank(s: string) { Trim(s) == "" }

  /** The text between the first and the last character that is not space. */
  ghost predicate Core(s: string, i: nat, j: nat) {
    && i < j <= |s| && !IsSpace(s[i]) && !IsSpace(s[j - 1])
    && (forall k :: 0 <= k < i || j <= k < |s| ==> IsSpace(s[k]))
  }

  ghost predicate AllSpace(s: string) { forall k :: 0 <= k < |s| ==> IsSpace(s[k]) }

  lemma SpaceBefore(s: string)
    requires s != [] && IsSpace(s[0])
    ensures AllSpace(s) <==> AllSpace(s[1..])
    ensures forall i: nat, j: nat :: Core(s[1..], i, j) ==> Core(s, i + 1, j + 1) && s[i + 1..j + 1] == s[1..][i..j]
  {
    assert s == [s[0]] + s[1..];
  }

  lemma SpaceAfter(s: string)
    requires s != [] && IsSpace(s[|s| - 1])
    ensures AllSpace(s) <==> AllSpace(s[..|s| - 1])
    ensures forall i: nat, j: nat :: Core(s[..|s| - 1], i, j) ==> Core(s, i, j) && s[i..j] == s[..|s| - 1][i..j]
  {
    assert s == s[..|s| - 1] + [s[|s| - 1]];
  }

  /** Trimming leaves nothing exactly of a text that is all space, and the core of any other. */
  lemma {:induction false} TrimMeans(s: string)
    ensures Blank(s) <==> AllSpace(s)
    ensures !Blank(s) ==> exists i: nat, j: nat :: Core(s, i, j) && Trim(s) == s[i..j]
  {
    if s != [] {
      if IsSpace(s[0]) {
        TrimMeans(s[1..]);
        SpaceBefore(s);
        if !Blank(s) {
          var i: nat, j: nat :| Core(s[1..], i, j) && Trim(s[1..]) == s[1..][i..j];
          assert Core(s, i + 1, j + 1);
        }
      } else if IsSpace(s[|s| - 1]) {
        TrimMeans(s[..|s| - 1]);
        SpaceAfter(s);
        if !Blank(s) {
          var i: nat, j: nat :| Core(s[..|s| - 1], i, j) && Trim(s[..|s| - 1]) == s[..|s| - 1][i..j];
          assert Core(s, i, j);
        }
      } else {
        assert Core(s, 0, |s|) && s[0..|s|] == s;
      }
    }
  }

  // ---- Go's string order ----

  predicate StringBefore(a: string, b: string) {
    if b == [] then false
    else if a == [] then true
    else if a[0] != b[0] then a[0] < b[0]
    else StringBefore(a[1..], b[1..])
  }

  /** Strings are linearly ordered: exactly one of "before", "equal" and "after" holds. */
  lemma {:induction false} StringOrderLinear(a: string, b: string)
    ensures a != b <==> StringBefore(a, b) || StringBefore(b, a)
    ensures !(StringBefore(a, b) && StringBefore(b, a))
  {
    if a != [] && b != [] {
      StringOrderLinear(a[1..], b[1..]);
      if a[0] == b[0] {
        assert a == [a[0]] + a[1..] && b == [b[0]] + b[1..];
      }
    }
  }

  lemma {:induction false} StringOrderTransitive(a: string, b: string, c: string)
    requires StringBefore(a, b) && StringBefore(b, c)
    ensures StringBefore(a, c)
  {
    if a != [] && a[0] == b[0] == c[0] {
      StringOrderTransitive(a[1..], b[1..], c[1..]);
    }
  }

  /** The first difference decides, and a proper prefix comes first. */
  ghost predicate FirstDifference(a: string, b: string, n: nat) {
    n <= |a| && n < |b| && a[..n] == b[..n] && (n == |a| || a[n] < b[n])
  }

  lemma {:induction false} StringBeforeMeans(a: string, b: string)
    ensures StringBefore(a, b) <==> exists n: nat :: FirstDifference(a, b, n)
  {
    if a != [] && b != [] && a[0] == b[0] {
      StringBeforeMeans(a[1..], b[1..]);
      if StringBefore(a, b) {
        var n: nat :| FirstDifference(a[1..], b[1..], n);
        assert a[..n + 1] == [a[0]] + a[1..][..n] && b[..n + 1] == [b[0]] + b[1..][..n];
        assert FirstDifference(a, b, n + 1);
      }
      forall n: nat | FirstDifference(a, b, n) ensures StringBefore(a, b) {
        assert n > 0 && a[1..][..n - 1] == a[..n][1..] && b[1..][..n - 1] == b[..n][1..];
        assert FirstDifference(a[1..], b[1..], n - 1);
      }
    } else if StringBefore(a, b) {
      assert FirstDifference(a, b, 0);
    } else {
      forall n: nat ensures !FirstDifference(a, b, n) {
        assert 0 < n <= |a| && n <= |b| ==> a[..n][0] == a[0] && b[..n][0] == b[0];
      }
    }
  }
}
