/** Canonical form of a fetched value (internal/scraper/canonical.go). JSON encoding, SHA-256 and
    RFC 3339 parsing enter as the functions of a `Codec`; everything else is computed here. */
module Canonical {
  import opened Domain

  /** `hash` is the content hash of the encoded value (0 is the all-zero hash), `size` the length of
      the encoding, `stamp` the RFC 3339 normaliser and `isDate` the YYYY-MM-DD parser. */
  datatype Codec = Codec(
    hash: Value -> int, size: Value -> int, stamp: string -> string, isDate: string -> bool)

  ghost predicate StampIdempotent(c: Codec) {
    forall t :: c.stamp(c.stamp(t)) == c.stamp(t)
  }

  /** The hash tells these two values apart. */
  predicate NoCollision(c: Codec, v: Value, w: Value) {
    c.hash(v) == c.hash(w) ==> v == w
  }

  // ---- Stable sorting, as sort.SliceStable promises it ----

  function Insert<T>(x: T, s: seq<T>, before: (T, T) -> bool): (r: seq<T>)
    ensures multiset(r) == multiset{x} + multiset(s)
  {
    if s == [] || !before(s[0], x) then [x] + s
    else
      assert s == [s[0]] + s[1..];
      [s[0]] + Insert(x, s[1..], before)
  }

  function StableSort<T>(s: seq<T>, before: (T, T) -> bool): (r: seq<T>)
    ensures multiset(r) == multiset(s)
  {
    if s == [] then [] else
      assert s == [s[0]] + s[1..];
      Insert(s[0], StableSort(s[1..], before), before)
  }

  ghost predicate Sorted<T(!new)>(s: seq<T>, before: (T, T) -> bool) {
    forall i, j :: 0 <= i < j < |s| ==> !before(s[j], s[i])
  }

  /** A strict weak order, said of its complement: "not after" is reflexive, total and transitive. */
  ghost predicate WeakOrder<T(!new)>(before: (T, T) -> bool) {
    && (forall x, y :: before(x, y) ==> !before(y, x))
    && (forall x, y, z :: !before(y, x) && !before(z, y) ==> !before(z, x))
  }

  lemma {:induction false} InsertSorted<T(!new)>(x: T, s: seq<T>, before: (T, T) -> bool)
    requires WeakOrder(before) && Sorted(s, before)
    ensures Sorted(Insert(x, s, before), before)
  {
    if s != [] && before(s[0], x) {
      InsertSorted(x, s[1..], before);
      var rest := Insert(x, s[1..], before);
      forall j | 0 <= j < |rest| ensures !before(rest[j], s[0]) {
        assert rest[j] in multiset(rest);
        if rest[j] != x { assert rest[j] in s[1..]; }
      }
    }
  }

  lemma {:induction false} SortSorts<T(!new)>(s: seq<T>, before: (T, T) -> bool)
    requires WeakOrder(before)
    ensures Sorted(StableSort(s, before), before)
  {
    if s != [] {
      SortSorts(s[1..], before);
      InsertSorted(s[0], StableSort(s[1..], before), before);
    }
  }

  /** Sorting a sorted sequence is the identity; this is where stability is needed. */
  lemma {:induction false} SortOfSorted<T(!new)>(s: seq<T>, before: (T, T) -> bool)
    requires Sorted(s, before)
    ensures StableSort(s, before) == s
  {
    if s != [] {
      SortOfSorted(s[1..], before);
      if |s| > 1 { assert !before(s[1], s[0]); }
    }
  }

  lemma SameHead<T(!new)>(a: seq<T>, b: seq<T>, before: (T, T) -> bool)
    requires Sorted(a, before) && Sorted(b, before) && multiset(a) == multiset(b) && a != []
    requires forall x, y :: x in a && y in a && x != y ==> before(x, y) || before(y, x)
    ensures b != [] && a[0] == b[0]
  {
    assert a[0] in multiset(b);
    assert b[0] in multiset(a);
    var i :| 0 <= i < |b| && b[i] == a[0];
    var j :| 0 <= j < |a| && a[j] == b[0];
  }

  lemma TailBag<T>(a: seq<T>)
    requires a != []
    ensures multiset(a[1..]) == multiset(a) - multiset{a[0]}
  {
    assert a == [a[0]] + a[1..];
  }

  /** Two sorted arrangements of the same records are equal when different records never tie. */
  lemma {:induction false} SortedUnique<T(!new)>(a: seq<T>, b: seq<T>, before: (T, T) -> bool)
    requires Sorted(a, before) && Sorted(b, before) && multiset(a) == multiset(b)
    requires forall x, y :: x in a && y in a && x != y ==> before(x, y) || before(y, x)
    ensures a == b
  {
    if a == [] {
      assert |b| == |multiset(b)| == 0;
    } else {
      SameHead(a, b, before);
      TailBag(a);
      TailBag(b);
      SortedUnique(a[1..], b[1..], before);
    }
  }

  // ---- The four record orders ----

  predicate CourseBefore(a: CourseSummary, b: CourseSummary) {
    if a.courseId == b.courseId then StringBefore(a.name, b.name) else StringBefore(a.courseId, b.courseId)
  }

  predicate SessionBefore(a: SessionSummary, b: SessionSummary) {
    if a.number == b.number then StringBefore(a.sessionId, b.sessionId) else a.number < b.number
  }

  predicate StudentBefore(a: StudentCheckin, b: StudentCheckin) {
    if a.studentId == b.studentId then StringBefore(a.name, b.name) else StringBefore(a.studentId, b.studentId)
  }

  predicate ProfileBefore(a: StudentProfile, b: StudentProfile) {
    if a.studentGuid == b.studentGuid then
      if a.studentId == b.studentId then StringBefore(a.fullName, b.fullName)
      else StringBefore(a.studentId, b.studentId)
    else StringBefore(a.studentGuid, b.studentGuid)
  }

  lemma StringsWeaklyOrdered()
    ensures WeakOrder(StringBefore)
    ensures forall a, b :: a != b ==> StringBefore(a, b) || StringBefore(b, a)
    ensures forall a :: !StringBefore(a, a)
  {
    forall a: string, b: string
      ensures a != b ==> StringBefore(a, b) || StringBefore(b, a)
      ensures StringBefore(a, b) ==> !StringBefore(b, a)
    { StringOrderLinear(a, b); }
    forall a: string ensures !StringBefore(a, a) { StringOrderLinear(a, a); }
    forall x: string, y: string, z: string | !StringBefore(y, x) && !StringBefore(z, y)
      ensures !StringBefore(z, x)
    {
      StringOrderLinear(x, y); StringOrderLinear(y, z); StringOrderLinear(x, z);
      if x != y && y != z { StringOrderTransitive(x, y, z); }
    }
  }

  lemma RecordOrders()
    ensures WeakOrder(CourseBefore) && WeakOrder(SessionBefore)
    ensures WeakOrder(StudentBefore) && WeakOrder(ProfileBefore)
    ensures forall a: CourseSummary, b: CourseSummary ::
              a.courseId != b.courseId ==> CourseBefore(a, b) || CourseBefore(b, a)
    ensures forall a: SessionSummary, b: SessionSummary ::
              a.sessionId != b.sessionId ==> SessionBefore(a, b) || SessionBefore(b, a)
    ensures forall a: StudentCheckin, b: StudentCheckin ::
              a.studentId != b.studentId ==> StudentBefore(a, b) || StudentBefore(b, a)
    ensures forall a: StudentProfile, b: StudentProfile ::
              a.studentId != b.studentId ==> ProfileBefore(a, b) || ProfileBefore(b, a)
  {
    StringsWeaklyOrdered();
  }

  // ---- canonicalValue and Canonicalize ----

  function NormalizeStudent(s: StudentCheckin, c: Codec): StudentCheckin {
    s.(checkedInAt := NormalizeStamp(s.checkedInAt, c))
  }

  function NormalizeStamp(t: Option<string>, c: Codec): Option<string> {
    if t.Some? then Some(c.stamp(t.value)) else None
  }

  function NormalizeStudents(s: seq<StudentCheckin>, c: Codec): (r: seq<StudentCheckin>)
    ensures |r| == |s| && forall i :: 0 <= i < |s| ==> r[i] == NormalizeStudent(s[i], c)
  {
    seq(|s|, i requires 0 <= i < |s| => NormalizeStudent(s[i], c))
  }

  /** The rewriting loop over the copied roster, in place. */
  method NormalizeInPlace(students: array<StudentCheckin>, c: Codec)
    modifies students
    ensures students[..] == NormalizeStudents(old(students[..]), c)
  {
    var i := 0;
    while i < students.Length
      invariant 0 <= i <= students.Length
      invariant forall k :: 0 <= k < i ==> students[k] == NormalizeStudent(old(students[k]), c)
      invariant forall k :: i <= k < students.Length ==> students[k] == old(students[k])
    {
      if students[i].checkedInAt.Some? {
        students[i] := students[i].(checkedInAt := Some(c.stamp(students[i].checkedInAt.value)));
      }
      i := i + 1;
    }
  }

  predicate KindOf(kind: Kind, v: Value) {
    match kind
    case CourseCatalog => v.Catalog?
    case CourseDetail => v.Course?
    case SessionDetail => v.Session?
    case StudentProfiles => v.Profiles?
  }

  function CanonicalValue(kind: Kind, v: Value, c: Codec): Option<Value> {
    if !KindOf(kind, v) then None else
      match v
      case Catalog(courses) => Some(Catalog(StableSort(courses, CourseBefore)))
      case Course(course, sessions) => Some(Course(course, StableSort(sessions, SessionBefore)))
      case Session(session, students, active, expires) =>
        Some(Session(session, StableSort(NormalizeStudents(students, c), StudentBefore), active,
                     NormalizeStamp(expires, c)))
      case Profiles(profiles) => Some(Profiles(StableSort(profiles, ProfileBefore)))
  }

  /** Only the two collection kinds are counted; both detail kinds count as 0 (canonical.go:65-74). */
  function CountRecords(v: Value): nat {
    match v
    case Catalog(courses) => |courses|
    case Profiles(profiles) => |profiles|
    case _ => 0
  }

  datatype Canonicalized = Canonicalized(payload: Value, hash: int, count: nat)

  function Canonicalize(kind: Kind, v: Value, c: Codec, maxBytes: int): (r: Option<Canonicalized>) {
    if maxBytes <= 0 then None else
      match CanonicalValue(kind, v, c)
      case None => None
      case Some(n) => if c.size(n) > maxBytes then None else Some(Canonicalized(n, c.hash(n), CountRecords(n)))
  }

  // ---- What canonicalisation means ----

  function Ids(v: Value): seq<string> {
    match v
    case Catalog(courses) => seq(|courses|, i requires 0 <= i < |courses| => courses[i].courseId)
    case Course(_, sessions) => seq(|sessions|, i requires 0 <= i < |sessions| => sessions[i].sessionId)
    case Session(_, students, _, _) => seq(|students|, i requires 0 <= i < |students| => students[i].studentId)
    case Profiles(profiles) => seq(|profiles|, i requires 0 <= i < |profiles| => profiles[i].studentId)
    case Untyped => []
  }

  predicate DistinctIds(v: Value) {
    forall i, j :: 0 <= i < j < |Ids(v)| ==> Ids(v)[i] != Ids(v)[j]
  }

  /** Two fetched values carry the same information: equal headers and the same bag of records, where a
      timestamp is read up to normalisation. Nothing is said about order. */
  ghost predicate SameInformation(v: Value, w: Value, c: Codec) {
    match (v, w)
    case (Catalog(a), Catalog(b)) => multiset(a) == multiset(b)
    case (Course(ha, a), Course(hb, b)) => ha == hb && multiset(a) == multiset(b)
    case (Session(ha, a, qa, ea), Session(hb, b, qb, eb)) =>
      && ha == hb && qa == qb && NormalizeStamp(ea, c) == NormalizeStamp(eb, c)
      && multiset(NormalizeStudents(a, c)) == multiset(NormalizeStudents(b, c))
    case (Profiles(a), Profiles(b)) => multiset(a) == multiset(b)
    case _ => false
  }

  lemma SortTwice<T(!new)>(s: seq<T>, before: (T, T) -> bool)
    requires WeakOrder(before)
    ensures StableSort(StableSort(s, before), before) == StableSort(s, before)
  {
    SortSorts(s, before);
    SortOfSorted(StableSort(s, before), before);
  }

  lemma NormalizeTwice(s: seq<StudentCheckin>, c: Codec)
    requires StampIdempotent(c)
    ensures var sorted := StableSort(NormalizeStudents(s, c), StudentBefore);
            NormalizeStudents(sorted, c) == sorted
  {
    var sorted := StableSort(NormalizeStudents(s, c), StudentBefore);
    forall i | 0 <= i < |sorted| ensures NormalizeStudent(sorted[i], c) == sorted[i] {
      assert sorted[i] in multiset(sorted);
      assert sorted[i] in NormalizeStudents(s, c);
    }
  }

  /** Canonical forms are fixed points, for every value whether or not it would pass validation. */
  lemma CanonicalIdempotent(kind: Kind, v: Value, c: Codec)
    requires StampIdempotent(c)
    requires CanonicalValue(kind, v, c).Some?
    ensures CanonicalValue(kind, CanonicalValue(kind, v, c).value, c) == CanonicalValue(kind, v, c)
  {
    RecordOrders();
    match v {
      case Catalog(courses) => SortTwice(courses, CourseBefore);
      case Course(_, sessions) => SortTwice(sessions, SessionBefore);
      case Session(_, students, _, _) =>
        SortTwice(NormalizeStudents(students, c), StudentBefore);
        NormalizeTwice(students, c);
      case Profiles(profiles) => SortTwice(profiles, ProfileBefore);
    }
  }

  lemma DistinctRecordsDiffer(v: Value, c: Codec)
    requires DistinctIds(v)
    ensures v.Catalog? ==> forall x, y :: x in v.courses && y in v.courses && x != y ==> x.courseId != y.courseId
    ensures v.Course? ==> forall x, y :: x in v.sessions && y in v.sessions && x != y ==> x.sessionId != y.sessionId
    ensures v.Session? ==> var n := NormalizeStudents(v.students, c);
                           forall x, y :: x in n && y in n && x != y ==> x.studentId != y.studentId
    ensures v.Profiles? ==> forall x, y :: x in v.profiles && y in v.profiles && x != y ==> x.studentId != y.studentId
  {
    var ids := Ids(v);
    match v {
      case Catalog(r) =>
        forall x, y | x in r && y in r && x != y ensures x.courseId != y.courseId {
          var i :| 0 <= i < |r| && r[i] == x; var j :| 0 <= j < |r| && r[j] == y;
          assert ids[i] == x.courseId && ids[j] == y.courseId;
        }
      case Course(_, r) =>
        forall x, y | x in r && y in r && x != y ensures x.sessionId != y.sessionId {
          var i :| 0 <= i < |r| && r[i] == x; var j :| 0 <= j < |r| && r[j] == y;
          assert ids[i] == x.sessionId && ids[j] == y.sessionId;
        }
      case Session(_, r, _, _) =>
        var n := NormalizeStudents(r, c);
        forall x, y | x in n && y in n && x != y ensures x.studentId != y.studentId {
          var i :| 0 <= i < |n| && n[i] == x; var j :| 0 <= j < |n| && n[j] == y;
          assert ids[i] == r[i].studentId && ids[j] == r[j].studentId;
        }
      case Profiles(r) =>
        forall x, y | x in r && y in r && x != y ensures x.studentId != y.studentId {
          var i :| 0 <= i < |r| && r[i] == x; var j :| 0 <= j < |r| && r[j] == y;
          assert ids[i] == x.studentId && ids[j] == y.studentId;
        }
      case Untyped =>
    }
  }

  lemma SortsAgree<T(!new)>(a: seq<T>, b: seq<T>, before: (T, T) -> bool)
    requires WeakOrder(before) && multiset(a) == multiset(b)
    requires forall x, y :: x in a && y in a && x != y ==> before(x, y) || before(y, x)
    ensures StableSort(a, before) == StableSort(b, before)
  {
    SortSorts(a, before);
    SortSorts(b, before);
    var sa := StableSort(a, before);
    forall x | x in sa ensures x in a { assert x in multiset(sa); }
    SortedUnique(sa, StableSort(b, before), before);
  }

  /** For values with distinct ids, canonical form forgets record order and nothing else. */
  lemma CanonicalCharacterized(kind: Kind, v: Value, w: Value, c: Codec)
    requires KindOf(kind, v) && KindOf(kind, w) && DistinctIds(v)
    ensures CanonicalValue(kind, v, c) == CanonicalValue(kind, w, c) <==> SameInformation(v, w, c)
  {
    RecordOrders();
    DistinctRecordsDiffer(v, c);
    if SameInformation(v, w, c) {
      match v {
        case Catalog(a) => SortsAgree(a, w.courses, CourseBefore);
        case Course(_, a) => SortsAgree(a, w.sessions, SessionBefore);
        case Session(_, a, _, _) =>
          SortsAgree(NormalizeStudents(a, c), NormalizeStudents(w.students, c), StudentBefore);
        case Profiles(a) => SortsAgree(a, w.profiles, ProfileBefore);
      }
    }
    if CanonicalValue(kind, v, c) == CanonicalValue(kind, w, c) {
      match v {
        case Catalog(a) =>
          assert multiset(StableSort(a, CourseBefore)) == multiset(StableSort(w.courses, CourseBefore));
        case Course(_, a) =>
          assert multiset(StableSort(a, SessionBefore)) == multiset(StableSort(w.sessions, SessionBefore));
        case Session(_, a, _, _) =>
          assert multiset(StableSort(NormalizeStudents(a, c), StudentBefore))
              == multiset(StableSort(NormalizeStudents(w.students, c), StudentBefore));
        case Profiles(a) =>
          assert multiset(StableSort(a, ProfileBefore)) == multiset(StableSort(w.profiles, ProfileBefore));
      }
    }
  }

  /** The same of content hashes: equal information always has equal hashes, and comparing hashes decides whether
      the information is equal if and only if the two canonical forms do not collide. */
  lemma HashCharacterized(kind: Kind, v: Value, w: Value, c: Codec, maxBytes: int)
    requires DistinctIds(v)
    requires Canonicalize(kind, v, c, maxBytes).Some? && Canonicalize(kind, w, c, maxBytes).Some?
    ensures var a, b := Canonicalize(kind, v, c, maxBytes).value, Canonicalize(kind, w, c, maxBytes).value;
            && (SameInformation(v, w, c) ==> a.hash == b.hash)
            && ((a.hash == b.hash <==> SameInformation(v, w, c)) <==> NoCollision(c, a.payload, b.payload))
  {
    CanonicalCharacterized(kind, v, w, c);
  }

  /** Canonicalisation keeps the id bag, so the ids read back from a stored payload are the fetched ids. */
  lemma CanonicalKeepsIds(kind: Kind, v: Value, c: Codec)
    requires CanonicalValue(kind, v, c).Some?
    ensures forall id :: id in Ids(CanonicalValue(kind, v, c).value) <==> id in Ids(v)
    ensures |Ids(CanonicalValue(kind, v, c).value)| == |Ids(v)|
  {
    var n := CanonicalValue(kind, v, c).value;
    match v {
      case Catalog(a) =>
        SameMembers(n.courses, a);
        SameImages(n.courses, a, (r: CourseSummary) => r.courseId, Ids(n), Ids(v));
      case Course(_, a) =>
        SameMembers(n.sessions, a);
        SameImages(n.sessions, a, (r: SessionSummary) => r.sessionId, Ids(n), Ids(v));
      case Session(_, a, _, _) =>
        SameMembers(n.students, NormalizeStudents(a, c));
        SameImages(n.students, NormalizeStudents(a, c), (r: StudentCheckin) => r.studentId, Ids(n), Ids(v));
      case Profiles(a) =>
        SameMembers(n.profiles, a);
        SameImages(n.profiles, a, (r: StudentProfile) => r.studentId, Ids(n), Ids(v));
    }
  }

  lemma SameMembers<T>(a: seq<T>, b: seq<T>)
    requires multiset(a) == multiset(b)
    ensures |a| == |b| && forall x :: x in a <==> x in b
  {
    assert |a| == |multiset(a)|;
    forall x ensures x in a <==> x in b { assert x in a <==> x in multiset(a); }
  }

  lemma SameImages<T>(a: seq<T>, b: seq<T>, f: T -> string, fa: seq<string>, fb: seq<string>)
    requires |fa| == |a| && |fb| == |b|
    requires forall i :: 0 <= i < |a| ==> fa[i] == f(a[i])
    requires forall i :: 0 <= i < |b| ==> fb[i] == f(b[i])
    requires forall x :: x in a <==> x in b
    ensures forall id :: id in fa <==> id in fb
  {
    forall id | id in fa ensures id in fb {
      var i :| 0 <= i < |fa| && fa[i] == id;
      assert a[i] in b;
      var j :| 0 <= j < |b| && b[j] == a[i];
      assert fb[j] == id;
    }
    forall id | id in fb ensures id in fa {
      var i :| 0 <= i < |fb| && fb[i] == id;
      assert b[i] in a;
      var j :| 0 <= j < |a| && a[j] == b[i];
      assert fa[j] == id;
    }
  }

  // ---- The canonical form by itself ----

  /** Ascending by id and then name; by number and then id; by id and then name; by GUID, then id, then name. */
  ghost predicate Ascending(v: Value) {
    match v
    case Catalog(r) =>
      forall i, j :: 0 <= i < j < |r| ==>
        !StringBefore(r[j].courseId, r[i].courseId)
        && (r[i].courseId == r[j].courseId ==> !StringBefore(r[j].name, r[i].name))
    case Course(_, r) =>
      forall i, j :: 0 <= i < j < |r| ==>
        r[i].number <= r[j].number && (r[i].number == r[j].number ==> !StringBefore(r[j].sessionId, r[i].sessionId))
    case Session(_, r, _, _) =>
      forall i, j :: 0 <= i < j < |r| ==>
        !StringBefore(r[j].studentId, r[i].studentId)
        && (r[i].studentId == r[j].studentId ==> !StringBefore(r[j].name, r[i].name))
    case Profiles(r) =>
      forall i, j :: 0 <= i < j < |r| ==>
        && !StringBefore(r[j].studentGuid, r[i].studentGuid)
        && (r[i].studentGuid == r[j].studentGuid ==>
              && !StringBefore(r[j].studentId, r[i].studentId)
              && (r[i].studentId == r[j].studentId ==> !StringBefore(r[j].fullName, r[i].fullName)))
    case Untyped => false
  }

  /** The roster with every check-in time, where there is one, in the codec's form. */
  function Restamped(s: seq<StudentCheckin>, c: Codec): (r: seq<StudentCheckin>)
    ensures |r| == |s|
  {
    seq(|s|, i requires 0 <= i < |s| =>
      if s[i].checkedInAt == None then s[i] else s[i].(checkedInAt := Some(c.stamp(s[i].checkedInAt.value))))
  }

  /** The same header and records, timestamps restamped. */
  ghost predicate SameRecords(v: Value, w: Value, c: Codec) {
    match v
    case Catalog(r) => w.Catalog? && multiset(w.courses) == multiset(r)
    case Course(h, r) => w.Course? && w.course == h && multiset(w.sessions) == multiset(r)
    case Session(h, r, active, expires) =>
      && w.Session? && w.session == h && w.qrActive == active && multiset(w.students) == multiset(Restamped(r, c))
      && w.qrExpiresAt == (if expires == None then None else Some(c.stamp(expires.value)))
    case Profiles(r) => w.Profiles? && multiset(w.profiles) == multiset(r)
    case Untyped => false
  }

  lemma CoursesAscend(r: seq<CourseSummary>)
    requires Sorted(r, CourseBefore)
    ensures Ascending(Catalog(r))
  {
    forall i, j | 0 <= i < j < |r|
      ensures !StringBefore(r[j].courseId, r[i].courseId)
              && (r[i].courseId == r[j].courseId ==> !StringBefore(r[j].name, r[i].name))
    {
      StringOrderLinear(r[i].courseId, r[j].courseId);
    }
  }

  lemma StudentsAscend(r: seq<StudentCheckin>, h: SessionSummary, active: bool, expires: Option<string>)
    requires Sorted(r, StudentBefore)
    ensures Ascending(Session(h, r, active, expires))
  {
    forall i, j | 0 <= i < j < |r|
      ensures !StringBefore(r[j].studentId, r[i].studentId)
              && (r[i].studentId == r[j].studentId ==> !StringBefore(r[j].name, r[i].name))
    {
      StringOrderLinear(r[i].studentId, r[j].studentId);
    }
  }

  lemma ProfilesAscend(r: seq<StudentProfile>)
    requires Sorted(r, ProfileBefore)
    ensures Ascending(Profiles(r))
  {
    forall i, j | 0 <= i < j < |r|
      ensures !StringBefore(r[j].studentGuid, r[i].studentGuid)
              && (r[i].studentGuid == r[j].studentGuid ==>
                    && !StringBefore(r[j].studentId, r[i].studentId)
                    && (r[i].studentId == r[j].studentId ==> !StringBefore(r[j].fullName, r[i].fullName)))
    {
      StringOrderLinear(r[i].studentGuid, r[j].studentGuid);
      StringOrderLinear(r[i].studentId, r[j].studentId);
    }
  }

  lemma CanonicalAscends(kind: Kind, v: Value, c: Codec)
    requires CanonicalValue(kind, v, c).Some?
    ensures Ascending(CanonicalValue(kind, v, c).value)
  {
    RecordOrders();
    match v {
      case Catalog(r) =>
        SortSorts(r, CourseBefore);
        CoursesAscend(StableSort(r, CourseBefore));
      case Course(_, r) => SortSorts(r, SessionBefore);
      case Session(h, r, active, expires) =>
        var sorted := StableSort(NormalizeStudents(r, c), StudentBefore);
        SortSorts(NormalizeStudents(r, c), StudentBefore);
        StudentsAscend(sorted, h, active, NormalizeStamp(expires, c));
      case Profiles(r) =>
        SortSorts(r, ProfileBefore);
        ProfilesAscend(StableSort(r, ProfileBefore));
    }
  }

  /** Exactly the values of the asked kind have a canonical form. It is ascending, holds the same records, and is
      counted by record for the two collection kinds and as nothing for the two detail kinds. */
  lemma CanonicalMeans(kind: Kind, v: Value, c: Codec)
    ensures CanonicalValue(kind, v, c).Some? <==>
            || (kind.CourseCatalog? && v.Catalog?) || (kind.CourseDetail? && v.Course?)
            || (kind.SessionDetail? && v.Session?) || (kind.StudentProfiles? && v.Profiles?)
    ensures CanonicalValue(kind, v, c).Some? ==>
              var n := CanonicalValue(kind, v, c).value;
              && Ascending(n) && SameRecords(v, n, c)
              && CountRecords(n) == if v.Catalog? then |v.courses| else if v.Profiles? then |v.profiles| else 0
  {
    if CanonicalValue(kind, v, c).Some? {
      CanonicalAscends(kind, v, c);
      match v {
        case Catalog(r) => SameMembers(StableSort(r, CourseBefore), r);
        case Course(_, r) =>
        case Session(_, r, _, _) => assert NormalizeStudents(r, c) == Restamped(r, c);
        case Profiles(r) => SameMembers(StableSort(r, ProfileBefore), r);
      }
    }
  }
}
