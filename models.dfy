/** Course records, the in-memory course store and its snapshot file (`models.py`). */
module Models {
  import opened Wrappers
  import opened Strings
  import opened Portal

  /** One course result. `courseId` is the portal's `bkcjbh`; grade, gpa and credit are text. */
  datatype Course = Course(
    courseId: string,
    courseName: string,
    grade: string,
    gpa: string,
    term: string,
    credit: string,
    courseType: string)

  // ---------------------------------------------------------------------------
  // Identity

  /** `Course.__eq__`: the same course id in the same term, whatever the other fields say. */
  predicate SameCourse(a: Course, b: Course) {
    a.courseId == b.courseId && a.term == b.term
  }

  /** The tuple that `Course.__hash__` hashes. */
  function HashKey(c: Course): (string, string) {
    (c.courseId, c.term)
  }

  lemma EqualCoursesHashEqual(a: Course, b: Course)
    ensures SameCourse(a, b) <==> HashKey(a) == HashKey(b)
    ensures a.courseId == b.courseId && a.term == b.term ==> SameCourse(a, b)
  {}

  lemma SameCourseIsEquivalence(a: Course, b: Course, c: Course)
    ensures SameCourse(a, a)
    ensures SameCourse(a, b) ==> SameCourse(b, a)
    ensures SameCourse(a, b) && SameCourse(b, c) ==> SameCourse(a, c)
  {}

  /** `get_unique_key`: the store's key `"{course_id}_{term}"`. */
  function UniqueKey(c: Course): string {
    c.courseId + "_" + c.term
  }

  lemma UniqueKeyRespectsEquality(a: Course, b: Course)
    requires SameCourse(a, b)
    ensures UniqueKey(a) == UniqueKey(b)
  {}

  /** The key separates id and term unambiguously only when the id has no underscore. */
  lemma {:induction false} UniqueKeyInjective(a: Course, b: Course)
    requires '_' !in a.courseId && '_' !in b.courseId
    requires UniqueKey(a) == UniqueKey(b)
    ensures SameCourse(a, b)
  {
    var k, n, m := UniqueKey(a), |a.courseId|, |b.courseId|;
    assert k[n] == '_' && k[m] == '_';
    assert forall i | 0 <= i < n :: k[i] == a.courseId[i];
    assert forall i | 0 <= i < m :: k[i] == b.courseId[i];
    assert n == m;
    assert a.courseId == k[..n] == b.courseId;
    assert a.term == k[n + 1..] == b.term;
  }

  /** Two different courses can share a key: id `a_b` in term `c` and id `a` in term `b_c`. */
  lemma UniqueKeyCollision()
    ensures var a := Course("a_b", "", "", "", "c", "", "");
            var b := Course("a", "", "", "", "b_c", "", "");
            UniqueKey(a) == UniqueKey(b) && !SameCourse(a, b)
  {
    assert "a_b" + "_" + "c" == "a" + "_" + "b_c";
  }

  // ---------------------------------------------------------------------------
  // Grade updates

  /** `a.has_grade_update(b)`: same course, and the grade or the gpa differs. */
  predicate HasGradeUpdate(a: Course, b: Course) {
    a.courseId == b.courseId && a.term == b.term && (a.grade != b.grade || a.gpa != b.gpa)
  }

  lemma HasGradeUpdateMeaning(a: Course, b: Course)
    ensures !SameCourse(a, b) ==> !HasGradeUpdate(a, b)
    ensures SameCourse(a, b) ==> (HasGradeUpdate(a, b) <==> a.grade != b.grade || a.gpa != b.gpa)
    ensures !HasGradeUpdate(a, a)
    ensures HasGradeUpdate(a, b) <==> HasGradeUpdate(b, a)
  {}

  // ---------------------------------------------------------------------------
  // Conversions

  /** A JSON object of the snapshot file, with text values. */
  type Record = map<string, string>

  /** `to_dict` (`dataclasses.asdict`): one entry per field. */
  function ToDict(c: Course): (r: Record)
    ensures r.Keys == {"course_id", "course_name", "grade", "gpa", "term", "credit", "course_type"}
  {
    map["course_id" := c.courseId, "course_name" := c.courseName, "grade" := c.grade,
        "gpa" := c.gpa, "term" := c.term, "credit" := c.credit, "course_type" := c.courseType]
  }

  /** `from_dict`: every field read with default `""`. */
  function FromDict(r: Record): Course {
    Course(Field(r, "course_id", ""), Field(r, "course_name", ""), Field(r, "grade", ""),
           Field(r, "gpa", ""), Field(r, "term", ""), Field(r, "credit", ""),
           Field(r, "course_type", ""))
  }

  lemma DictRoundTrip(c: Course)
    ensures FromDict(ToDict(c)) == c
  {}

  lemma FromDictDefaults(r: Record)
    ensures "course_id" !in r ==> FromDict(r).courseId == ""
    ensures "term" !in r ==> FromDict(r).term == ""
    ensures "grade" !in r ==> FromDict(r).grade == ""
    ensures "gpa" !in r ==> FromDict(r).gpa == ""
  {}

  /** `from_raw_data`: portal field names to course fields, missing ones as `""`. */
  function FromRawData(raw: RawRecord, term: string): Course {
    Course(Field(raw, "bkcjbh", ""), Field(raw, "kcmc", ""), Field(raw, "xqcj", ""),
           Field(raw, "jd", ""), term, Field(raw, "xf", ""), Field(raw, "kctx", ""))
  }

  // ---------------------------------------------------------------------------
  // The store's dictionary, with Python's insertion order

  /** `Dict[str, Course]`: the entries and the order in which their keys were first inserted. */
  datatype CourseDict = CourseDict(entries: map<string, Course>, keys: seq<string>)

  const EMPTY: CourseDict := CourseDict(map[], [])

  /** The insertion order lists every key of the map exactly once. */
  ghost predicate WellFormed(d: CourseDict) {
    && (forall i, j :: 0 <= i < j < |d.keys| ==> d.keys[i] != d.keys[j])
    && (forall k :: k in d.entries <==> k in d.keys)
  }

  /** The store's invariant: every course is filed under its own unique key. */
  ghost predicate WellKeyed(d: CourseDict) {
    WellFormed(d) && forall k | k in d.entries :: UniqueKey(d.entries[k]) == k
  }

  /** `d[k] = c`: a new key goes to the end of the order, an existing key keeps its place. */
  function Put(d: CourseDict, k: string, c: Course): CourseDict {
    if k in d.entries then d.(entries := d.entries[k := c])
    else CourseDict(d.entries[k := c], d.keys + [k])
  }

  /** `d.values()`, in insertion order. */
  function Values(d: CourseDict): (vs: seq<Course>)
    requires WellFormed(d)
    ensures |vs| == |d.keys|
    ensures forall i | 0 <= i < |d.keys| :: vs[i] == d.entries[d.keys[i]]
  {
    seq(|d.keys|, i requires 0 <= i < |d.keys| => d.entries[d.keys[i]])
  }

  lemma ValuesAreEntries(d: CourseDict)
    requires WellFormed(d)
    ensures forall c :: c in Values(d) <==> c in d.entries.Values
  {
    var vs := Values(d);
    forall c | c in d.entries.Values ensures c in vs {
      var k :| k in d.entries && d.entries[k] == c;
      var i :| 0 <= i < |d.keys| && d.keys[i] == k;
      assert vs[i] == c;
    }
  }

  /** Distinct keys hold distinct courses, since each course is filed under its own key. */
  lemma ValuesNoDuplicates(d: CourseDict)
    requires WellKeyed(d)
    ensures NoDuplicates(Values(d))
  {
    var vs := Values(d);
    forall i, j | 0 <= i < j < |vs| ensures vs[i] != vs[j] {
      assert UniqueKey(vs[i]) == d.keys[i] && UniqueKey(vs[j]) == d.keys[j];
    }
  }

  lemma PutKeepsWellKeyed(d: CourseDict, c: Course)
    requires WellKeyed(d)
    ensures WellKeyed(Put(d, UniqueKey(c), c))
  {}

  lemma {:induction false} DistinctCard(s: seq<string>)
    requires forall i, j :: 0 <= i < j < |s| ==> s[i] != s[j]
    ensures |set k | k in s| == |s|
  {
    if s != [] {
      var init := s[..|s| - 1];
      DistinctCard(init);
      assert (set k | k in s) == (set k | k in init) + {s[|s| - 1]};
    }
  }

  /** `len(d)` is the length of the insertion order. */
  lemma CountIsLength(d: CourseDict)
    requires WellFormed(d)
    ensures |d.entries| == |d.keys|
  {
    DistinctCard(d.keys);
    assert d.entries.Keys == set k | k in d.keys;
  }

  // ---------------------------------------------------------------------------
  // add_course

  /** The change types of `add_course`. */
  datatype Change = New | Updated | NoChange

  /** The change type as `add_course` reports it. */
  function ChangeName(ch: Change): string {
    match ch
    case New => "new"
    case Updated => "updated"
    case NoChange => "no_change"
  }

  /** How `add_course` classifies `c` against the store `d`. */
  function Classify(d: CourseDict, c: Course): Change {
    var k := UniqueKey(c);
    if k !in d.entries then New
    else if HasGradeUpdate(c, d.entries[k]) then Updated
    else NoChange
  }

  /** The store after `add_course(c)`. */
  function AfterAdd(d: CourseDict, c: Course): CourseDict {
    if Classify(d, c) == NoChange then d else Put(d, UniqueKey(c), c)
  }

  lemma AddNewCourse(d: CourseDict, c: Course)
    requires UniqueKey(c) !in d.entries
    ensures Classify(d, c) == New && ChangeName(Classify(d, c)) == "new"
    ensures AfterAdd(d, c) == CourseDict(d.entries[UniqueKey(c) := c], d.keys + [UniqueKey(c)])
  {}

  lemma AddChangedCourse(d: CourseDict, c: Course)
    requires UniqueKey(c) in d.entries
    requires var old_ := d.entries[UniqueKey(c)]; SameCourse(c, old_) && (c.grade != old_.grade || c.gpa != old_.gpa)
    ensures Classify(d, c) == Updated && ChangeName(Classify(d, c)) == "updated"
    ensures AfterAdd(d, c) == CourseDict(d.entries[UniqueKey(c) := c], d.keys)
  {}

  lemma AddUnchangedCourse(d: CourseDict, c: Course)
    requires UniqueKey(c) in d.entries
    requires var old_ := d.entries[UniqueKey(c)]; c.grade == old_.grade && c.gpa == old_.gpa
    ensures Classify(d, c) == NoChange && ChangeName(Classify(d, c)) == "no_change"
    ensures AfterAdd(d, c) == d
  {}

  /** A course whose key collides with a different stored course is reported as unchanged and is not stored. */
  lemma CollidingCourseIsDropped(d: CourseDict, c: Course)
    requires UniqueKey(c) in d.entries && !SameCourse(c, d.entries[UniqueKey(c)])
    ensures Classify(d, c) == NoChange && AfterAdd(d, c) == d
  {}

  lemma AddTouchesOnlyItsKey(d: CourseDict, c: Course)
    requires WellFormed(d)
    ensures var a := AfterAdd(d, c);
            && WellFormed(a)
            && d.entries.Keys <= a.entries.Keys
            && a.entries.Keys <= d.entries.Keys + {UniqueKey(c)}
            && (forall k | k in d.entries && k != UniqueKey(c) :: a.entries[k] == d.entries[k])
            && d.keys <= a.keys
            && |d.entries| <= |a.entries|
  {
    var a := AfterAdd(d, c);
    CountIsLength(d);
    CountIsLength(a);
  }

  // ---------------------------------------------------------------------------
  // Lookups

  /** The courses of one id, in store order (`get_all_courses_for_id`). */
  function CoursesForId(vs: seq<Course>, id: string): (r: seq<Course>)
    ensures forall c :: c in r <==> c in vs && c.courseId == id
    ensures |r| <= |vs|
  {
    if vs == [] then []
    else (if vs[0].courseId == id then [vs[0]] else []) + CoursesForId(vs[1..], id)
  }

  /** No course appears twice. */
  ghost predicate NoDuplicates(vs: seq<Course>) {
    forall i, j | 0 <= i < j < |vs| :: vs[i] != vs[j]
  }

  /** Filtering by id never repeats a course that the input holds once. */
  lemma {:induction false} CoursesForIdNoDuplicates(vs: seq<Course>, id: string)
    requires NoDuplicates(vs)
    ensures NoDuplicates(CoursesForId(vs, id))
    decreases |vs|
  {
    if vs != [] {
      assert NoDuplicates(vs[1..]) by {
        forall i, j | 0 <= i < j < |vs[1..]| ensures vs[1..][i] != vs[1..][j] {
          assert vs[1..][i] == vs[i + 1] && vs[1..][j] == vs[j + 1];
        }
      }
      CoursesForIdNoDuplicates(vs[1..], id);
      assert vs[0] !in vs[1..] by {
        forall k | 0 <= k < |vs[1..]| ensures vs[1..][k] != vs[0] {
          assert vs[1..][k] == vs[k + 1];
        }
      }
    }
  }

  /** One step of the filter: a matching head comes first, and the rest is the filter of the tail. */
  lemma CoursesForIdStep(vs: seq<Course>, id: string)
    requires vs != []
    ensures var r, rest := CoursesForId(vs, id), CoursesForId(vs[1..], id);
            if vs[0].courseId == id then
              |r| == |rest| + 1 && r[0] == vs[0] && forall k | 1 <= k < |r| :: r[k] == rest[k - 1]
            else r == rest
  {}

  /** Every position moved one place on. */
  function Shift(q: seq<nat>): (s: seq<nat>)
    ensures |s| == |q| && forall k | 0 <= k < |q| :: s[k] == q[k] + 1
  {
    seq(|q|, k requires 0 <= k < |q| => q[k] + 1)
  }

  /** Where each course of the filter sits in the input. */
  ghost function MatchPositions(vs: seq<Course>, id: string): seq<nat>
    decreases |vs|
  {
    if vs == [] then []
    else if vs[0].courseId == id then [0] + Shift(MatchPositions(vs[1..], id))
    else Shift(MatchPositions(vs[1..], id))
  }

  lemma MatchPositionsStep(vs: seq<Course>, id: string)
    requires vs != []
    ensures var p, q := MatchPositions(vs, id), MatchPositions(vs[1..], id);
            if vs[0].courseId == id then
              |p| == |q| + 1 && p[0] == 0 && forall k | 1 <= k < |p| :: p[k] == q[k - 1] + 1
            else |p| == |q| && forall k | 0 <= k < |p| :: p[k] == q[k] + 1
  {
    var q := MatchPositions(vs[1..], id);
    if vs[0].courseId == id {
      var p := [0] + Shift(q);
      forall k | 1 <= k < |p| ensures p[k] == q[k - 1] + 1 {
        assert p[k] == Shift(q)[k - 1];
      }
    }
  }

  /** There are as many positions as filtered courses. */
  lemma {:induction false} MatchPositionsLength(vs: seq<Course>, id: string)
    ensures |MatchPositions(vs, id)| == |CoursesForId(vs, id)|
    decreases |vs|
  {
    if vs != [] {
      MatchPositionsLength(vs[1..], id);
      CoursesForIdStep(vs, id);
      MatchPositionsStep(vs, id);
    }
  }

  /** Past a matching head, position k and course k come from position and course k - 1 of the tail. */
  lemma MatchPositionsStepAt(vs: seq<Course>, id: string, k: nat)
    requires vs != []
    requires (if vs[0].courseId == id then 1 else 0) <= k < |MatchPositions(vs, id)|
    ensures var d := if vs[0].courseId == id then 1 else 0;
            && k - d < |MatchPositions(vs[1..], id)| && k - d < |CoursesForId(vs[1..], id)|
            && MatchPositions(vs, id)[k] == MatchPositions(vs[1..], id)[k - d] + 1
            && CoursesForId(vs, id)[k] == CoursesForId(vs[1..], id)[k - d]
  {
    MatchPositionsLength(vs[1..], id);
    CoursesForIdStep(vs, id);
    MatchPositionsStep(vs, id);
  }

  /** The k-th position holds the k-th filtered course. */
  lemma {:induction false} MatchPositionsPick(vs: seq<Course>, id: string, k: nat)
    requires k < |MatchPositions(vs, id)| && k < |CoursesForId(vs, id)|
    ensures MatchPositions(vs, id)[k] < |vs| && vs[MatchPositions(vs, id)[k]] == CoursesForId(vs, id)[k]
    decreases |vs|
  {
    var d := if vs[0].courseId == id then 1 else 0;
    if k >= d {
      MatchPositionsStepAt(vs, id, k);
      var tail := vs[1..];
      MatchPositionsPick(tail, id, k - d);
      var q := MatchPositions(tail, id)[k - d];
      assert vs[q + 1] == tail[q];
    } else {
      CoursesForIdStep(vs, id);
      MatchPositionsStep(vs, id);
    }
  }

  /** The positions strictly increase, so the filter keeps the input's order. */
  lemma {:induction false} MatchPositionsIncrease(vs: seq<Course>, id: string)
    ensures forall i, j | 0 <= i < j < |MatchPositions(vs, id)| :: MatchPositions(vs, id)[i] < MatchPositions(vs, id)[j]
    decreases |vs|
  {
    if vs != [] {
      MatchPositionsIncrease(vs[1..], id);
      MatchPositionsStep(vs, id);
      var p, q := MatchPositions(vs, id), MatchPositions(vs[1..], id);
      var d := if vs[0].courseId == id then 1 else 0;
      forall i, j | 0 <= i < j < |p| ensures p[i] < p[j] {
        if i >= d {
          assert p[i] == q[i - d] + 1 && p[j] == q[j - d] + 1;
        }
      }
    }
  }


  /** `x` is stored under an earlier key than `y`. */
  ghost predicate StoredBefore(x: Course, y: Course, d: CourseDict) {
    exists a, b | 0 <= a < b < |d.keys| ::
      && d.keys[a] in d.entries && d.keys[b] in d.entries
      && x == d.entries[d.keys[a]] && y == d.entries[d.keys[b]]
  }

  /** Two stored courses of one id come out in the store's insertion order. */
  lemma CoursesForIdPairInOrder(d: CourseDict, id: string, i: nat, j: nat)
    requires WellFormed(d)
    requires i < j < |CoursesForId(Values(d), id)|
    ensures StoredBefore(CoursesForId(Values(d), id)[i], CoursesForId(Values(d), id)[j], d)
  {
    var vs := Values(d);
    MatchPositionsLength(vs, id);
    MatchPositionsPick(vs, id, i);
    MatchPositionsPick(vs, id, j);
    MatchPositionsIncrease(vs, id);
    var p := MatchPositions(vs, id);
    assert vs[p[i]] == d.entries[d.keys[p[i]]] && vs[p[j]] == d.entries[d.keys[p[j]]];
  }

  /** Any two courses of `r` are stored in that order. */
  ghost predicate InStoreOrder(r: seq<Course>, d: CourseDict) {
    forall i, j | 0 <= i < j < |r| :: StoredBefore(r[i], r[j], d)
  }

  /** The stored courses of one id keep the store's insertion order. */
  lemma CoursesForIdKeepsOrder(d: CourseDict, id: string)
    requires WellFormed(d)
    ensures InStoreOrder(CoursesForId(Values(d), id), d)
  {
    var r := CoursesForId(Values(d), id);
    forall i, j | 0 <= i < j < |r| ensures StoredBefore(r[i], r[j], d) {
      CoursesForIdPairInOrder(d, id, i, j);
    }
  }


  /** The stored courses of one id: each once, and in the store's insertion order. */
  lemma StoredCoursesForId(d: CourseDict, id: string)
    requires WellKeyed(d)
    ensures var r := CoursesForId(Values(d), id);
            && (forall c :: c in r <==> c in d.entries.Values && c.courseId == id)
            && NoDuplicates(r)
            && InStoreOrder(r, d)
  {
    ValuesAreEntries(d);
    ValuesNoDuplicates(d);
    CoursesForIdNoDuplicates(Values(d), id);
    CoursesForIdKeepsOrder(d, id);
  }

  /** The first course with the greatest term, as `sorted(..., key=term, reverse=True)[0]` picks it. */
  function Latest(vs: seq<Course>): (r: Option<Course>)
    ensures r.Some? <==> vs != []
    ensures r.Some? ==> r.value in vs
  {
    if vs == [] then None
    else
      var rest := Latest(vs[1..]);
      if rest.None? || !Less(vs[0].term, rest.value.term) then Some(vs[0]) else rest
  }

  lemma {:induction false} LatestIsGreatest(vs: seq<Course>)
    requires vs != []
    ensures forall c | c in vs :: !Less(Latest(vs).value.term, c.term)
  {
    var r := Latest(vs).value;
    if |vs| == 1 {
      LessIrreflexive(r.term);
    } else {
      var rest := Latest(vs[1..]).value;
      LatestIsGreatest(vs[1..]);
      if r == vs[0] {
        forall c | c in vs ensures !Less(r.term, c.term) {
          if c == vs[0] {
            LessIrreflexive(r.term);
          } else if r.term != rest.term {
            LessTotal(r.term, rest.term);
            if Less(r.term, c.term) {
              LessTransitive(rest.term, r.term, c.term);
            }
          }
        }
      } else {
        LessAsymmetric(vs[0].term, rest.term);
      }
    }
  }

  // ---------------------------------------------------------------------------
  // The snapshot file

  /** The JSON document `{"courses": [...], "total_count": n}`; a document without `courses` has none. */
  datatype Snapshot = Snapshot(courses: seq<Record>, totalCount: int)

  /** The data file: missing, holding a readable snapshot, or unreadable. */
  datatype FileState = Absent | Holds(snapshot: Snapshot) | Garbled

  /** The data file and its `.json.bak` backup. */
  datatype Disk = Disk(data: FileState, backup: FileState)

  /** How writing the data file ends: completely, failing to open, or failing while dumping. */
  datatype WriteOutcome = Written | OpenFailed | DumpFailed

  /** The document `save_to_file` writes: one `to_dict` per stored course, in store order. */
  function Serialize(d: CourseDict): (s: Snapshot)
    requires WellFormed(d)
    ensures |s.courses| == |d.keys| && s.totalCount == |s.courses|
    ensures forall i | 0 <= i < |d.keys| :: s.courses[i] == ToDict(d.entries[d.keys[i]])
    ensures forall i | 0 <= i < |d.keys| :: FromDict(s.courses[i]) == d.entries[d.keys[i]]
  {
    CountIsLength(d);
    var vs := Values(d);
    Snapshot(seq(|vs|, i requires 0 <= i < |vs| => ToDict(vs[i])), |d.entries|)
  }

  /** The loading loop of `initialize_from_file`: each record filed under its key, later records overwriting. */
  function LoadAll(d: CourseDict, recs: seq<Record>): CourseDict
    decreases |recs|
  {
    if recs == [] then d
    else
      var c := FromDict(recs[|recs| - 1]);
      Put(LoadAll(d, recs[..|recs| - 1]), UniqueKey(c), c)
  }

  lemma {:induction false} LoadAllKeepsWellKeyed(d: CourseDict, recs: seq<Record>)
    requires WellKeyed(d)
    ensures WellKeyed(LoadAll(d, recs))
    decreases |recs|
  {
    if recs != [] {
      LoadAllKeepsWellKeyed(d, recs[..|recs| - 1]);
      PutKeepsWellKeyed(LoadAll(d, recs[..|recs| - 1]), FromDict(recs[|recs| - 1]));
    }
  }

  /** A key is loaded iff it was stored already or some record carries it. */
  lemma {:induction false} LoadAllKeys(d: CourseDict, recs: seq<Record>, k: string)
    ensures k in LoadAll(d, recs).entries <==>
            k in d.entries || exists i | 0 <= i < |recs| :: UniqueKey(FromDict(recs[i])) == k
    decreases |recs|
  {
    if recs != [] {
      var init, last := recs[..|recs| - 1], FromDict(recs[|recs| - 1]);
      LoadAllKeys(d, init, k);
      assert k in LoadAll(d, recs).entries <==> k in LoadAll(d, init).entries || UniqueKey(last) == k;
      var inInit := exists i | 0 <= i < |init| :: UniqueKey(FromDict(init[i])) == k;
      var inRecs := exists i | 0 <= i < |recs| :: UniqueKey(FromDict(recs[i])) == k;
      if inInit {
        var i :| 0 <= i < |init| && UniqueKey(FromDict(init[i])) == k;
        assert recs[i] == init[i];
      }
      if inRecs {
        var i :| 0 <= i < |recs| && UniqueKey(FromDict(recs[i])) == k;
        if i < |init| {
          assert init[i] == recs[i];
        }
      }
      assert inRecs <==> inInit || UniqueKey(last) == k;
    }
  }

  /** Of several records with the same key, the last one is kept. */
  lemma {:induction false} LoadAllLastWins(d: CourseDict, recs: seq<Record>, i: int)
    requires 0 <= i < |recs|
    requires forall j | i < j < |recs| :: UniqueKey(FromDict(recs[j])) != UniqueKey(FromDict(recs[i]))
    ensures UniqueKey(FromDict(recs[i])) in LoadAll(d, recs).entries
    ensures LoadAll(d, recs).entries[UniqueKey(FromDict(recs[i]))] == FromDict(recs[i])
    decreases |recs|
  {
    if i < |recs| - 1 {
      var init := recs[..|recs| - 1];
      assert init[i] == recs[i];
      forall j | i < j < |init| ensures UniqueKey(FromDict(init[j])) != UniqueKey(FromDict(init[i])) {
        assert init[j] == recs[j];
      }
      LoadAllLastWins(d, init, i);
    }
  }

  /** The first `n` entries of `d`, in order. */
  ghost function Prefix(d: CourseDict, n: nat): CourseDict
    requires n <= |d.keys|
  {
    CourseDict(map k | k in d.keys[..n] && k in d.entries :: d.entries[k], d.keys[..n])
  }

  lemma PutExtendsPrefix(d: CourseDict, n: nat)
    requires WellKeyed(d) && 0 < n <= |d.keys|
    ensures Put(Prefix(d, n - 1), d.keys[n - 1], d.entries[d.keys[n - 1]]) == Prefix(d, n)
  {
    var k := d.keys[n - 1];
    assert k !in d.keys[..n - 1];
    assert d.keys[..n - 1] + [k] == d.keys[..n];
    assert Prefix(d, n - 1).entries[k := d.entries[k]] == Prefix(d, n).entries;
  }

  lemma {:induction false} LoadPrefix(d: CourseDict, n: nat)
    requires WellKeyed(d) && n <= |d.keys|
    ensures LoadAll(EMPTY, Serialize(d).courses[..n]) == Prefix(d, n)
  {
    var recs := Serialize(d).courses;
    if n == 0 {
      assert recs[..0] == [];
      assert Prefix(d, 0).entries == map[];
    } else {
      LoadPrefix(d, n - 1);
      assert recs[..n][..n - 1] == recs[..n - 1];
      assert FromDict(recs[n - 1]) == d.entries[d.keys[n - 1]];
      PutExtendsPrefix(d, n);
    }
  }

  lemma PrefixOfAll(d: CourseDict)
    requires WellFormed(d)
    ensures Prefix(d, |d.keys|) == d
  {
    assert d.keys[..|d.keys|] == d.keys;
    assert Prefix(d, |d.keys|).entries == d.entries;
  }

  /** Loading what `save_to_file` wrote gives back the same store, in the same order. */
  lemma SnapshotRoundTrip(d: CourseDict)
    requires WellKeyed(d)
    ensures LoadAll(EMPTY, Serialize(d).courses) == d
  {
    var recs, n := Serialize(d).courses, |d.keys|;
    LoadPrefix(d, n);
    PrefixOfAll(d);
    assert LoadAll(EMPTY, recs[..n]) == d;
    assert recs[..n] == recs;
  }

  /** The disk after `save_to_file`: the file renamed to the backup, the new snapshot written, and on a failed
      write the backup renamed back. Renaming onto an existing file replaces it. */
  function SavedDisk(disk: Disk, snap: Snapshot, write: WriteOutcome): (after: Disk)
    ensures write == Written ==> after.data == Holds(snap)
    ensures write == Written && disk.data != Absent ==> after.backup == disk.data
    ensures write == Written && disk.data == Absent ==> after.backup == disk.backup
    ensures write != Written && disk.data != Absent ==> after == Disk(disk.data, Absent)
    ensures write != Written && disk.data == Absent && disk.backup != Absent ==> after == Disk(disk.backup, Absent)
    ensures write != Written && disk.data == Absent && disk.backup == Absent ==>
              after == Disk(if write == DumpFailed then Garbled else Absent, Absent)
  {
    var renamed := if disk.data != Absent then Disk(Absent, disk.data) else disk;
    var written := renamed.(data := match write
                                    case Written => Holds(snap)
                                    case OpenFailed => Absent
                                    case DumpFailed => Garbled);
    if write != Written && written.backup != Absent then Disk(written.backup, Absent) else written
  }

  // ---------------------------------------------------------------------------
  // CourseManager

  /** `CourseManager`: the course dictionary behind one data file. */
  class CourseManager {
    const dataFile: string
    var courses: CourseDict

    ghost predicate Valid()
      reads this
    {
      WellKeyed(courses)
    }

    constructor(dataFile: string)
      ensures Valid() && this.dataFile == dataFile && courses == EMPTY
    {
      this.dataFile := dataFile;
      courses := EMPTY;
    }

    /** `initialize_from_file`: false for a missing or unreadable file; otherwise every record is filed. */
    method InitializeFromFile(file: FileState) returns (loaded: bool)
      requires Valid()
      modifies this
      ensures Valid()
      ensures loaded <==> file.Holds?
      ensures courses == if file.Holds? then LoadAll(old(courses), file.snapshot.courses) else old(courses)
    {
      if !file.Holds? {
        return false;
      }
      var recs := file.snapshot.courses;
      for i := 0 to |recs|
        invariant courses == LoadAll(old(courses), recs[..i])
        invariant Valid()
      {
        var course := FromDict(recs[i]);
        PutKeepsWellKeyed(courses, course);
        courses := Put(courses, UniqueKey(course), course);
        assert recs[..i + 1][..i] == recs[..i];
      }
      assert recs[..|recs|] == recs;
      return true;
    }

    /** `add_course`: file a new course, replace one whose grade or gpa changed, ignore the rest. */
    method AddCourse(course: Course) returns (shouldNotify: bool, change: Change)
      requires Valid()
      modifies this
      ensures Valid()
      ensures change == Classify(old(courses), course)
      ensures courses == AfterAdd(old(courses), course)
      ensures shouldNotify <==> change != NoChange
    {
      var key := UniqueKey(course);
      if key !in courses.entries {
        PutKeepsWellKeyed(courses, course);
        courses := Put(courses, key, course);
        return true, New;
      } else if HasGradeUpdate(course, courses.entries[key]) {
        PutKeepsWellKeyed(courses, course);
        courses := Put(courses, key, course);
        return true, Updated;
      } else {
        return false, NoChange;
      }
    }

    /** `get_course_by_key`: a key lookup when a non-empty term is given, otherwise the course of that id
        with the greatest term. */
    function GetCourseByKey(courseId: string, term: Option<string>): (r: Option<Course>)
      reads this
      requires Valid()
      ensures term.Some? && term.value != "" ==>
                (r.Some? <==> courseId + "_" + term.value in courses.entries) &&
                (r.Some? ==> r.value in courses.entries.Values && UniqueKey(r.value) == courseId + "_" + term.value)
      ensures (term.None? || term.value == "") ==>
                (r.Some? <==> exists c :: c in courses.entries.Values && c.courseId == courseId) &&
                (r.Some? ==> r.value in courses.entries.Values && r.value.courseId == courseId) &&
                (r.Some? ==> forall c | c in courses.entries.Values && c.courseId == courseId ::
                                !Less(r.value.term, c.term))
    {
      ValuesAreEntries(courses);
      if term.Some? && term.value != "" then
        var key := courseId + "_" + term.value;
        if key in courses.entries then Some(courses.entries[key]) else None
      else
        var matching := CoursesForId(Values(courses), courseId);
        if matching == [] then None
        else
          LatestIsGreatest(matching);
          Latest(matching)
    }

    /** `get_all_courses_for_id`: every stored course of that id, each once, in store order. */
    function GetAllCoursesForId(courseId: string): (r: seq<Course>)
      reads this
      requires Valid()
      ensures forall c :: c in r <==> c in courses.entries.Values && c.courseId == courseId
      ensures NoDuplicates(r)
      ensures InStoreOrder(r, courses)
    {
      StoredCoursesForId(courses, courseId);
      CoursesForId(Values(courses), courseId)
    }

    /** `get_courses_count`: the number of stored courses. */
    function GetCoursesCount(): (n: nat)
      reads this
      requires Valid()
      ensures n == |courses.keys| == |Values(courses)|
    {
      CountIsLength(courses);
      |courses.entries|
    }

    /** `save_to_file`. */
    method SaveToFile(disk: Disk, write: WriteOutcome) returns (ok: bool, after: Disk)
      requires Valid()
      ensures ok <==> write == Written
      ensures after == SavedDisk(disk, Serialize(courses), write)
    {
      after := disk;
      if after.data != Absent {
        after := Disk(Absent, after.data);
      }
      var snap := Serialize(courses);
      match write {
        case Written => after := after.(data := Holds(snap));
        case OpenFailed => after := after.(data := Absent);
        case DumpFailed => after := after.(data := Garbled);
      }
      ok := write == Written;
      if !ok && after.backup != Absent {
        after := Disk(after.backup, Absent);
      }
    }

    /** `clear`. */
    method Clear()
      modifies this
      ensures Valid() && courses == EMPTY
    {
      courses := EMPTY;
    }
  }
}
