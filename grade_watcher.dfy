/** The watcher's workflow (`grade_watcher.py`): parse the portal's score document, load the stored
    courses, classify the fetched ones, announce the changes and save the store again. */
module Watcher {
  import opened Wrappers
  import opened Strings
  import opened Portal
  import opened Models
  import opened Notifiers

  lemma AppendAssoc<T>(a: seq<T>, b: seq<T>, c: seq<T>)
    ensures a + b + c == a + (b + c)
  {}

  // ---------------------------------------------------------------------------
  // Parsing the score document

  /** What the score request yields: the document, or an exception anywhere in the request or the parse. */
  datatype FetchOutcome = Fetched(doc: PortalDoc) | FetchFailed

  /** The term name used when an entry of `cjxx` has no `xq`. */
  const UNKNOWN_TERM: string := "未知学期"

  /** `term_data.get("xq", "未知学期")`. */
  function TermName(t: TermData): string {
    match t.xq
    case Some(x) => x
    case None => UNKNOWN_TERM
  }

  /** The courses of one term's records: one per record with a truthy `bkcjbh`, in record order. */
  function ParseRecords(recs: seq<RawRecord>, term: string): seq<Course> {
    if recs == [] then []
    else
      var r := recs[|recs| - 1];
      ParseRecords(recs[..|recs| - 1], term) + (if HasId(r) then [FromRawData(r, term)] else [])
  }

  /** The courses of a whole document, term by term. */
  function ParseDoc(doc: PortalDoc): seq<Course> {
    if doc == [] then []
    else ParseDoc(doc[..|doc| - 1]) + ParseRecords(doc[|doc| - 1].records, TermName(doc[|doc| - 1]))
  }

  /** Parsing keeps the order of the records: the records of `a` come before those of `b`. */
  lemma {:induction false} ParseRecordsAppend(a: seq<RawRecord>, b: seq<RawRecord>, term: string)
    ensures ParseRecords(a + b, term) == ParseRecords(a, term) + ParseRecords(b, term)
    decreases |b|
  {
    if b == [] {
      assert a + b == a;
    } else {
      var init, r := b[..|b| - 1], b[|b| - 1];
      assert (a + b)[..|a + b| - 1] == a + init && (a + b)[|a + b| - 1] == r;
      ParseRecordsAppend(a, init, term);
      AppendAssoc(ParseRecords(a, term), ParseRecords(init, term), if HasId(r) then [FromRawData(r, term)] else []);
    }
  }

  /** Parsing keeps the order of the terms: the terms of `a` come before those of `b`. */
  lemma {:induction false} ParseDocAppend(a: PortalDoc, b: PortalDoc)
    ensures ParseDoc(a + b) == ParseDoc(a) + ParseDoc(b)
    decreases |b|
  {
    if b == [] {
      assert a + b == a;
    } else {
      var init, t := b[..|b| - 1], b[|b| - 1];
      assert (a + b)[..|a + b| - 1] == a + init && (a + b)[|a + b| - 1] == t;
      ParseDocAppend(a, init);
      AppendAssoc(ParseDoc(a), ParseDoc(init), ParseRecords(t.records, TermName(t)));
    }
  }

  /** A parsed course is exactly a record with a truthy `bkcjbh`, read with the term's name. */
  lemma {:induction false} ParseRecordsMembers(recs: seq<RawRecord>, term: string)
    ensures forall c :: c in ParseRecords(recs, term) <==> exists r | r in recs :: HasId(r) && c == FromRawData(r, term)
    ensures forall c | c in ParseRecords(recs, term) :: c.courseId != "" && c.term == term
    ensures |ParseRecords(recs, term)| <= |recs|
    ensures ParseRecords(recs, term) == [] <==> forall r | r in recs :: !HasId(r)
    decreases |recs|
  {
    if recs != [] {
      var init, r := recs[..|recs| - 1], recs[|recs| - 1];
      ParseRecordsMembers(init, term);
      assert recs == init + [r];
    }
  }

  /** Every parsed course has a non-empty id; records without one are skipped but still counted. */
  lemma {:induction false} ParseDocCounts(doc: PortalDoc)
    ensures forall c | c in ParseDoc(doc) :: c.courseId != ""
    ensures |ParseDoc(doc)| <= |Records(doc)|
    ensures ParseDoc(doc) == [] <==> forall r | r in Records(doc) :: !HasId(r)
    decreases |doc|
  {
    if doc != [] {
      var init, t := doc[..|doc| - 1], doc[|doc| - 1];
      ParseDocCounts(init);
      ParseRecordsMembers(t.records, TermName(t));
      assert Records(doc) == Records(init) + t.records;
      if forall r | r in Records(doc) :: !HasId(r) {
        assert forall r | r in Records(init) :: !HasId(r);
      }
      if exists r | r in Records(doc) :: HasId(r) {
        var r :| r in Records(doc) && HasId(r);
        if r in t.records {
          var c := FromRawData(r, TermName(t));
          assert c in ParseRecords(t.records, TermName(t));
          assert c in ParseDoc(doc);
        } else {
          assert r in Records(init);
          assert ParseDoc(init)[0] in ParseDoc(doc);
        }
      }
    }
  }

  // ---------------------------------------------------------------------------
  // The messages the watcher sends

  const INIT_TITLE: string := "[成绩监控] 系统初始化"
  const INIT_CONTENT: string := "北大成绩监控系统已成功初始化，开始监控您的成绩变化。"
  const NEW_TITLE: string := "[成绩更新] 新增课程: "
  const UPDATED_TITLE: string := "[成绩更新] 课程更新: "
  const NEW_HEADLINE: string := "发现新的课程成绩！"
  const UPDATED_HEADLINE: string := "课程成绩有更新！"

  /** The notice `initialize` sends on a first run. */
  function InitNotice(): Message {
    Message(INIT_TITLE, INIT_CONTENT, None)
  }

  /** The lines of a course notice after its headline. */
  function CourseSummary(c: Course): string {
    "\n课程：" + c.courseName + "\n学期：" + c.term + "\n成绩：" + c.grade + "\n绩点：" + c.gpa
  }

  /** The message `_send_course_notification` sends for a new (`isNew`) or an updated course. */
  function CourseNotice(c: Course, isNew: bool): Message {
    if isNew then Message(NEW_TITLE + c.courseName, NEW_HEADLINE + CourseSummary(c), Some(c))
    else Message(UPDATED_TITLE + c.courseName, UPDATED_HEADLINE + CourseSummary(c), Some(c))
  }

  /** A course notice carries the course, names it in its title and shows its name, term, grade and gpa. */
  lemma CourseNoticeShowsCourse(c: Course, isNew: bool)
    ensures var m := CourseNotice(c, isNew);
            && m.course == Some(c)
            && IsInfix(c.courseName, m.title)
            && IsInfix(c.courseName, m.content) && IsInfix(c.term, m.content)
            && IsInfix(c.grade, m.content) && IsInfix(c.gpa, m.content)
  {
    var m := CourseNotice(c, isNew);
    var head := if isNew then NEW_TITLE else UPDATED_TITLE;
    var line := if isNew then NEW_HEADLINE else UPDATED_HEADLINE;
    assert m.title == head + c.courseName;
    InfixSelf(c.courseName);
    InfixInRight(c.courseName, head, c.courseName);
    var s1 := "\n课程：" + c.courseName;
    var s2 := s1 + "\n学期：";
    var s3 := s2 + c.term;
    var s4 := s3 + "\n成绩：";
    var s5 := s4 + c.grade;
    var s6 := s5 + "\n绩点：";
    var s7 := s6 + c.gpa;
    assert CourseSummary(c) == s7;
    assert m.content == line + s7;
    InfixInRight(c.courseName, "\n课程：", c.courseName);
    InfixInLeft(c.courseName, s1, "\n学期：");
    InfixInLeft(c.courseName, s2, c.term);
    InfixInLeft(c.courseName, s3, "\n成绩：");
    InfixInLeft(c.courseName, s4, c.grade);
    InfixInLeft(c.courseName, s5, "\n绩点：");
    InfixInLeft(c.courseName, s6, c.gpa);
    InfixSelf(c.term);
    InfixInRight(c.term, s2, c.term);
    InfixInLeft(c.term, s3, "\n成绩：");
    InfixInLeft(c.term, s4, c.grade);
    InfixInLeft(c.term, s5, "\n绩点：");
    InfixInLeft(c.term, s6, c.gpa);
    InfixSelf(c.grade);
    InfixInRight(c.grade, s4, c.grade);
    InfixInLeft(c.grade, s5, "\n绩点：");
    InfixInLeft(c.grade, s6, c.gpa);
    InfixSelf(c.gpa);
    InfixInRight(c.gpa, s6, c.gpa);
    InfixInRight(c.courseName, line, s7);
    InfixInRight(c.term, line, s7);
    InfixInRight(c.grade, line, s7);
    InfixInRight(c.gpa, line, s7);
  }

  /** The title tells the three kinds of notice apart, whatever the course names are. */
  lemma NoticeTitlesDiffer(c: Course, d: Course)
    ensures CourseNotice(c, true).title != CourseNotice(d, false).title
    ensures CourseNotice(c, true).title != INIT_TITLE && CourseNotice(c, false).title != INIT_TITLE
  {
    assert CourseNotice(c, true).title[7] == '新';
    assert CourseNotice(d, false).title[7] == '课';
    assert CourseNotice(c, true).title[3] == '更' && CourseNotice(c, false).title[3] == '更';
    assert INIT_TITLE[3] == '监';
  }

  /** What `_send_course_notification` hands to the notifier: nothing without one. */
  function Announce(hasNotifier: bool, m: Message): seq<Message> {
    if hasNotifier then [m] else []
  }

  // ---------------------------------------------------------------------------
  // Processing the fetched courses

  /** The store after `process_new_data`, the courses it reported as new and as updated, and the notices
      it sent, in order. */
  datatype Processed = Processed(store: CourseDict, added: seq<Course>, updated: seq<Course>, notices: seq<Message>)

  /** One course through `add_course`: a new course is announced unless this is the first run, an update
      is always announced, an unchanged course is passed over. */
  function Step(p: Processed, c: Course, firstRun: bool, hasNotifier: bool): Processed {
    var store := AfterAdd(p.store, c);
    match Classify(p.store, c)
    case New =>
      Processed(store, p.added + [c], p.updated,
                p.notices + (if firstRun then [] else Announce(hasNotifier, CourseNotice(c, true))))
    case Updated =>
      Processed(store, p.added, p.updated + [c], p.notices + Announce(hasNotifier, CourseNotice(c, false)))
    case NoChange => p
  }

  /** `process_new_data` on the store `d`: each course goes through `add_course` in turn. */
  function Process(d: CourseDict, cs: seq<Course>, firstRun: bool, hasNotifier: bool): Processed
    decreases |cs|
  {
    if cs == [] then Processed(d, [], [], [])
    else Step(Process(d, cs[..|cs| - 1], firstRun, hasNotifier), cs[|cs| - 1], firstRun, hasNotifier)
  }

  /** The store after adding every course of `cs` in turn. */
  function AddAll(d: CourseDict, cs: seq<Course>): CourseDict {
    if cs == [] then d else AfterAdd(AddAll(d, cs[..|cs| - 1]), cs[|cs| - 1])
  }

  /** The store `process_new_data` leaves does not depend on the first-run flag or on the notifier. */
  lemma {:induction false} ProcessStore(d: CourseDict, cs: seq<Course>, firstRun: bool, hasNotifier: bool)
    ensures Process(d, cs, firstRun, hasNotifier).store == AddAll(d, cs)
    decreases |cs|
  {
    if cs != [] {
      ProcessStore(d, cs[..|cs| - 1], firstRun, hasNotifier);
    }
  }

  /** The notices for a list of updated courses. */
  function UpdateNotices(us: seq<Course>): (ms: seq<Message>)
    ensures |ms| == |us|
  {
    if us == [] then [] else UpdateNotices(us[..|us| - 1]) + [CourseNotice(us[|us| - 1], false)]
  }

  /** With a notifier, the notices number the updates plus, except on a first run, the new courses; on a
      first run they are exactly the update notices; without a notifier there are none. */
  lemma {:induction false} ProcessNotices(d: CourseDict, cs: seq<Course>, firstRun: bool, hasNotifier: bool)
    ensures var p := Process(d, cs, firstRun, hasNotifier);
            && |p.notices| == (if hasNotifier then (if firstRun then 0 else |p.added|) + |p.updated| else 0)
            && (firstRun && hasNotifier ==> p.notices == UpdateNotices(p.updated))
            && |p.added| + |p.updated| <= |cs|
    decreases |cs|
  {
    if cs != [] {
      var p := Process(d, cs[..|cs| - 1], firstRun, hasNotifier);
      ProcessNotices(d, cs[..|cs| - 1], firstRun, hasNotifier);
      assert (p.updated + [cs[|cs| - 1]])[..|p.updated|] == p.updated;
    }
  }

  /** Adding courses never removes one: the store stays keyed, keeps every key and its place in the order,
      and files every added course's key. */
  lemma {:induction false} AddAllKeepsStore(d: CourseDict, cs: seq<Course>)
    requires WellKeyed(d)
    ensures var s := AddAll(d, cs);
            && WellKeyed(s)
            && d.keys <= s.keys
            && d.entries.Keys <= s.entries.Keys
            && (forall c | c in cs :: UniqueKey(c) in s.entries)
    decreases |cs|
  {
    if cs != [] {
      var init, c := cs[..|cs| - 1], cs[|cs| - 1];
      AddAllKeepsStore(d, init);
      var p := AddAll(d, init);
      var s := AfterAdd(p, c);
      PutKeepsWellKeyed(p, c);
      AddTouchesOnlyItsKey(p, c);
      assert UniqueKey(c) in s.entries;
      forall x | x in cs
        ensures UniqueKey(x) in s.entries
      {
        if x != c {
          assert x in init;
        }
      }
    }
  }

  /** Processing never removes a course, and the course count never decreases. */
  lemma ProcessKeepsStore(d: CourseDict, cs: seq<Course>, firstRun: bool, hasNotifier: bool)
    requires WellKeyed(d)
    ensures var s := Process(d, cs, firstRun, hasNotifier).store;
            && WellKeyed(s)
            && d.keys <= s.keys
            && d.entries.Keys <= s.entries.Keys
            && |d.entries| <= |s.entries|
            && (forall c | c in cs :: UniqueKey(c) in s.entries)
  {
    ProcessStore(d, cs, firstRun, hasNotifier);
    AddAllKeepsStore(d, cs);
    CountIsLength(d);
    CountIsLength(AddAll(d, cs));
  }

  /** The keys of the fetched courses are pairwise different. */
  predicate DistinctKeys(cs: seq<Course>) {
    forall i, j | 0 <= i < j < |cs| :: UniqueKey(cs[i]) != UniqueKey(cs[j])
  }

  lemma DistinctKeysInit(cs: seq<Course>)
    requires cs != [] && DistinctKeys(cs)
    ensures DistinctKeys(cs[..|cs| - 1])
    ensures forall x | x in cs[..|cs| - 1] :: UniqueKey(x) != UniqueKey(cs[|cs| - 1])
  {
    var init := cs[..|cs| - 1];
    forall x | x in init ensures UniqueKey(x) != UniqueKey(cs[|cs| - 1]) {
      var i :| 0 <= i < |init| && init[i] == x;
      assert cs[i] == x;
    }
  }

  /** A key none of the fetched courses has is left as it was. */
  lemma {:induction false} AddAllKeepsOtherKeys(d: CourseDict, cs: seq<Course>, k: string)
    requires forall c | c in cs :: UniqueKey(c) != k
    ensures var s := AddAll(d, cs);
            (k in s.entries <==> k in d.entries) && (k in d.entries ==> s.entries[k] == d.entries[k])
    decreases |cs|
  {
    if cs != [] {
      var init := cs[..|cs| - 1];
      assert forall c | c in init :: c in cs;
      AddAllKeepsOtherKeys(d, init, k);
    }
  }

  /** The fetched courses whose key is not in the store `d`, in fetch order. */
  function NewIn(d: CourseDict, cs: seq<Course>): (r: seq<Course>)
    ensures forall c :: c in r <==> c in cs && UniqueKey(c) !in d.entries
  {
    if cs == [] then []
    else
      var c := cs[|cs| - 1];
      assert cs == cs[..|cs| - 1] + [c];
      NewIn(d, cs[..|cs| - 1]) + (if UniqueKey(c) !in d.entries then [c] else [])
  }

  /** The fetched courses whose grade or gpa differs from the stored course with their key, in fetch order. */
  function ChangedIn(d: CourseDict, cs: seq<Course>): (r: seq<Course>)
    ensures forall c :: c in r <==> c in cs && UniqueKey(c) in d.entries && HasGradeUpdate(c, d.entries[UniqueKey(c)])
  {
    if cs == [] then []
    else
      var c := cs[|cs| - 1];
      assert cs == cs[..|cs| - 1] + [c];
      ChangedIn(d, cs[..|cs| - 1])
      + (if UniqueKey(c) in d.entries && HasGradeUpdate(c, d.entries[UniqueKey(c)]) then [c] else [])
  }

  /** When the fetched keys are distinct, the new and updated lists are the fetched courses that are missing
      from, and that differ in grade or gpa from, the store as it was before processing. */
  lemma {:induction false} ProcessAgainstStart(d: CourseDict, cs: seq<Course>, firstRun: bool, hasNotifier: bool)
    requires DistinctKeys(cs)
    ensures Process(d, cs, firstRun, hasNotifier).added == NewIn(d, cs)
    ensures Process(d, cs, firstRun, hasNotifier).updated == ChangedIn(d, cs)
    decreases |cs|
  {
    if cs != [] {
      var init, c := cs[..|cs| - 1], cs[|cs| - 1];
      DistinctKeysInit(cs);
      ProcessAgainstStart(d, init, firstRun, hasNotifier);
      ProcessStore(d, init, firstRun, hasNotifier);
      AddAllKeepsOtherKeys(d, init, UniqueKey(c));
      assert Classify(Process(d, init, firstRun, hasNotifier).store, c) == Classify(d, c);
    }
  }

  /** The store holds something under the course's key and reports no grade update for it: a course with the
      same grade and gpa, or one with another id and term whose key collides. */
  ghost predicate Settled(s: CourseDict, c: Course) {
    UniqueKey(c) in s.entries && !HasGradeUpdate(c, s.entries[UniqueKey(c)])
  }

  lemma {:induction false} AddAllSettles(d: CourseDict, cs: seq<Course>)
    requires DistinctKeys(cs)
    ensures forall c | c in cs :: Settled(AddAll(d, cs), c)
    decreases |cs|
  {
    if cs != [] {
      var init, c := cs[..|cs| - 1], cs[|cs| - 1];
      DistinctKeysInit(cs);
      AddAllSettles(d, init);
      assert cs == init + [c];
    }
  }

  lemma {:induction false} SettledIsQuiet(s: CourseDict, cs: seq<Course>, firstRun: bool, hasNotifier: bool)
    requires forall c | c in cs :: Settled(s, c)
    ensures Process(s, cs, firstRun, hasNotifier) == Processed(s, [], [], [])
    decreases |cs|
  {
    if cs != [] {
      assert forall c | c in cs[..|cs| - 1] :: c in cs;
      SettledIsQuiet(s, cs[..|cs| - 1], firstRun, hasNotifier);
      assert Settled(s, cs[|cs| - 1]);
    }
  }

  /** Processing the same distinct-keyed courses a second time finds nothing new, nothing updated, sends
      nothing and leaves the store as it is. */
  lemma ProcessIdempotent(d: CourseDict, cs: seq<Course>, firstRun: bool, hasNotifier: bool,
                          firstRun2: bool, hasNotifier2: bool)
    requires DistinctKeys(cs)
    ensures var s := Process(d, cs, firstRun, hasNotifier).store;
            Process(s, cs, firstRun2, hasNotifier2) == Processed(s, [], [], [])
  {
    ProcessStore(d, cs, firstRun, hasNotifier);
    AddAllSettles(d, cs);
    SettledIsQuiet(Process(d, cs, firstRun, hasNotifier).store, cs, firstRun2, hasNotifier2);
  }

  /** When one fetch holds the same course twice with different grades, a pass over it leaves the second
      version stored; every later pass over the same fetch reports both as updated and leaves the store as it
      found it, so the next pass does the same again. The key must be free or hold the same course. */
  lemma {:induction false} DuplicateKeysReannounce(d: CourseDict, a: Course, b: Course,
                                                    firstRun: bool, hasNotifier: bool,
                                                    firstRun': bool, hasNotifier': bool)
    requires SameCourse(a, b) && (a.grade != b.grade || a.gpa != b.gpa)
    requires UniqueKey(a) in d.entries ==> SameCourse(a, d.entries[UniqueKey(a)])
    ensures var s := Process(d, [a, b], firstRun, hasNotifier).store;
            && UniqueKey(a) in s.entries && s.entries[UniqueKey(a)] == b
            && Process(s, [a, b], firstRun', hasNotifier').updated == [a, b]
            && Process(s, [a, b], firstRun', hasNotifier').store == s
  {
    FirstPassKeepsLast(d, a, b, firstRun, hasNotifier);
    LaterPassRepeats(Process(d, [a, b], firstRun, hasNotifier).store, a, b, firstRun', hasNotifier');
  }

  /** The first pass over the pair: `a` settles under the key, then `b` replaces it. */
  lemma FirstPassKeepsLast(d: CourseDict, a: Course, b: Course, firstRun: bool, hasNotifier: bool)
    requires SameCourse(a, b) && (a.grade != b.grade || a.gpa != b.gpa)
    requires UniqueKey(a) in d.entries ==> SameCourse(a, d.entries[UniqueKey(a)])
    ensures var s := Process(d, [a, b], firstRun, hasNotifier).store;
            UniqueKey(a) in s.entries && s.entries[UniqueKey(a)] == b
  {
    var k := UniqueKey(a);
    assert UniqueKey(b) == k;
    ProcessPair(d, a, b, firstRun, hasNotifier);
    var p1 := Step(Processed(d, [], [], []), a, firstRun, hasNotifier);
    StepStore(Processed(d, [], [], []), a, firstRun, hasNotifier);
    assert k in p1.store.entries && p1.store.entries[k].grade == a.grade && p1.store.entries[k].gpa == a.gpa;
    assert Classify(p1.store, b) == Updated;
    StepUpdated(p1, b, firstRun, hasNotifier);
  }

  /** A later pass over the pair, with `b` stored: both differ from what is stored when they arrive. */
  lemma LaterPassRepeats(s: CourseDict, a: Course, b: Course, firstRun: bool, hasNotifier: bool)
    requires SameCourse(a, b) && (a.grade != b.grade || a.gpa != b.gpa)
    requires UniqueKey(a) in s.entries && s.entries[UniqueKey(a)] == b
    ensures Process(s, [a, b], firstRun, hasNotifier).updated == [a, b]
    ensures Process(s, [a, b], firstRun, hasNotifier).store == s
  {
    var k := UniqueKey(a);
    assert UniqueKey(b) == k;
    ProcessPair(s, a, b, firstRun, hasNotifier);
    var q0 := Processed(s, [], [], []);
    assert Classify(s, a) == Updated;
    StepUpdated(q0, a, firstRun, hasNotifier);
    var q1 := Step(q0, a, firstRun, hasNotifier);
    assert Classify(q1.store, b) == Updated;
    StepUpdated(q1, b, firstRun, hasNotifier);
    assert s.entries[k := a][k := b] == s.entries;
  }

  /** Whatever the change, a step leaves the store `add_course` leaves. */
  lemma StepStore(p: Processed, c: Course, firstRun: bool, hasNotifier: bool)
    ensures Step(p, c, firstRun, hasNotifier).store == AfterAdd(p.store, c)
  {}

  /** An updated course is stored under its key and reported as updated. */
  lemma StepUpdated(p: Processed, c: Course, firstRun: bool, hasNotifier: bool)
    requires Classify(p.store, c) == Updated
    ensures Step(p, c, firstRun, hasNotifier).store == Put(p.store, UniqueKey(c), c)
    ensures Step(p, c, firstRun, hasNotifier).updated == p.updated + [c]
  {}

  /** A fetch of two courses is two steps. */
  lemma ProcessPair(d: CourseDict, a: Course, b: Course, firstRun: bool, hasNotifier: bool)
    ensures Process(d, [a, b], firstRun, hasNotifier)
            == Step(Step(Processed(d, [], [], []), a, firstRun, hasNotifier), b, firstRun, hasNotifier)
  {
    assert [a, b][..1] == [a] && [a][..0] == [];
    assert Process(d, [a], firstRun, hasNotifier)
           == Step(Process(d, [], firstRun, hasNotifier), a, firstRun, hasNotifier);
  }

  // ---------------------------------------------------------------------------
  // The whole workflow

  /** The store after `initialize`: loaded from a readable file, untouched otherwise. */
  function Initialized(start: CourseDict, file: FileState): CourseDict {
    if file.Holds? then LoadAll(start, file.snapshot.courses) else start
  }

  lemma InitializedKeepsWellKeyed(start: CourseDict, file: FileState)
    requires WellKeyed(start)
    ensures WellKeyed(Initialized(start, file))
  {
    if file.Holds? {
      LoadAllKeepsWellKeyed(start, file.snapshot.courses);
    }
  }

  /** The notices `initialize` sends: the init notice on a first run, when there is a notifier. */
  function InitNotices(file: FileState, hasNotifier: bool): seq<Message> {
    if file.Holds? then [] else Announce(hasNotifier, InitNotice())
  }

  /** What `fetch_latest_grades` returns: the parsed courses, or `[]` after any exception. */
  function FetchedCourses(fetch: FetchOutcome): seq<Course> {
    match fetch
    case Fetched(doc) => ParseDoc(doc)
    case FetchFailed => []
  }

  /** The result of a workflow run, the disk, the store and the first-run flag it leaves, and what it sent. */
  datatype RunResult = RunResult(ok: bool, disk: Disk, store: CourseDict, firstRun: bool, notices: seq<Message>)

  /** `run_full_workflow`: initialize, log in, fetch, process and save, each failed stage ending the run. */
  function RunWorkflow(start: CourseDict, disk: Disk, hasNotifier: bool, loginOk: bool,
                       fetch: FetchOutcome, write: WriteOutcome): RunResult
    requires WellKeyed(start)
  {
    var firstRun := !disk.data.Holds?;
    var loaded := Initialized(start, disk.data);
    var init := InitNotices(disk.data, hasNotifier);
    var courses := FetchedCourses(fetch);
    if !loginOk || courses == [] then RunResult(false, disk, loaded, firstRun, init)
    else
      var p := Process(loaded, courses, firstRun, hasNotifier);
      InitializedKeepsWellKeyed(start, disk.data);
      ProcessKeepsStore(loaded, courses, firstRun, hasNotifier);
      RunResult(write == Written, SavedDisk(disk, Serialize(p.store), write), p.store, firstRun, init + p.notices)
  }

  /** A run succeeds iff the login succeeds, the fetch yields at least one course and the file is written;
      a run that stops before saving leaves the disk as it was and has sent at most the init notice. */
  lemma RunOutcome(start: CourseDict, disk: Disk, hasNotifier: bool, loginOk: bool,
                   fetch: FetchOutcome, write: WriteOutcome)
    requires WellKeyed(start)
    ensures var r := RunWorkflow(start, disk, hasNotifier, loginOk, fetch, write);
            && (r.ok <==> loginOk && FetchedCourses(fetch) != [] && write == Written)
            && (r.firstRun <==> !disk.data.Holds?)
            && WellKeyed(r.store)
            && (!loginOk || FetchedCourses(fetch) == [] ==>
                  r.disk == disk && r.notices == InitNotices(disk.data, hasNotifier))
            && (r.ok ==> r.disk.data == Holds(Serialize(r.store)))
  {
    InitializedKeepsWellKeyed(start, disk.data);
    var loaded := Initialized(start, disk.data);
    ProcessKeepsStore(loaded, FetchedCourses(fetch), !disk.data.Holds?, hasNotifier);
  }

  /** A portal with no course at all, or only records without an id, fails the run before anything is saved. */
  lemma EmptyPortalFails(start: CourseDict, disk: Disk, hasNotifier: bool, doc: PortalDoc, write: WriteOutcome)
    requires WellKeyed(start)
    requires forall r | r in Records(doc) :: !HasId(r)
    ensures var r := RunWorkflow(start, disk, hasNotifier, true, Fetched(doc), write);
            !r.ok && r.disk == disk
  {
    ParseDocCounts(doc);
  }

  /** On a first run from an empty store, with distinct keys, only the init notice is sent and every fetched
      course is recorded as new. */
  lemma FirstRunSendsOnlyInitNotice(disk: Disk, hasNotifier: bool, doc: PortalDoc, write: WriteOutcome)
    requires !disk.data.Holds?
    requires DistinctKeys(ParseDoc(doc))
    ensures var r := RunWorkflow(EMPTY, disk, hasNotifier, true, Fetched(doc), write);
            r.notices == Announce(hasNotifier, InitNotice())
            && forall c | c in ParseDoc(doc) :: UniqueKey(c) in r.store.entries
  {
    var cs := ParseDoc(doc);
    if cs != [] {
      ProcessAgainstStart(EMPTY, cs, true, hasNotifier);
      ProcessNotices(EMPTY, cs, true, hasNotifier);
      ProcessKeepsStore(EMPTY, cs, true, hasNotifier);
      var u := ChangedIn(EMPTY, cs);
      if u != [] {
        assert u[0] in u;
      }
    }
  }

  /** Two successful runs on the same portal data: the second one loads what the first saved, finds nothing
      new or updated, sends nothing and saves the same snapshot again. */
  lemma SecondRunIsQuiet(disk: Disk, hasNotifier: bool, doc: PortalDoc)
    requires DistinctKeys(ParseDoc(doc))
    requires RunWorkflow(EMPTY, disk, hasNotifier, true, Fetched(doc), Written).ok
    ensures var first := RunWorkflow(EMPTY, disk, hasNotifier, true, Fetched(doc), Written);
            var second := RunWorkflow(EMPTY, first.disk, hasNotifier, true, Fetched(doc), Written);
            && second.ok && !second.firstRun
            && second.notices == []
            && second.store == first.store
            && second.disk.data == first.disk.data
  {
    var cs := ParseDoc(doc);
    var first := RunWorkflow(EMPTY, disk, hasNotifier, true, Fetched(doc), Written);
    var loaded := Initialized(EMPTY, disk.data);
    InitializedKeepsWellKeyed(EMPTY, disk.data);
    ProcessKeepsStore(loaded, cs, !disk.data.Holds?, hasNotifier);
    assert first.store == Process(loaded, cs, !disk.data.Holds?, hasNotifier).store;
    SnapshotRoundTrip(first.store);
    ProcessIdempotent(loaded, cs, !disk.data.Holds?, hasNotifier, false, hasNotifier);
  }

  // ---------------------------------------------------------------------------
  // GradeWatcher

  /** `GradeWatcher`: the credentials, the optional notifier, the course store and the first-run flag.
      `sent` records every message handed to the notifier. */
  class GradeWatcher {
    const username: Value
    const password: Value
    const notifier: Option<Notifier>
    const courseManager: CourseManager
    var isFirstRun: bool
    ghost var sent: seq<Message>

    ghost predicate Valid()
      reads this, courseManager
    {
      courseManager.Valid()
    }

    constructor(username: Value, password: Value, notifier: Option<Notifier>, dataFile: string)
      ensures Valid() && fresh(courseManager)
      ensures this.username == username && this.password == password && this.notifier == notifier
      ensures courseManager.dataFile == dataFile && courseManager.courses == EMPTY
      ensures !isFirstRun && sent == []
    {
      this.username := username;
      this.password := password;
      this.notifier := notifier;
      courseManager := new CourseManager(dataFile);
      isFirstRun := false;
      sent := [];
    }

    /** `initialize`: load the data file; a missing or unreadable one makes this a first run, announced
        when there is a notifier. It always reports success. */
    method Initialize(file: FileState) returns (ok: bool)
      requires Valid()
      modifies this, courseManager
      ensures Valid() && ok
      ensures isFirstRun <==> !file.Holds?
      ensures courseManager.courses == Initialized(old(courseManager.courses), file)
      ensures sent == old(sent) + InitNotices(file, notifier.Some?)
    {
      var loaded := courseManager.InitializeFromFile(file);
      if loaded {
        isFirstRun := false;
      } else {
        isFirstRun := true;
        if notifier.Some? {
          sent := sent + [InitNotice()];
        }
      }
      return true;
    }

    /** `fetch_latest_grades`: the courses of every record with an id, term by term, and the number of
        records seen; after a failed request, no courses. */
    method FetchLatestGrades(fetch: FetchOutcome) returns (courses: seq<Course>, total: nat)
      ensures courses == FetchedCourses(fetch)
      ensures fetch.Fetched? ==> total == |Records(fetch.doc)|
      ensures fetch.FetchFailed? ==> total == 0
    {
      if fetch.FetchFailed? {
        return [], 0;
      }
      var doc := fetch.doc;
      courses, total := [], 0;
      for t := 0 to |doc|
        invariant courses == ParseDoc(doc[..t]) && total == |Records(doc[..t])|
      {
        var termName := TermName(doc[t]);
        var recs := doc[t].records;
        assert doc[..t + 1][..t] == doc[..t];
        for j := 0 to |recs|
          invariant courses == ParseDoc(doc[..t]) + ParseRecords(recs[..j], termName)
          invariant total == |Records(doc[..t])| + j
        {
          var r := recs[j];
          total := total + 1;
          assert recs[..j + 1][..j] == recs[..j];
          ghost var found := if HasId(r) then [FromRawData(r, termName)] else [];
          assert ParseRecords(recs[..j + 1], termName) == ParseRecords(recs[..j], termName) + found;
          AppendAssoc(ParseDoc(doc[..t]), ParseRecords(recs[..j], termName), found);
          if HasId(r) {
            courses := courses + [FromRawData(r, termName)];
          }
        }
        assert recs[..|recs|] == recs;
      }
      assert doc[..|doc|] == doc;
    }

    /** `_send_course_notification`: hand the new-course or updated-course notice to the notifier, if any. */
    method SendCourseNotification(course: Course, isNew: bool)
      modifies this
      ensures isFirstRun == old(isFirstRun)
      ensures sent == old(sent) + Announce(notifier.Some?, CourseNotice(course, isNew))
    {
      if notifier.Some? {
        sent := sent + [CourseNotice(course, isNew)];
      }
    }

    /** `process_new_data`: every course through `add_course`, collecting the new and the updated ones. */
    method ProcessNewData(newCourses: seq<Course>) returns (added: seq<Course>, updated: seq<Course>)
      requires Valid()
      modifies this, courseManager
      ensures Valid() && isFirstRun == old(isFirstRun)
      ensures var p := Process(old(courseManager.courses), newCourses, isFirstRun, notifier.Some?);
              && added == p.added && updated == p.updated
              && courseManager.courses == p.store
              && sent == old(sent) + p.notices
    {
      added, updated := [], [];
      ghost var start, sent0 := courseManager.courses, sent;
      for i := 0 to |newCourses|
        invariant Valid() && isFirstRun == old(isFirstRun)
        invariant var p := Process(start, newCourses[..i], isFirstRun, notifier.Some?);
                  && added == p.added && updated == p.updated
                  && courseManager.courses == p.store
                  && sent == sent0 + p.notices
      {
        var course := newCourses[i];
        ghost var p := Process(start, newCourses[..i], isFirstRun, notifier.Some?);
        assert newCourses[..i + 1][..i] == newCourses[..i];
        ghost var q := Step(p, course, isFirstRun, notifier.Some?);
        assert Process(start, newCourses[..i + 1], isFirstRun, notifier.Some?) == q;
        var shouldNotify, change := courseManager.AddCourse(course);
        assert courseManager.courses == q.store;
        if shouldNotify {
          if change == New {
            added := added + [course];
            ghost var x := if isFirstRun then [] else Announce(notifier.Some?, CourseNotice(course, true));
            if !isFirstRun {
              SendCourseNotification(course, true);
            }
            assert sent == sent0 + p.notices + x;
            AppendAssoc(sent0, p.notices, x);
          } else if change == Updated {
            updated := updated + [course];
            SendCourseNotification(course, false);
            AppendAssoc(sent0, p.notices, Announce(notifier.Some?, CourseNotice(course, false)));
          }
        }
      }
      assert newCourses[..|newCourses|] == newCourses;
    }

    /** `save_data`: save the store and report whether it worked. */
    method SaveData(disk: Disk, write: WriteOutcome) returns (ok: bool, after: Disk)
      requires Valid()
      ensures ok <==> write == Written
      ensures after == SavedDisk(disk, Serialize(courseManager.courses), write)
    {
      ok, after := courseManager.SaveToFile(disk, write);
    }

    /** `run_full_workflow`, with the login's and the transports' results and the write's outcome given. */
    method RunFullWorkflow(disk: Disk, loginOk: bool, fetch: FetchOutcome, write: WriteOutcome)
      returns (ok: bool, after: Disk)
      requires Valid()
      modifies this, courseManager
      ensures Valid()
      ensures var r := RunWorkflow(old(courseManager.courses), disk, notifier.Some?, loginOk, fetch, write);
              && ok == r.ok && after == r.disk
              && courseManager.courses == r.store && isFirstRun == r.firstRun
              && sent == old(sent) + r.notices
    {
      ghost var r := RunWorkflow(courseManager.courses, disk, notifier.Some?, loginOk, fetch, write);
      ghost var sent0 := sent;
      // `initialize` always reports success, so its failure branch is never taken.
      var _ := Initialize(disk.data);
      assert isFirstRun == r.firstRun;
      ghost var init := InitNotices(disk.data, notifier.Some?);
      assert sent == sent0 + init;
      if !loginOk {
        return false, disk;
      }
      var newCourses, _ := FetchLatestGrades(fetch);
      if newCourses == [] {
        return false, disk;
      }
      ghost var loaded := courseManager.courses;
      var added, updated := ProcessNewData(newCourses);
      ghost var p := Process(loaded, newCourses, isFirstRun, notifier.Some?);
      assert courseManager.courses == p.store == r.store;
      ghost var sentNow := sent;
      assert sentNow == sent0 + init + p.notices;
      AppendAssoc(sent0, init, p.notices);
      ok, after := SaveData(disk, write);
    }
  }
}
