# PKU grade watcher — a Dafny model

The grade watcher logs in to the PKU portal and downloads the student's score list. It compares that list with the
snapshot it saved last time, announces new and changed grades through one or more notification channels, and
writes the snapshot back. This project models the watcher's core and proves what it promises:

- the course value and its identity;
- the course store and its snapshot file with a backup slot;
- the notifier composition and the factory that builds it from configuration;
- the workflow of one run (initialize, log in, fetch, process, save);
- the older id-only differ in `session.py`, with its own backup and restore;
- the configuration check and the exit code of the entry point.

Modules, one per source file:

- `Wrappers` (`wrappers.dfy`): `Option` and `Result`.
- `Strings` (`strings.dfy`): what the code uses of Python's `str`.
  - `<` compares code points left to right, as `sorted`/`max` do. Proved to be a strict total order.
  - `lower()` is modelled for ASCII only.
  - `in` is substring containment.
- `Portal` (`portal.dfy`): the portal's response, a list of terms each holding raw records (string maps).
- `Models` (`models.dfy`, after `models.py`):
  - `Course` is a datatype.
  - `CourseManager` is a class whose `courses` field holds an insertion-ordered dictionary (`CourseDict`: a map
    plus its key order).
  - The snapshot file lives in a two-slot `Disk` (data file and `.json.bak`). Writing it is an oracle outcome.
- `Notifiers` (`notifier.dfy`): channels are a datatype and delivery is a transport oracle. `MultiNotifier` is a
  class with a list field.
- `Watcher` (`grade_watcher.dfy`):
  - the parse of the portal response;
  - the processing step as a function `Process` and its properties;
  - a whole run as a function `RunWorkflow` and its properties;
  - the `GradeWatcher` class, whose methods are proved against those functions. Notices it sends go to a ghost
    log `sent`.
- `Legacy` (`session.dfy`): `check_init`/`check_update` over raw documents, with `data.json`, `current.json` and
  `data.json.bak` as three file slots.
- `Cli` (`main.dfy`): `validate_config`, the data file name and the exit code.

Where the design description of the system and the code disagree, the model follows the code:

- **Course identity.** A course is identified by `course_id` (the portal's `bkcjbh`) and `term`, not by name and
  term. The store's key is the string `course_id + "_" + term`. Two different pairs can produce the same key
  (`"a_b"` + `"c"` and `"a"` + `"b_c"`). The colliding course is then silently dropped by `add_course`
  (`UniqueKeyCollision`, `CollidingCourseIsDropped`).
- **Only grade and gpa changes count.** A stored course whose name, credit or type changed is `no_change` and is
  not rewritten.
- **Corrupt snapshot file.** The design asks for a fatal corrupt-state error. In the code, an unreadable file is
  treated like a missing one: the run becomes a first run. When the fetched keys are distinct it announces
  nothing but the initialization notice; a key fetched twice with different grades is announced as updated.
- **Saving.** The design asks for write-to-temporary-then-replace. The code renames the old file to `.json.bak`,
  writes the new one, and renames the backup back when the write fails. After a failed write the data slot may
  hold a partial file, modelled as `Garbled` when there was no earlier file to restore.
- **Empty fetch.** The design says an empty delta is a normal success. The code fails the whole run when the
  fetch yields no course at all, including a portal with genuinely no grades, and nothing is saved
  (`EmptyPortalFails`).
- **Duplicate keys in one fetch.** The design calls them a data-source error. The code accepts them: when one
  fetch holds two different grades under the same key, the first pass leaves the second one stored, and every
  later pass reports both as updated and leaves the store as it found it, so the updates repeat on every run
  (`DuplicateKeysReannounce`). The quietness of a second run is proved for fetches with distinct keys.

## Model

| member | source | states |
|---|---|---|
| Models.EqualCoursesHashEqual | models.py:23-31 | two courses are equal exactly when the tuples their `__hash__` hashes, (course_id, term), are equal |
| Models.SameCourseIsEquivalence | models.py:27-31 | course equality is reflexive, symmetric and transitive |
| Models.UniqueKeyRespectsEquality | models.py:33-35 | equal courses have the same store key |
| Models.UniqueKeyInjective | models.py:33-35 | when no course_id contains `_`, equal store keys mean equal courses |
| Models.UniqueKeyCollision | models.py:33-35 | two different courses whose ids contain `_` can share one store key |
| Models.HasGradeUpdateMeaning | models.py:37-45 | different courses never count as updated; for the same course an update is a change of grade or gpa; the relation is irreflexive and symmetric |
| Models.ToDict | models.py:47-49 | the dictionary has exactly the seven field keys |
| Models.DictRoundTrip | models.py:47-62 | `from_dict(to_dict(c))` gives back all seven fields of `c` |
| Models.FromDictDefaults | models.py:51-62 | a missing id, term, grade or gpa key reads as the empty string |
| Models.CountIsLength | models.py:196-198 | the store's size equals the number of keys in its insertion order |
| Models.AddNewCourse | models.py:121-127 | an unseen key is classified `new` and appended with the course |
| Models.AddChangedCourse | models.py:128-133 | a stored course whose grade or gpa differs is classified `updated` and replaced in place, order unchanged |
| Models.AddUnchangedCourse | models.py:134-136 | equal grade and gpa leave the store unchanged and classify `no_change` |
| Models.CollidingCourseIsDropped | models.py:121-136 | a course whose key collides with a different course is `no_change` and leaves the store unchanged |
| Models.AddTouchesOnlyItsKey | models.py:111-136 | adding changes only the course's own key, removes nothing, and never shrinks the count |
| Models.LatestIsGreatest | models.py:150-152 | without a term the chosen course has a term no other candidate exceeds |
| Models.Serialize | models.py:169-172 | the snapshot's i-th entry is `to_dict` of the i-th stored course in insertion order, reading it back gives that course, and `total_count` is their number |
| Models.LoadAllKeys | models.py:98-102 | after loading, a key is present iff it was there before or some record maps to it |
| Models.LoadAllLastWins | models.py:98-102 | a loaded record is stored under its key unless a later record has the same key |
| Models.LoadAllKeepsWellKeyed | models.py:98-102 | loading keeps every course stored under its own key |
| Models.SnapshotRoundTrip | models.py:98-172 | loading a saved snapshot into an empty store restores the store, including its order |
| Models.SavedDisk | models.py:161-186 | a good write holds the snapshot with the old file, if any, as backup; after a failed one the backup is renamed back, so the data file holds the old file, else a stale backup, else nothing or a partial file |
| Models.CourseManager.constructor | models.py:83-86 | a new manager holds the data file name and an empty store |
| Models.CourseManager.InitializeFromFile | models.py:88-109 | returns true iff the file holds a snapshot, and then loads its records into the store |
| Models.CourseManager.AddCourse | models.py:111-136 | classifies the course and updates the store as `AfterAdd` says; notifies iff the change is not `no_change` |
| Models.CourseManager.GetCourseByKey | models.py:138-153 | with a non-empty term, a lookup of `id_term`; otherwise the stored course with that id and the greatest term, or none |
| Models.CourseManager.GetAllCoursesForId | models.py:155-159 | exactly the stored courses with that id, each once, in the store's insertion order |
| Models.StoredCoursesForId | models.py:155-159 | over a well-keyed store, the comprehension over `values()` holds every stored course of the id, none twice, and any two in the order their keys were inserted |
| Models.CoursesForIdNoDuplicates | models.py:157-159 | filtering a list without repeats by id gives a list without repeats |
| Models.CoursesForIdKeepsOrder | models.py:157-159 | any two filtered courses sit under keys in the same order in the store |
| Models.ValuesNoDuplicates | models.py:157 | `values()` of a well-keyed store never repeats a course, since each is filed under its own key |
| Models.CourseManager.GetCoursesCount | models.py:196-198 | the number of stored courses |
| Models.CourseManager.SaveToFile | models.py:161-186 | succeeds iff the write succeeds; the disk afterwards is `SavedDisk` of the serialized store |
| Models.CourseManager.Clear | models.py:200-202 | the store is empty afterwards |
| Notifiers.ConsoleAlwaysDelivers | notifier.py:134-142 | the console channel always reports success |
| Notifiers.SuccessesPositive | notifier.py:157-167 | the success count is positive iff some child delivered, and at most the number of children |
| Notifiers.MultiNotifier.constructor | notifier.py:148-149 | a new multi-notifier has no children |
| Notifiers.MultiNotifier.AddNotifier | notifier.py:151-153 | the child is appended and the earlier children are unchanged |
| Notifiers.MultiNotifier.Send | notifier.py:155-167 | every child is tried once, in order; the result is true iff some child delivered, so an empty one fails |
| Notifiers.CourseDetailsShowFields | notifier.py:115-126 | the details table contains the course's name, grade, gpa, credit and term |
| Notifiers.BuildEmailContent | notifier.py:101-128 | the HTML contains the content; it contains the course table iff a course is given |
| Notifiers.MultiChildren | notifier.py:191-210 | a `multi` config yields one child per configured channel: a Bark child carrying the token first iff a token exists, an Email child carrying the settings last iff all six keys exist; empty iff neither |
| Notifiers.CreateNotifierFromConfig | notifier.py:170-216 | a non-text `type` raises; each arm gives exactly its notifier: `bark` with a token a Bark notifier with that token, `email` with all six keys the Email notifier with those settings, `console` the console, `multi` a multi notifier over its children or none when it has no child; an Email notifier is built only for type `email` |
| Notifiers.FactoryFallsBackToBark | notifier.py:212-216 | any other type, including `bark` without a token or `email` without all keys, gives Bark iff a token exists, else nothing |
| Notifiers.FactoryIgnoresTypeCase | notifier.py:172 | the type is compared after lower-casing |
| Watcher.ParseRecordsAppend | grade_watcher.py:156-164 | parsing keeps record order: the parse of two record lists joined is the two parses joined |
| Watcher.ParseDocAppend | grade_watcher.py:153-164 | parsing keeps term order |
| Watcher.ParseRecordsMembers | grade_watcher.py:156-164 | a course is parsed iff it comes from a record with a non-empty `bkcjbh`; each carries its term |
| Watcher.ParseDocCounts | grade_watcher.py:150-166 | parsed courses have ids, are at most the counted records, and are none iff no record has an id |
| Watcher.GradeWatcher.FetchLatestGrades | grade_watcher.py:130-171 | the courses are the parse of the response, or none when the fetch fails; the total counts every record |
| Watcher.CourseNoticeShowsCourse | grade_watcher.py:238-245 | a course notice names the course in its title and shows name, term, grade and gpa in its content |
| Watcher.NoticeTitlesDiffer | grade_watcher.py:238-243 | new-course, updated-course and initialization titles are pairwise different |
| Watcher.ProcessStore | grade_watcher.py:188-190 | the store after processing is the courses added one by one |
| Watcher.ProcessNotices | grade_watcher.py:188-201 | with a notifier, notices number (first run ? 0 : new) + updated, and a first run announces only updates; no notifier, no notices |
| Watcher.AddAllKeepsStore | grade_watcher.py:188-190 | adding courses keeps keys in order, never drops one, never shrinks the count and stores every course's key |
| Watcher.ProcessKeepsStore | grade_watcher.py:185-201 | the same for the store left by processing |
| Watcher.AddAllKeepsOtherKeys | grade_watcher.py:188-190 | keys no fetched course has are left as they were |
| Watcher.NewIn | grade_watcher.py:192-194 | the fetched courses whose key the old store lacks |
| Watcher.ChangedIn | grade_watcher.py:198-199 | the fetched courses whose stored counterpart has another grade or gpa |
| Watcher.ProcessAgainstStart | grade_watcher.py:185-211 | for distinct keys, the new list is `NewIn` and the updated list is `ChangedIn` of the starting store, in input order |
| Watcher.AddAllSettles | grade_watcher.py:188-190 | after adding distinct-key courses, every course's key is in the store with no grade or gpa update pending against it (a colliding course, or one changed only in name, credit or type, stays as stored) |
| Watcher.SettledIsQuiet | grade_watcher.py:188-201 | courses already stored as given change nothing and announce nothing |
| Watcher.ProcessIdempotent | grade_watcher.py:173-211 | processing the same distinct-key courses twice: the second pass finds nothing and changes nothing |
| Watcher.DuplicateKeysReannounce | grade_watcher.py:188-201 | from a store where the key is free or holds the same course, a pass over a fetch holding that course twice with different grades stores the second; every later pass over it reports both as updated and leaves the store unchanged, so this repeats on every run |
| Watcher.FirstPassKeepsLast | grade_watcher.py:188-201 | when the key is free or holds the same course, the later of two differing versions in one fetch is the one stored |
| Watcher.LaterPassRepeats | grade_watcher.py:188-201 | with the second version stored, a pass over the pair reports both as updated and leaves the store unchanged |
| Watcher.RunOutcome | grade_watcher.py:250-289 | a run succeeds iff login, a non-empty fetch and the write succeed; it is a first run iff no snapshot was readable; a failed login or empty fetch leaves the disk as it was with only the initialization notice sent; on success the data file holds the serialized store |
| Watcher.EmptyPortalFails | grade_watcher.py:267-270 | a response with no course id fails the run without touching the disk |
| Watcher.FirstRunSendsOnlyInitNotice | grade_watcher.py:192-201 | with no readable snapshot and distinct keys, the initialization notice is the only notice, and every fetched course is stored |
| Watcher.SecondRunIsQuiet | grade_watcher.py:250-289 | a second run on the same distinct-key fetch after a successful one is not a first run, succeeds, sends nothing, and saves the same store |
| Watcher.GradeWatcher.constructor | grade_watcher.py:21-28 | credentials and notifier are kept; a fresh manager with an empty store |
| Watcher.GradeWatcher.Initialize | grade_watcher.py:59-84 | always true; first run iff no snapshot was loaded, and only then the initialization notice when a notifier exists |
| Watcher.GradeWatcher.SendCourseNotification | grade_watcher.py:232-248 | nothing without a notifier, otherwise the new or updated notice for the course |
| Watcher.GradeWatcher.ProcessNewData | grade_watcher.py:173-211 | the lists, the store and the notices are those of `Process` from the old store |
| Watcher.GradeWatcher.SaveData | grade_watcher.py:213-230 | succeeds iff the write succeeds; the disk afterwards holds the serialized store |
| Watcher.GradeWatcher.RunFullWorkflow | grade_watcher.py:250-289 | result, disk, store, first-run flag and notices are those of `RunWorkflow` |
| Legacy.EntryOfReadsFields | session.py:144-150 | a reported entry carries name, grade and gpa, each defaulting to `无` |
| Legacy.OldIndexContents | session.py:123-127 | an id is indexed iff some old record has the `bkcjbh` key with it, even empty, and maps to the last such record |
| Legacy.NewEntriesMembers | session.py:135-150 | an entry is reported iff it comes from a record with a non-empty id not in the index |
| Legacy.KnownIdsNotReported | session.py:142-150 | when every id is known, nothing is reported |
| Legacy.GradeChangesNotReported | session.py:142-150 | records whose id is already known are not reported, whatever their grade |
| Legacy.SelfDiffIsEmpty | session.py:122-150 | comparing a document with itself reports nothing |
| Legacy.DiffReportsUnknownIds | session.py:142-150 | a record whose id no old record has is reported |
| Legacy.BuildIndex | session.py:122-127 | the loop builds `OldIndex` of the old records |
| Legacy.CollectNew | session.py:129-150 | the loop collects `NewEntries` in order and counts every record, skipped ones included |
| Legacy.AttemptsOutcome | session.py:164-169 | pushes are tried in order until one raises; all go out iff every push succeeds |
| Legacy.PushEntries | session.py:164-169 | the loop makes exactly those attempts and succeeds iff all pushes succeed |
| Legacy.CheckUpdateSucceeds | session.py:108-171 | with both documents readable, a good write and good pushes, the diff is returned, the old file is the backup and the new document is saved |
| Legacy.FirstCheckReportsNothing | session.py:95-143 | without `data.json`, the first check copies `current.json`, pushes the init message and reports nothing |
| Legacy.FirstCheckWithoutNotifier | session.py:95-106 | without `data.json` and without a notifier, the copy is made, the init push raises and nothing is reported |
| Legacy.PushFailureRestoresOldData | session.py:154-178 | when a push raises after the save, the backup is renamed back and nothing is reported, though earlier pushes went out |
| Legacy.ReportIsDiffOrNothing | session.py:108-178 | the report is either the diff of the files `check_init` left or empty; the backup slot ends empty, unchanged, or holding the earlier data |
| Legacy.Session.constructor | session.py:19-22 | the session keeps whether a notifier was given |
| Legacy.Session.CheckInit | session.py:95-106 | the stage is `CheckInitResult` |
| Legacy.Session.CheckUpdate | session.py:108-178 | report, files and pushes are `CheckUpdateResult` |
| Cli.ValidateConfig | main.py:32-41 | true iff `username` and `password` are both truthy; otherwise names the first missing field, `username` first |
| Cli.DataFileName | main.py:65 | `course_data.json` when absent, the given text otherwise, and no path when the value is not text |
| Cli.ExitCodeMeaning | main.py:69-77 | the exit code is 0 iff the run finished with success, and 1 otherwise |
| Cli.RunMain | main.py:44-77 | exit 1 with the disk untouched when the config cannot start a run; otherwise 0 iff the workflow succeeds, and the disk is the workflow's |

## Left out

- HTTP and authentication are not modelled: `login`, the `get`/`post` overrides, headers, the session-id regex,
  the random token and legacy `Session.login`/`get_grade`. Login is a boolean and the portal's response a
  `FetchOutcome` value.
- Transports are not modelled: the Bark HTTP push and the SMTP session of `EmailNotifier.send`. Each channel's
  pass/fail is a transport oracle `(Notifier, Message) -> bool`. A transport that raises is folded into `false`,
  as the code's own `except` clauses do, so no child of `MultiNotifier` ever raises in the model.
- `load_config`, JSON/YAML parsing and `pathlib` are not modelled. A file is a slot holding a snapshot, nothing,
  or something unparsable (`Garbled`/`Unreadable`). Writes are an oracle outcome: written, open failed, or dump
  failed after truncation.
- The raw portal values are modelled as strings. JSON `null`, numbers or non-object records are not. A record
  that is not a dictionary would raise in the middle of a load or a parse; the model has no such record.
- Renames follow POSIX semantics: an existing target is replaced. Windows semantics, where it raises, are not
  modelled.
- `Strings.Lower` lower-cases ASCII letters only. Python's `str.lower()` also maps other letters, such as the
  Kelvin sign to `k`, so a non-ASCII spelling of a type name is not modelled.
- Watcher.GradeWatcher.SendCourseNotification: its `except` around `send` is not modelled, because sending never
  raises in the model. The notice is recorded in a ghost log `sent` rather than delivered.
- Watcher.GradeWatcher.FetchLatestGrades: the copy of the response written to `current.json` for debugging is
  not modelled.
- Console printing, timestamps, `__del__`/`close` and `sys.exit` are not modelled; the exit code is a returned
  value.
- Cli.RunMain: a `KeyboardInterrupt` or any other exception in the middle of a run is covered by
  `Cli.ExitCode`/`Cli.ExitCodeMeaning` (exit 1) only. The disk state such an interruption leaves is not modelled.
- The legacy `BarkNotifier` and the keyword mismatch between `check_init`/`check_update`'s
  `send(title=..., info=...)` and the newer notifiers are not modelled. A push is an oracle that succeeds or
  raises.
- Concurrency is not modelled; the code has none and does not guard against overlapping runs.
