/** The older id-only differ of `session.py`: compare the fetched score document (`current.json`) with the
    stored one (`data.json`), report the records whose id is new, replace the stored document and push one
    message per new record, restoring the stored document from `data.json.bak` when anything raises. */
module Legacy {
  import opened Wrappers
  import opened Portal
  import opened Models

  // ---------------------------------------------------------------------------
  // The diff

  /** An entry of `new_courses`: name, grade and gpa. */
  datatype Entry = Entry(name: string, grade: string, gpa: string)

  /** The text a missing field is reported as. */
  const MISSING_TEXT: string := "无"

  /** The entry reported for a new record, each field defaulting to `"无"`. */
  function EntryOf(r: RawRecord): Entry {
    Entry(Field(r, "kcmc", MISSING_TEXT), Field(r, "xqcj", MISSING_TEXT), Field(r, "jd", MISSING_TEXT))
  }

  lemma EntryOfReadsFields(r: RawRecord)
    ensures EntryOf(r).name == (if "kcmc" in r then r["kcmc"] else "无")
    ensures EntryOf(r).grade == (if "xqcj" in r then r["xqcj"] else "无")
    ensures EntryOf(r).gpa == (if "jd" in r then r["jd"] else "无")
  {}

  /** `old_courses`: every old record that has a `bkcjbh` key, even an empty one, filed under it; a later
      record with the same id replaces an earlier one. */
  function OldIndex(recs: seq<RawRecord>): map<string, RawRecord> {
    if recs == [] then map[]
    else
      var r := recs[|recs| - 1];
      var m := OldIndex(recs[..|recs| - 1]);
      if "bkcjbh" in r then m[r["bkcjbh"] := r] else m
  }

  /** An id is indexed iff some old record carries it, and it is filed with the last such record. */
  lemma {:induction false} OldIndexContents(recs: seq<RawRecord>, id: string)
    ensures id in OldIndex(recs) <==> exists r | r in recs :: "bkcjbh" in r && r["bkcjbh"] == id
    ensures id in OldIndex(recs) ==>
              exists i | 0 <= i < |recs| :: OldIndex(recs)[id] == recs[i] && "bkcjbh" in recs[i] && recs[i]["bkcjbh"] == id
                && forall j | i < j < |recs| :: !("bkcjbh" in recs[j] && recs[j]["bkcjbh"] == id)
    decreases |recs|
  {
    if recs != [] {
      var init, r := recs[..|recs| - 1], recs[|recs| - 1];
      OldIndexContents(init, id);
      assert recs == init + [r];
      if id in OldIndex(recs) && !("bkcjbh" in r && r["bkcjbh"] == id) {
        var i :| 0 <= i < |init| && OldIndex(init)[id] == init[i] && "bkcjbh" in init[i] && init[i]["bkcjbh"] == id
                 && forall j | i < j < |init| :: !("bkcjbh" in init[j] && init[j]["bkcjbh"] == id);
        assert recs[i] == init[i];
        assert forall j | i < j < |recs| :: !("bkcjbh" in recs[j] && recs[j]["bkcjbh"] == id) by {
          forall j | i < j < |recs| ensures !("bkcjbh" in recs[j] && recs[j]["bkcjbh"] == id) {
            if j < |init| {
              assert recs[j] == init[j];
            }
          }
        }
      }
    }
  }

  /** The entries reported for the new records: one per record with a truthy `bkcjbh` that is not indexed,
      in record order. */
  function NewEntries(recs: seq<RawRecord>, index: map<string, RawRecord>): seq<Entry> {
    if recs == [] then []
    else
      var r := recs[|recs| - 1];
      NewEntries(recs[..|recs| - 1], index) + (if HasId(r) && r["bkcjbh"] !in index then [EntryOf(r)] else [])
  }

  /** An entry is reported iff some new record with a truthy id unknown to the index produced it. */
  lemma {:induction false} NewEntriesMembers(recs: seq<RawRecord>, index: map<string, RawRecord>)
    ensures forall e :: e in NewEntries(recs, index) <==>
              exists r | r in recs :: HasId(r) && r["bkcjbh"] !in index && e == EntryOf(r)
    ensures |NewEntries(recs, index)| <= |recs|
    decreases |recs|
  {
    if recs != [] {
      var init, r := recs[..|recs| - 1], recs[|recs| - 1];
      NewEntriesMembers(init, index);
      assert recs == init + [r];
    }
  }

  /** The diff only asks whether an id is known: records whose id is indexed are never reported. */
  lemma {:induction false} KnownIdsNotReported(recs: seq<RawRecord>, index: map<string, RawRecord>)
    requires forall r | r in recs && HasId(r) :: r["bkcjbh"] in index
    ensures NewEntries(recs, index) == []
    decreases |recs|
  {
    if recs != [] {
      var init := recs[..|recs| - 1];
      assert forall r | r in init :: r in recs;
      KnownIdsNotReported(init, index);
    }
  }

  /** `check_update`'s report: the records of the new document whose id the old document lacks. */
  function Diff(oldDoc: PortalDoc, newDoc: PortalDoc): seq<Entry> {
    NewEntries(Records(newDoc), OldIndex(Records(oldDoc)))
  }

  /** A record whose id the old document already had is not reported, whatever its grade now is. */
  lemma GradeChangesNotReported(oldDoc: PortalDoc, newDoc: PortalDoc)
    requires forall r | r in Records(newDoc) && HasId(r) ::
               exists o | o in Records(oldDoc) :: "bkcjbh" in o && o["bkcjbh"] == r["bkcjbh"]
    ensures Diff(oldDoc, newDoc) == []
  {
    var index := OldIndex(Records(oldDoc));
    forall r | r in Records(newDoc) && HasId(r) ensures r["bkcjbh"] in index {
      OldIndexContents(Records(oldDoc), r["bkcjbh"]);
    }
    KnownIdsNotReported(Records(newDoc), index);
  }

  /** A document compared with itself reports nothing. */
  lemma SelfDiffIsEmpty(doc: PortalDoc)
    ensures Diff(doc, doc) == []
  {
    GradeChangesNotReported(doc, doc);
  }

  /** Every id-bearing record of the new document whose id the old document lacks is reported. */
  lemma DiffReportsUnknownIds(oldDoc: PortalDoc, newDoc: PortalDoc, r: RawRecord)
    requires r in Records(newDoc) && HasId(r)
    requires forall o | o in Records(oldDoc) :: !("bkcjbh" in o && o["bkcjbh"] == r["bkcjbh"])
    ensures EntryOf(r) in Diff(oldDoc, newDoc)
  {
    OldIndexContents(Records(oldDoc), r["bkcjbh"]);
    NewEntriesMembers(Records(newDoc), OldIndex(Records(oldDoc)));
  }

  /** One more old record: `OldIndex` files it if it has the `bkcjbh` key. */
  lemma OldIndexStep(s: seq<RawRecord>, r: RawRecord)
    ensures OldIndex(s + [r]) == if "bkcjbh" in r then OldIndex(s)[r["bkcjbh"] := r] else OldIndex(s)
  {
    assert (s + [r])[..|s|] == s;
  }

  /** One more new record: `NewEntries` reports it if its id is truthy and unknown. */
  lemma NewEntriesStep(s: seq<RawRecord>, r: RawRecord, index: map<string, RawRecord>)
    ensures NewEntries(s + [r], index)
            == NewEntries(s, index) + (if HasId(r) && r["bkcjbh"] !in index then [EntryOf(r)] else [])
  {
    assert (s + [r])[..|s|] == s;
  }

  /** `old_courses` as the loop over the old document's terms builds it. */
  method BuildIndex(doc: PortalDoc) returns (index: map<string, RawRecord>)
    ensures index == OldIndex(Records(doc))
  {
    index := map[];
    for t := 0 to |doc|
      invariant index == OldIndex(Records(doc[..t]))
    {
      var recs := doc[t].records;
      ghost var before := Records(doc[..t]);
      assert before + recs[..0] == before;
      for j := 0 to |recs|
        invariant index == OldIndex(before + recs[..j])
      {
        var r := recs[j];
        assert before + recs[..j + 1] == (before + recs[..j]) + [r];
        OldIndexStep(before + recs[..j], r);
        if "bkcjbh" in r {
          index := index[r["bkcjbh"] := r];
        }
      }
      assert recs[..|recs|] == recs;
      RecordsStep(doc, t);
    }
    assert doc[..|doc|] == doc;
  }

  /** The loop over the new document: the new entries and the number of records seen. */
  method CollectNew(doc: PortalDoc, index: map<string, RawRecord>) returns (entries: seq<Entry>, total: nat)
    ensures entries == NewEntries(Records(doc), index)
    ensures total == |Records(doc)|
  {
    entries, total := [], 0;
    for t := 0 to |doc|
      invariant entries == NewEntries(Records(doc[..t]), index) && total == |Records(doc[..t])|
    {
      var recs := doc[t].records;
      ghost var before := Records(doc[..t]);
      assert before + recs[..0] == before;
      for j := 0 to |recs|
        invariant entries == NewEntries(before + recs[..j], index)
        invariant total == |before| + j
      {
        var r := recs[j];
        total := total + 1;
        assert before + recs[..j + 1] == (before + recs[..j]) + [r];
        NewEntriesStep(before + recs[..j], r, index);
        if HasId(r) && r["bkcjbh"] !in index {
          entries := entries + [EntryOf(r)];
        }
      }
      assert recs[..|recs|] == recs;
      RecordsStep(doc, t);
    }
    assert doc[..|doc|] == doc;
  }

  // ---------------------------------------------------------------------------
  // Pushes

  /** The arguments of the legacy `BarkNotifier.send(title, info)`. */
  datatype Push = Push(title: string, info: string)

  /** Whether a push returns; `false` stands for `requests.post` raising. */
  type PushOracle = Push -> bool

  /** The push `check_init` sends after creating `data.json`. */
  function InitPush(): Push {
    Push("[成绩更新] 初始化", "成功初始化成绩数据")
  }

  /** The push for one new entry. */
  function EntryPush(e: Entry): Push {
    Push("[成绩更新] " + e.name, "成绩：" + e.grade + "，绩点：" + e.gpa)
  }

  /** The pushes for the entries, in order. */
  function Pushes(es: seq<Entry>): (ps: seq<Push>)
    ensures |ps| == |es|
  {
    seq(|es|, i requires 0 <= i < |es| => EntryPush(es[i]))
  }

  /** Every entry's push returns. */
  predicate AllOk(es: seq<Entry>, pushOk: PushOracle) {
    forall i | 0 <= i < |es| :: pushOk(EntryPush(es[i]))
  }

  /** The pushes attempted for the entries: one after another until one raises. */
  function Attempts(es: seq<Entry>, pushOk: PushOracle): seq<Push> {
    if es == [] then []
    else if pushOk(EntryPush(es[0])) then [EntryPush(es[0])] + Attempts(es[1..], pushOk)
    else [EntryPush(es[0])]
  }

  /** After `i` pushes that returned, the attempts are those `i` pushes and the attempts for the rest. */
  lemma {:induction false} AttemptsSplit(es: seq<Entry>, pushOk: PushOracle, i: nat)
    requires i <= |es| && AllOk(es[..i], pushOk)
    ensures Attempts(es, pushOk) == Pushes(es[..i]) + Attempts(es[i..], pushOk)
    decreases i
  {
    if i > 0 {
      assert es[..i][0] == es[0];
      assert es[1..][..i - 1] == es[..i][1..];
      AttemptsSplit(es[1..], pushOk, i - 1);
      assert es[1..][i - 1..] == es[i..];
      assert Pushes(es[..i]) == [EntryPush(es[0])] + Pushes(es[1..][..i - 1]);
    } else {
      assert es[..0] == [] && es[0..] == es;
    }
  }

  /** The attempted pushes are a prefix of the entries' pushes: all of them when every push returns;
      otherwise they stop at the first push that raised, every earlier one having returned. */
  lemma {:induction false} AttemptsOutcome(es: seq<Entry>, pushOk: PushOracle)
    ensures Attempts(es, pushOk) <= Pushes(es)
    ensures AllOk(es, pushOk) ==> Attempts(es, pushOk) == Pushes(es)
    ensures !AllOk(es, pushOk) ==>
              var a := Attempts(es, pushOk);
              && |a| > 0 && !pushOk(a[|a| - 1])
              && forall i | 0 <= i < |a| - 1 :: pushOk(a[i])
    decreases |es|
  {
    if es != [] {
      var rest := es[1..];
      AttemptsOutcome(rest, pushOk);
      assert Pushes(es) == [EntryPush(es[0])] + Pushes(rest);
      if pushOk(EntryPush(es[0])) {
        if AllOk(rest, pushOk) {
          forall i | 0 <= i < |es| ensures pushOk(EntryPush(es[i])) {
            if i > 0 {
              assert es[i] == rest[i - 1];
            }
          }
        } else {
          forall i | 0 <= i < |rest| ensures pushOk(EntryPush(rest[i])) || !AllOk(es, pushOk) {
            assert rest[i] == es[i + 1];
          }
        }
      }
    }
  }

  /** The push loop of `check_update`: one push per entry, in order, stopping at the first that raises. */
  method PushEntries(es: seq<Entry>, pushOk: PushOracle) returns (pushes: seq<Push>, ok: bool)
    ensures pushes == Attempts(es, pushOk)
    ensures ok <==> AllOk(es, pushOk)
  {
    pushes := [];
    for i := 0 to |es|
      invariant AllOk(es[..i], pushOk)
      invariant pushes == Pushes(es[..i])
    {
      var p := EntryPush(es[i]);
      assert Pushes(es[..i + 1]) == Pushes(es[..i]) + [p];
      pushes := pushes + [p];
      if !pushOk(p) {
        AttemptsSplit(es, pushOk, i);
        assert Attempts(es[i..], pushOk) == [p];
        return pushes, false;
      }
      assert es[..i + 1] == es[..i] + [es[i]];
    }
    assert es[..|es|] == es;
    AttemptsSplit(es, pushOk, |es|);
    assert es[|es|..] == [];
    return pushes, true;
  }

  // ---------------------------------------------------------------------------
  // The files

  /** `current.json`, `data.json` or `data.json.bak`: missing, a readable score document, or unreadable. */
  datatype LegacyFile = Missing | Doc(doc: PortalDoc) | Unreadable

  datatype LegacyDisk = LegacyDisk(current: LegacyFile, data: LegacyFile, bak: LegacyFile)

  /** `data.json` after writing `doc` into it. */
  function WrittenFile(doc: PortalDoc, write: WriteOutcome): LegacyFile {
    match write
    case Written => Doc(doc)
    case OpenFailed => Missing
    case DumpFailed => Unreadable
  }

  /** The handler of `check_update`: rename `data.json.bak` back onto `data.json` if it exists. */
  function Restore(disk: LegacyDisk): (after: LegacyDisk)
    ensures disk.bak != Missing ==> after == LegacyDisk(disk.current, disk.bak, Missing)
    ensures disk.bak == Missing ==> after == disk
  {
    if disk.bak != Missing then LegacyDisk(disk.current, disk.bak, Missing) else disk
  }

  /** The files and the pushes after `check_init`, and whether it raised. */
  datatype Stage = Stage(disk: LegacyDisk, pushes: seq<Push>, raised: bool)

  /** `check_init`: when `data.json` is missing, copy `current.json` into it and push the init message; an
      unreadable `current.json`, a failed write, a missing notifier or a raising push makes it raise. */
  function CheckInitResult(disk: LegacyDisk, hasNotifier: bool, initWrite: WriteOutcome, pushOk: PushOracle): Stage {
    if disk.data != Missing then Stage(disk, [], false)
    else if !disk.current.Doc? then Stage(disk, [], true)
    else
      var copied := disk.(data := WrittenFile(disk.current.doc, initWrite));
      if initWrite != Written || !hasNotifier then Stage(copied, [], true)
      else Stage(copied, [InitPush()], !pushOk(InitPush()))
  }

  /** What `check_update` returns, the files it leaves and the pushes it made. */
  datatype Checked = Checked(entries: seq<Entry>, disk: LegacyDisk, pushes: seq<Push>)

  /** `check_update`, stage by stage; every exception ends in the handler, which restores the backup and
      reports nothing. */
  function CheckUpdateResult(disk: LegacyDisk, hasNotifier: bool, initWrite: WriteOutcome, write: WriteOutcome,
                             pushOk: PushOracle): Checked
  {
    var init := CheckInitResult(disk, hasNotifier, initWrite, pushOk);
    var d1 := init.disk;
    if init.raised || !d1.current.Doc? || !d1.data.Doc? then Checked([], Restore(d1), init.pushes)
    else
      var entries := Diff(d1.data.doc, d1.current.doc);
      var d2 := LegacyDisk(d1.current, WrittenFile(d1.current.doc, write), d1.data);
      if write != Written then Checked([], Restore(d2), init.pushes)
      else if !hasNotifier then Checked(entries, d2, init.pushes)
      else if AllOk(entries, pushOk) then Checked(entries, d2, init.pushes + Attempts(entries, pushOk))
      else Checked([], Restore(d2), init.pushes + Attempts(entries, pushOk))
  }

  /** A successful check reports the records with new ids, keeps the new document as `data.json` and the
      old one as `data.json.bak`, and pushes one message per reported record. */
  lemma CheckUpdateSucceeds(disk: LegacyDisk, hasNotifier: bool, initWrite: WriteOutcome, pushOk: PushOracle,
                            oldDoc: PortalDoc, newDoc: PortalDoc)
    requires disk.data == Doc(oldDoc) && disk.current == Doc(newDoc)
    requires hasNotifier ==> AllOk(Diff(oldDoc, newDoc), pushOk)
    ensures var r := CheckUpdateResult(disk, hasNotifier, initWrite, Written, pushOk);
            && r.entries == Diff(oldDoc, newDoc)
            && r.disk == LegacyDisk(Doc(newDoc), Doc(newDoc), Doc(oldDoc))
            && r.pushes == (if hasNotifier then Pushes(Diff(oldDoc, newDoc)) else [])
  {
    AttemptsOutcome(Diff(oldDoc, newDoc), pushOk);
  }

  /** The first check copies `current.json` into `data.json` and so reports nothing; only the init message
      is pushed. */
  lemma FirstCheckReportsNothing(disk: LegacyDisk, initWrite: WriteOutcome, write: WriteOutcome,
                                 pushOk: PushOracle, doc: PortalDoc)
    requires disk.data == Missing && disk.current == Doc(doc)
    requires initWrite == Written && pushOk(InitPush())
    ensures var r := CheckUpdateResult(disk, true, initWrite, write, pushOk);
            r.entries == [] && r.pushes == [InitPush()]
    ensures write == Written ==>
              CheckUpdateResult(disk, true, initWrite, write, pushOk).disk == LegacyDisk(Doc(doc), Doc(doc), Doc(doc))
  {
    SelfDiffIsEmpty(doc);
  }

  /** Without a notifier the first check raises after copying the document; with no stale backup to restore,
      the copy stays, so the next check compares against it. */
  lemma FirstCheckWithoutNotifier(disk: LegacyDisk, write: WriteOutcome, pushOk: PushOracle, doc: PortalDoc)
    requires disk.data == Missing && disk.current == Doc(doc) && disk.bak == Missing
    ensures CheckUpdateResult(disk, false, Written, write, pushOk) == Checked([], disk.(data := Doc(doc)), [])
  {}

  /** When a push raises, the handler renames the backup over the new `data.json`: the old document is back,
      nothing is reported, and the pushes made so far are not undone. */
  lemma PushFailureRestoresOldData(disk: LegacyDisk, initWrite: WriteOutcome, pushOk: PushOracle,
                                   oldDoc: PortalDoc, newDoc: PortalDoc)
    requires disk.data == Doc(oldDoc) && disk.current == Doc(newDoc)
    requires !AllOk(Diff(oldDoc, newDoc), pushOk)
    ensures var r := CheckUpdateResult(disk, true, initWrite, Written, pushOk);
            && r.entries == []
            && r.disk == LegacyDisk(Doc(newDoc), Doc(oldDoc), Missing)
            && 0 < |r.pushes| <= |Diff(oldDoc, newDoc)|
  {
    var es := Diff(oldDoc, newDoc);
    AttemptsOutcome(es, pushOk);
  }

  /** Whatever happens, the report is either the diff of the files `check_init` left or nothing. */
  lemma ReportIsDiffOrNothing(disk: LegacyDisk, hasNotifier: bool, initWrite: WriteOutcome, write: WriteOutcome,
                              pushOk: PushOracle)
    ensures var r := CheckUpdateResult(disk, hasNotifier, initWrite, write, pushOk);
            var d1 := CheckInitResult(disk, hasNotifier, initWrite, pushOk).disk;
            r.entries == [] || (d1.data.Doc? && d1.current.Doc? && r.entries == Diff(d1.data.doc, d1.current.doc))
    ensures var r := CheckUpdateResult(disk, hasNotifier, initWrite, write, pushOk);
            r.disk.bak == Missing || r.disk.bak == disk.bak || r.disk.bak == disk.data
              || (disk.data == Missing && r.disk.bak == disk.current)
  {}

  // ---------------------------------------------------------------------------
  // Session

  /** The legacy `Session`, as far as the differ uses it: whether a notifier was given. */
  class Session {
    const hasNotifier: bool

    constructor(hasNotifier: bool)
      ensures this.hasNotifier == hasNotifier
    {
      this.hasNotifier := hasNotifier;
    }

    /** `check_init`. */
    method CheckInit(disk: LegacyDisk, initWrite: WriteOutcome, pushOk: PushOracle) returns (stage: Stage)
      ensures stage == CheckInitResult(disk, hasNotifier, initWrite, pushOk)
    {
      if disk.data != Missing {
        return Stage(disk, [], false);
      }
      if !disk.current.Doc? {
        return Stage(disk, [], true);
      }
      var copied := disk.(data := WrittenFile(disk.current.doc, initWrite));
      if initWrite != Written || !hasNotifier {
        return Stage(copied, [], true);
      }
      var ok := pushOk(InitPush());
      return Stage(copied, [InitPush()], !ok);
    }

    /** `check_update`, with the outcomes of the two writes and of the pushes given. */
    method CheckUpdate(disk: LegacyDisk, initWrite: WriteOutcome, write: WriteOutcome, pushOk: PushOracle)
      returns (entries: seq<Entry>, after: LegacyDisk, pushes: seq<Push>)
      ensures Checked(entries, after, pushes) == CheckUpdateResult(disk, hasNotifier, initWrite, write, pushOk)
    {
      var init := CheckInit(disk, initWrite, pushOk);
      after, pushes := init.disk, init.pushes;
      if init.raised || !after.current.Doc? || !after.data.Doc? {
        return [], Restore(after), pushes;
      }
      var newDoc, oldDoc := after.current.doc, after.data.doc;
      var index := BuildIndex(oldDoc);
      var found, _ := CollectNew(newDoc, index);
      // `data.json` was just read, so it exists and is renamed to the backup.
      after := LegacyDisk(after.current, Missing, after.data);
      after := after.(data := WrittenFile(newDoc, write));
      if write != Written {
        return [], Restore(after), pushes;
      }
      if hasNotifier {
        var sent, ok := PushEntries(found, pushOk);
        pushes := pushes + sent;
        if !ok {
          return [], Restore(after), pushes;
        }
      }
      entries := found;
    }
  }
}
