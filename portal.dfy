/** The score document the portal returns (`retrScores.do`), as far as the watcher reads it. */
module Portal {
  import opened Wrappers

  /** One score record: field name (`bkcjbh`, `kcmc`, `xqcj`, `jd`, `xf`, `kctx`) to text. */
  type RawRecord = map<string, string>

  /** One entry of `cjxx`: the term name `xq`, if present, and the term's `list` of records. */
  datatype TermData = TermData(xq: Option<string>, records: seq<RawRecord>)

  /** The `cjxx` list; a response without `cjxx` is the empty list. */
  type PortalDoc = seq<TermData>

  /** `record.get(key, default)`. */
  function Field(r: RawRecord, key: string, default: string): string {
    if key in r then r[key] else default
  }

  /** `record.get("bkcjbh")` is truthy: present and not empty. */
  predicate HasId(r: RawRecord) {
    "bkcjbh" in r && r["bkcjbh"] != ""
  }

  /** All records of the document, term by term, in the portal's order. */
  function Records(doc: PortalDoc): seq<RawRecord> {
    if doc == [] then [] else Records(doc[..|doc| - 1]) + doc[|doc| - 1].records
  }

  /** The records of the first `t + 1` terms are those of the first `t` followed by term `t`'s. */
  lemma RecordsStep(doc: PortalDoc, t: nat)
    requires t < |doc|
    ensures Records(doc[..t + 1]) == Records(doc[..t]) + doc[t].records
  {
    assert doc[..t + 1][..t] == doc[..t];
  }
}
