/** The blocklist manager: blocking and unblocking users, merging an imported batch into the table
    by id and severity, and the record lists that export writes. */
module Blocklist {
  import opened Wrappers
  import opened Models
  import opened Schema
  import opened Database

  /** The rank `shouldUpdate` gives a severity; any string outside the enumeration ranks 0. */
  function SeverityRank(s: string): (r: nat)
    ensures r <= 3
    ensures r == 0 <==> !ValidSeverity(s)
    ensures s == SeverityLow ==> r == 1
    ensures s == SeverityMedium ==> r == 2
    ensures s == SeverityHigh ==> r == 3
  {
    if s == SeverityLow then 1
    else if s == SeverityMedium then 2
    else if s == SeverityHigh then 3
    else 0
  }

  /** `shouldUpdate`: the incoming entry is strictly more severe than the stored one. */
  predicate ShouldUpdate(existing: Entry, incoming: Entry) {
    SeverityRank(incoming.severity) > SeverityRank(existing.severity)
  }

  /** An update that `ShouldUpdate` allows over a stored row always passes the severity CHECK, and
      the ranks order the three severities strictly. */
  lemma ShouldUpdateImpliesValid(existing: Entry, incoming: Entry)
    requires RowValid(existing) && ShouldUpdate(existing, incoming)
    ensures ValidSeverity(incoming.severity)
    ensures existing.severity != SeverityHigh
  {
  }

  /** The errors `importEntries` returns, each wrapping the store's error. */
  datatype ImportError = AddFailed(cause: DbError) | UpdateFailed(cause: DbError)

  /** The table, the number of entries added or updated so far, and the error that stopped the
      import, if any. */
  datatype ImportState = ImportState(rows: Table, imported: nat, err: Option<ImportError>)

  /** What `importEntries` does with one entry of the batch. */
  function ImportOne(st: ImportState, e: Entry): (r: ImportState)
    requires st.err.None?
    // absent id: inserted with its source forced to `imported`, and counted
    ensures e.id !in st.rows && ValidSeverity(e.severity) ==>
              r == ImportState(st.rows[e.id := e.(source := SourceImported)], st.imported + 1, None)
    ensures e.id !in st.rows && !ValidSeverity(e.severity) ==>
              r == ImportState(st.rows, st.imported, Some(AddFailed(SeverityCheckFailed)))
    // present id, not more severe: nothing changes and nothing is counted
    ensures e.id in st.rows && !ShouldUpdate(st.rows[e.id], e) ==> r == st
    // present id, strictly more severe: the four updatable columns are rewritten, and it is counted
    ensures e.id in st.rows && ShouldUpdate(st.rows[e.id], e) && TableValid(st.rows) ==>
              r == ImportState(st.rows[e.id := Revised(st.rows[e.id], e)], st.imported + 1, None)
  {
    if e.id in st.rows then
      if ShouldUpdate(st.rows[e.id], e) then
        match Update(st.rows, e)
        case Success(t) => ImportState(t, st.imported + 1, None)
        case Failure(err) => ImportState(st.rows, st.imported, Some(UpdateFailed(err)))
      else st
    else
      match Insert(st.rows, e.(source := SourceImported))
      case Success(t) => ImportState(t, st.imported + 1, None)
      case Failure(err) => ImportState(st.rows, st.imported, Some(AddFailed(err)))
  }

  /** `importEntries` from state `st` over the rest of the batch: it stops at the first error. */
  function ImportFrom(st: ImportState, es: seq<Entry>): ImportState
    decreases |es|
  {
    if st.err.Some? || es == [] then st else ImportFrom(ImportOne(st, es[0]), es[1..])
  }

  /** `importEntries(es)` on table `t`. */
  function Import(t: Table, es: seq<Entry>): ImportState {
    ImportFrom(ImportState(t, 0, None), es)
  }

  /** The count grows by at most one per entry. */
  lemma {:induction false} ImportFromCount(st: ImportState, es: seq<Entry>)
    ensures st.imported <= ImportFrom(st, es).imported <= st.imported + |es|
    decreases |es|
  {
    if st.err.None? && es != [] {
      ImportFromCount(ImportOne(st, es[0]), es[1..]);
    }
  }

  /** The returned count is at most the batch length. */
  lemma ImportCountBound(t: Table, es: seq<Entry>)
    ensures Import(t, es).imported <= |es|
  {
    ImportFromCount(ImportState(t, 0, None), es);
  }

  /** Importing keeps the table valid. */
  lemma {:induction false} ImportFromValid(st: ImportState, es: seq<Entry>)
    requires TableValid(st.rows)
    ensures TableValid(ImportFrom(st, es).rows)
    decreases |es|
  {
    if st.err.None? && es != [] {
      ImportFromValid(ImportOne(st, es[0]), es[1..]);
    }
  }

  /** Every id of `t` is still in `t'`, at a rank at least as high. */
  ghost predicate Dominates(t': Table, t: Table) {
    forall id :: id in t ==> id in t' && SeverityRank(t'[id].severity) >= SeverityRank(t[id].severity)
  }

  /** Every entry of `es` has a stored row with its id at a rank at least as high. */
  ghost predicate Covers(t: Table, es: seq<Entry>) {
    forall i :: 0 <= i < |es| ==> es[i].id in t && SeverityRank(t[es[i].id].severity) >= SeverityRank(es[i].severity)
  }

  /** Import never removes a row and never lowers a severity. */
  lemma {:induction false} ImportFromDominates(st: ImportState, es: seq<Entry>)
    requires TableValid(st.rows)
    ensures Dominates(ImportFrom(st, es).rows, st.rows)
    decreases |es|
  {
    if st.err.None? && es != [] {
      var st1 := ImportOne(st, es[0]);
      ImportFromValid(st1, []);
      ImportFromDominates(st1, es[1..]);
    }
  }

  /** After an import that succeeded, every entry of the batch is stored at a rank at least its own. */
  lemma {:induction false} ImportFromCovers(st: ImportState, es: seq<Entry>)
    requires TableValid(st.rows) && st.err.None? && ImportFrom(st, es).err.None?
    ensures Covers(ImportFrom(st, es).rows, es)
    decreases |es|
  {
    if es != [] {
      var st1 := ImportOne(st, es[0]);
      assert st1.err.None?;
      assert TableValid(st1.rows);
      var fin := ImportFrom(st1, es[1..]);
      ImportFromCovers(st1, es[1..]);
      ImportFromDominates(st1, es[1..]);
      assert es[0].id in st1.rows && SeverityRank(st1.rows[es[0].id].severity) >= SeverityRank(es[0].severity);
      forall i | 0 <= i < |es|
        ensures es[i].id in fin.rows && SeverityRank(fin.rows[es[i].id].severity) >= SeverityRank(es[i].severity)
      {
        if i > 0 {
          assert es[i] == es[1..][i - 1];
        }
      }
    }
  }

  /** A batch that the table already covers changes nothing and counts nothing. */
  lemma {:induction false} CoveredImportIsNoop(st: ImportState, es: seq<Entry>)
    requires st.err.None? && Covers(st.rows, es)
    ensures ImportFrom(st, es) == st
    decreases |es|
  {
    if es != [] {
      assert ImportOne(st, es[0]) == st;
      assert Covers(st.rows, es[1..]) by {
        forall i | 0 <= i < |es| - 1 ensures es[1..][i] == es[i + 1] { }
      }
      CoveredImportIsNoop(st, es[1..]);
    }
  }

  /** Running the same batch again over the table an import left behind changes nothing, counts
      nothing, and stops with the same error as the first run, if it stopped. */
  lemma {:induction false} ReimportFrom(st: ImportState, es: seq<Entry>, n: nat)
    requires TableValid(st.rows) && st.err.None?
    ensures var fin := ImportFrom(st, es);
            ImportFrom(ImportState(fin.rows, n, None), es) == ImportState(fin.rows, n, fin.err)
    decreases |es|
  {
    if es != [] {
      var e := es[0];
      var st1 := ImportOne(st, e);
      if st1.err.None? {
        var fin := ImportFrom(st1, es[1..]);
        assert e.id in st1.rows && SeverityRank(st1.rows[e.id].severity) >= SeverityRank(e.severity);
        ImportFromValid(st1, []);
        ImportFromDominates(st1, es[1..]);
        assert ImportOne(ImportState(fin.rows, n, None), e) == ImportState(fin.rows, n, None);
        ReimportFrom(st1, es[1..], n);
      } else {
        assert st1.rows == st.rows && e.id !in st.rows && !ValidSeverity(e.severity);
      }
    }
  }

  /** Re-importing a batch changes nothing and returns 0: after an import without error it
      succeeds, and after a failed import it fails again with the same error. */
  lemma ReimportIsNoop(t: Table, es: seq<Entry>)
    requires TableValid(t)
    ensures Import(Import(t, es).rows, es) == ImportState(Import(t, es).rows, 0, Import(t, es).err)
    ensures Import(t, es).err.None? ==> Import(Import(t, es).rows, es) == ImportState(Import(t, es).rows, 0, None)
  {
    ReimportFrom(ImportState(t, 0, None), es, 0);
  }

  /** The ids of the entries of `es`. */
  function IdSet(es: seq<Entry>): set<string> {
    set i | 0 <= i < |es| :: es[i].id
  }

  /** The ids of a non-empty batch are its first id and the ids of the rest. */
  lemma IdSetCons(es: seq<Entry>)
    requires es != []
    ensures IdSet(es) == IdSet(es[1..]) + {es[0].id}
  {
    forall x | x in IdSet(es) ensures x in IdSet(es[1..]) + {es[0].id} {
      var i :| 0 <= i < |es| && es[i].id == x;
      if i > 0 { assert es[1..][i - 1].id == x; }
    }
    forall x | x in IdSet(es[1..]) ensures x in IdSet(es) {
      var i :| 0 <= i < |es[1..]| && es[1..][i].id == x;
      assert es[i + 1].id == x;
    }
  }

  /** The rows an import into an empty table creates from a batch with distinct ids. */
  function AsImported(es: seq<Entry>): (t: Table)
    requires DistinctIds(es)
    ensures t.Keys == IdSet(es)
    ensures forall i :: 0 <= i < |es| ==> t[es[i].id] == es[i].(source := SourceImported)
  {
    if es == [] then map[]
    else
      var rest := AsImported(es[1..]);
      assert forall i :: 0 <= i < |es| - 1 ==> es[1..][i] == es[i + 1];
      IdSetCons(es);
      rest[es[0].id := es[0].(source := SourceImported)]
  }

  /** Every row of `t`, with its source set to `imported`. */
  function ImportedCopy(t: Table): (c: Table)
    ensures c.Keys == t.Keys
    ensures forall id | id in t :: c[id] == t[id].(source := SourceImported)
  {
    map id | id in t :: t[id].(source := SourceImported)
  }

  /** Overriding a key before or after a merge is the same when the other map lacks that key. */
  lemma OverrideCommutesWithMerge(a: Table, b: Table, k: string, v: Entry)
    requires k !in b
    ensures a[k := v] + b == a + b[k := v]
  {
  }

  /** Entries with distinct ids, none of them in `rows`, each with a valid severity. */
  ghost predicate FreshBatch(rows: Table, es: seq<Entry>) {
    DistinctIds(es) && forall i :: 0 <= i < |es| ==> es[i].id !in rows && ValidSeverity(es[i].severity)
  }

  /** A batch of fresh, valid entries with distinct ids is inserted whole. */
  lemma {:induction false} FreshImport(st: ImportState, es: seq<Entry>)
    requires st.err.None? && FreshBatch(st.rows, es)
    ensures ImportFrom(st, es) == ImportState(st.rows + AsImported(es), st.imported + |es|, None)
    decreases |es|
  {
    if es == [] {
      assert st.rows + AsImported(es) == st.rows;
    } else {
      var c := es[0].(source := SourceImported);
      var st1 := ImportOne(st, es[0]);
      assert st1 == ImportState(st.rows[es[0].id := c], st.imported + 1, None);
      var rest := es[1..];
      assert forall i :: 0 <= i < |rest| ==> rest[i] == es[i + 1];
      assert DistinctIds(rest);
      assert es[0].id !in IdSet(rest);
      FreshImport(st1, rest);
      OverrideCommutesWithMerge(st.rows, AsImported(rest), es[0].id, c);
    }
  }

  /** Exporting the whole table and importing the listing into an empty table gives back the same
      rows, with the source of each forced to `imported`. */
  lemma ExportImportRoundTrip(t: Table, es: seq<Entry>)
    requires TableValid(t) && ListsExactly(t, t.Keys, es)
    ensures Import(map[], es) == ImportState(ImportedCopy(t), |es|, None)
  {
    ListingImport(t, es);
    ListingAsImported(t, es);
  }

  /** Importing a listing of a valid table into an empty table inserts every entry. */
  lemma ListingImport(t: Table, es: seq<Entry>)
    requires TableValid(t) && ListsExactly(t, t.Keys, es)
    ensures Import(map[], es) == ImportState(AsImported(es), |es|, None)
  {
    var empty: Table := map[];
    ListingIsFresh(t, es, empty);
    FreshImport(ImportState(empty, 0, None), es);
    MergeIntoEmpty(AsImported(es));
  }

  lemma MergeIntoEmpty(m: Table)
    ensures map[] + m == m
  {
  }

  /** A listing of a valid table is a fresh batch for an empty table. */
  lemma ListingIsFresh(t: Table, es: seq<Entry>, empty: Table)
    requires TableValid(t) && ListsExactly(t, t.Keys, es) && empty == map[]
    ensures FreshBatch(empty, es)
  {
    forall i | 0 <= i < |es| ensures ValidSeverity(es[i].severity) {
      assert t[es[i].id] == es[i];
    }
  }

  /** Importing a listing of `t` recreates every row of `t` with source `imported`. */
  lemma ListingAsImported(t: Table, es: seq<Entry>)
    requires TableValid(t) && ListsExactly(t, t.Keys, es)
    ensures AsImported(es) == ImportedCopy(t)
  {
    var back := AsImported(es);
    var want := ImportedCopy(t);
    forall id | id in t ensures id in back {
      var i :| 0 <= i < |es| && es[i] == t[id];
      assert es[i].id in IdSet(es);
    }
    forall id | id in back ensures id in t && back[id] == want[id] {
      var i :| 0 <= i < |es| && es[i].id == id;
    }
    assert back.Keys == want.Keys;
  }

  /** The CSV header export writes. */
  const CsvHeader: seq<string> := ["ID", "Username", "Reason", "EvidenceURL", "Timestamp", "BlockedBy", "Severity", "Source"]

  /** The CSV record of one entry, fields in header order; `formatTime` renders a timestamp as
      RFC 3339. Metadata is not exported. */
  function CsvRecord(e: Entry, formatTime: int -> string): (r: seq<string>)
    ensures |r| == |CsvHeader|
  {
    [e.id, e.username, e.reason, e.evidenceUrl, formatTime(e.timestamp), e.blockedBy, e.severity, e.source]
  }

  /** The CSV records of a listing, in order. */
  function CsvRecords(es: seq<Entry>, formatTime: int -> string): (rs: seq<seq<string>>)
    ensures |rs| == |es|
    ensures forall i | 0 <= i < |es| :: rs[i] == CsvRecord(es[i], formatTime)
  {
    seq(|es|, i requires 0 <= i < |es| => CsvRecord(es[i], formatTime))
  }

  /** `body` holds one CSV record per row of `t`, each the row's own fields, with distinct ids and
      timestamps that do not increase. */
  ghost predicate CsvRows(t: Table, body: seq<seq<string>>, formatTime: int -> string) {
    && (forall k | 0 <= k < |body| ::
          |body[k]| == |CsvHeader| && body[k][0] in t && body[k] == CsvRecord(t[body[k][0]], formatTime))
    && (forall id | id in t :: exists k | 0 <= k < |body| :: body[k][0] == id)
    && (forall j, k | 0 <= j < k < |body| ::
          body[j][0] != body[k][0] && t[body[j][0]].timestamp >= t[body[k][0]].timestamp)
  }

  /** The records of a newest-first listing of the whole table are such a body. */
  lemma CsvOfListing(t: Table, es: seq<Entry>, formatTime: int -> string)
    requires TableValid(t) && ListsExactly(t, t.Keys, es) && NewestFirst(es)
    ensures CsvRows(t, CsvRecords(es, formatTime), formatTime)
  {
    var body := CsvRecords(es, formatTime);
    CsvRecordIds(es, formatTime);
    CsvCoversTable(t, es, formatTime);
  }

  /** The first field of each record is its entry's id. */
  lemma CsvRecordIds(es: seq<Entry>, formatTime: int -> string)
    ensures forall k | 0 <= k < |es| :: CsvRecords(es, formatTime)[k][0] == es[k].id
  {
  }

  /** Each row of the table has a record. */
  lemma CsvCoversTable(t: Table, es: seq<Entry>, formatTime: int -> string)
    requires TableValid(t) && AllRowsOf(t, t.Keys, es)
    ensures forall id | id in t :: exists k | 0 <= k < |es| :: CsvRecords(es, formatTime)[k][0] == id
  {
    forall id | id in t ensures exists k | 0 <= k < |es| :: CsvRecords(es, formatTime)[k][0] == id {
      var j :| 0 <= j < |es| && es[j] == t[id];
      CsvRecordIds(es, formatTime);
      assert CsvRecords(es, formatTime)[j][0] == id;
    }
  }

  /** The blocklist manager over one database handle. */
  class Manager {
    const db: DB

    constructor (db: DB)
      ensures this.db == db
    {
      this.db := db;
    }

    predicate Valid()
      reads this, db
    {
      db.Valid()
    }

    /** `Block`: creates an entry with a fresh id and the current time and adds it. */
    method Block(id: string, now: int, username: string, reason: string, evidenceUrl: string,
                 blockedBy: string, severity: string, source: string) returns (r: Result<Entry, DbError>)
      requires Valid()
      modifies db
      ensures Valid()
      ensures r.Success? <==> ValidSeverity(severity) && ValidSource(source) && id !in old(db.rows)
      ensures r.Success? ==> && r.value == NewBlocklistEntry(id, now, username, reason, evidenceUrl, blockedBy, severity, source)
                             && db.rows == old(db.rows)[id := r.value]
                             && Blocked(db.rows, username)
      ensures r.Failure? ==> db.rows == old(db.rows)
    {
      var entry := NewBlocklistEntry(id, now, username, reason, evidenceUrl, blockedBy, severity, source);
      var added := db.AddEntry(entry);
      if added.Fail? {
        return Failure(added.error);
      }
      assert db.rows[id].username == username;
      r := Success(entry);
    }

    /** `Unblock`: removes every entry of the user, and only those. */
    method Unblock(username: string)
      requires Valid()
      modifies db
      ensures Valid()
      ensures db.rows == WithoutUser(old(db.rows), username)
      ensures !Blocked(db.rows, username)
    {
      db.RemoveByUsername(username);
    }

    /** `IsBlocked`: some entry has this username. */
    method IsBlocked(username: string) returns (b: bool)
      requires Valid()
      ensures b <==> Blocked(db.rows, username)
    {
      b := db.IsBlocked(username);
    }

    /** `List`: every entry, newest first. */
    method List() returns (es: seq<Entry>)
      requires Valid()
      ensures ListsExactly(db.rows, db.rows.Keys, es) && NewestFirst(es)
    {
      es := db.ListEntries();
    }

    /** `GetByUsername`: every entry of the user. */
    method GetByUsername(username: string) returns (es: seq<Entry>)
      requires Valid()
      ensures ListsExactly(db.rows, UserIds(db.rows, username), es)
    {
      es := db.GetEntriesByUsername(username);
    }

    /** `importEntries`: merges the batch by id, entry by entry, and stops at the first store error,
        returning the count so far with it. */
    method ImportEntries(entries: seq<Entry>) returns (imported: nat, err: Option<ImportError>)
      requires Valid()
      modifies db
      ensures Valid()
      ensures Import(old(db.rows), entries) == ImportState(db.rows, imported, err)
    {
      imported, err := 0, None;
      var i := 0;
      while i < |entries|
        invariant 0 <= i <= |entries|
        invariant Valid()
        invariant ImportFrom(ImportState(db.rows, imported, None), entries[i..]) == Import(old(db.rows), entries)
      {
        ghost var st := ImportState(db.rows, imported, None);
        assert entries[i..][0] == entries[i] && entries[i..][1..] == entries[i + 1..];
        var entry := entries[i];
        var existing := db.GetEntry(entry.id);
        if existing.Some? {
          if ShouldUpdate(existing.value, entry) {
            // a stored row is valid, so an update this allows passes the severity CHECK
            var updated := db.UpdateEntry(entry);
            if updated.Fail? {
              assert false;
            }
            imported := imported + 1;
          }
        } else {
          var added := db.AddEntry(entry.(source := SourceImported));
          if added.Fail? {
            err := Some(AddFailed(added.error));
            return;
          }
          imported := imported + 1;
        }
        assert ImportOne(st, entry) == ImportState(db.rows, imported, None);
        i := i + 1;
      }
      assert entries[i..] == [];
    }

    /** The entries `ExportJSON` hands to the JSON encoder: the listing `List` returns. */
    method ExportJSON() returns (es: seq<Entry>)
      requires Valid()
      ensures ListsExactly(db.rows, db.rows.Keys, es) && NewestFirst(es)
    {
      es := List();
    }

    /** The records `ExportCSV` writes: the header, then one record per entry in listing order. */
    method ExportCSV(formatTime: int -> string) returns (records: seq<seq<string>>)
      requires Valid()
      ensures |records| >= 1 && records[0] == CsvHeader
      ensures CsvRows(db.rows, records[1..], formatTime)
    {
      var es := db.ListEntries();
      records := [CsvHeader];
      var i := 0;
      while i < |es|
        invariant 0 <= i <= |es|
        invariant records == [CsvHeader] + CsvRecords(es[..i], formatTime)
      {
        records := records + [CsvRecord(es[i], formatTime)];
        i := i + 1;
      }
      assert es[..i] == es;
      assert records[1..] == CsvRecords(es, formatTime);
      CsvOfListing(db.rows, es, formatTime);
    }
  }
}
