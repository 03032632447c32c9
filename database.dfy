/** The SQL statements over the `blocklist` table, modelled on an in-memory table (a map from the
    primary key to the row). Each statement is a method of `DB`; the functions and predicates before
    the class state what each statement does to a table, and are shared with the reconciler. */
module Database {
  import opened Wrappers
  import opened Models
  import opened Schema

  /** The constraint violations the table reports, in the order SQLite checks them:
      the CHECK constraints in declaration order, then the primary key. */
  datatype DbError = SeverityCheckFailed | SourceCheckFailed | PrimaryKeyViolation

  /** `INSERT INTO blocklist ...`: the table with `e` added, or the violated constraint. */
  function Insert(t: Table, e: Entry): (r: Result<Table, DbError>)
    ensures r.Success? <==> RowValid(e) && e.id !in t
    ensures r.Success? ==> r.value.Keys == t.Keys + {e.id} && r.value[e.id] == e
    ensures r.Success? ==> forall id :: id in t ==> r.value[id] == t[id]
    ensures r.Failure? && !ValidSeverity(e.severity) ==> r.error == SeverityCheckFailed
  {
    if !ValidSeverity(e.severity) then Failure(SeverityCheckFailed)
    else if !ValidSource(e.source) then Failure(SourceCheckFailed)
    else if e.id in t then Failure(PrimaryKeyViolation)
    else Success(t[e.id := e])
  }

  /** The row `row` after `SET reason = ?, evidence_url = ?, severity = ?, metadata = ?` with the
      values of `e`. */
  function Revised(row: Entry, e: Entry): (r: Entry)
    ensures r.id == row.id && r.username == row.username && r.timestamp == row.timestamp
    ensures r.blockedBy == row.blockedBy && r.source == row.source
    ensures r.reason == e.reason && r.evidenceUrl == e.evidenceUrl
    ensures r.severity == e.severity && r.metadata == e.metadata
  {
    row.(reason := e.reason, evidenceUrl := e.evidenceUrl, severity := e.severity, metadata := e.metadata)
  }

  /** `UPDATE blocklist SET ... WHERE id = ?`: no row matches an absent id, which is not an error;
      the updated row must still pass the severity CHECK. */
  function Update(t: Table, e: Entry): (r: Result<Table, DbError>)
    ensures r.Failure? <==> e.id in t && !ValidSeverity(e.severity)
    ensures r.Failure? ==> r.error == SeverityCheckFailed
    ensures r.Success? ==> r.value.Keys == t.Keys
    ensures r.Success? ==> forall id :: id in t && id != e.id ==> r.value[id] == t[id]
    ensures r.Success? && e.id in t ==> r.value[e.id] == Revised(t[e.id], e)
  {
    if e.id !in t then Success(t)
    else if !ValidSeverity(e.severity) then Failure(SeverityCheckFailed)
    else Success(t[e.id := Revised(t[e.id], e)])
  }

  /** The ids of the rows of user `u`. */
  function UserIds(t: Table, u: string): (ids: set<string>)
    ensures forall id :: id in ids <==> id in t && t[id].username == u
  {
    set id | id in t && t[id].username == u
  }

  /** `SELECT COUNT(*) ... WHERE username = ?` is positive. */
  predicate Blocked(t: Table, u: string) {
    exists id | id in t :: t[id].username == u
  }

  /** `DELETE FROM blocklist WHERE username = ?`. */
  function WithoutUser(t: Table, u: string): (r: Table)
    ensures r.Keys == t.Keys - UserIds(t, u)
    ensures forall id :: id in r ==> r[id] == t[id]
    ensures !Blocked(r, u)
  {
    map id | id in t && t[id].username != u :: t[id]
  }

  /** `es` lists the rows of `t` whose ids are in `ids`, each exactly once, and nothing else. */
  ghost predicate ListsExactly(t: Table, ids: set<string>, es: seq<Entry>) {
    ids <= t.Keys && OnlyRowsOf(t, ids, es) && AllRowsOf(t, ids, es) && DistinctIds(es)
  }

  /** Every listed entry is the stored row of one of `ids`. */
  ghost predicate OnlyRowsOf(t: Table, ids: set<string>, es: seq<Entry>) {
    forall i :: 0 <= i < |es| ==> es[i].id in ids && es[i].id in t && t[es[i].id] == es[i]
  }

  /** The stored row of each of `ids` is listed. */
  ghost predicate AllRowsOf(t: Table, ids: set<string>, es: seq<Entry>) {
    forall id :: id in ids && id in t ==> t[id] in es
  }

  /** No id is listed twice. */
  ghost predicate DistinctIds(es: seq<Entry>) {
    forall i, j :: 0 <= i < j < |es| ==> es[i].id != es[j].id
  }

  /** `ORDER BY timestamp DESC`. */
  ghost predicate NewestFirst(es: seq<Entry>) {
    forall i, j :: 0 <= i < j < |es| ==> es[i].timestamp >= es[j].timestamp
  }

  /** Where a row with timestamp `ts` goes in a newest-first list: after every row at least as new. */
  function InsertPos(es: seq<Entry>, ts: int): (k: nat)
    ensures k <= |es|
    ensures forall i :: 0 <= i < k ==> es[i].timestamp >= ts
    ensures k < |es| ==> es[k].timestamp < ts
  {
    if es == [] || es[0].timestamp < ts then 0 else 1 + InsertPos(es[1..], ts)
  }

  /** The positions of `es` with `x` inserted at `k`. */
  lemma InsertedAt(es: seq<Entry>, x: Entry, k: nat)
    requires k <= |es|
    ensures |es[..k] + [x] + es[k..]| == |es| + 1
    ensures forall i :: 0 <= i < k ==> (es[..k] + [x] + es[k..])[i] == es[i]
    ensures (es[..k] + [x] + es[k..])[k] == x
    ensures forall i :: k < i <= |es| ==> (es[..k] + [x] + es[k..])[i] == es[i - 1]
  {
  }

  lemma {:induction false} InsertKeepsListing(t: Table, ids: set<string>, es: seq<Entry>, id: string, k: nat)
    requires TableValid(t) && ListsExactly(t, ids, es) && id in t && id !in ids && k <= |es|
    ensures ListsExactly(t, ids + {id}, es[..k] + [t[id]] + es[k..])
  {
    InsertedAt(es, t[id], k);
    InsertKeepsOnly(t, ids, es, id, k);
    InsertKeepsAll(t, ids, es, id, k);
    InsertKeepsDistinct(t, ids, es, id, k);
  }

  /** Appending the row of a new id to a listing lists that id too. */
  lemma AppendKeepsListing(t: Table, ids: set<string>, es: seq<Entry>, id: string)
    requires TableValid(t) && ListsExactly(t, ids, es) && id in t && id !in ids
    ensures ListsExactly(t, ids + {id}, es + [t[id]])
  {
    InsertKeepsListing(t, ids, es, id, |es|);
    assert es[..|es|] + [t[id]] + es[|es|..] == es + [t[id]];
  }

  /** Taking `id` off the to-do set adds it to the user's done ids exactly when it is theirs. */
  lemma UserIdsStep(t: Table, u: string, todo: set<string>, id: string)
    requires todo <= t.Keys && id in todo
    ensures t[id].username == u ==> UserIds(t, u) - (todo - {id}) == (UserIds(t, u) - todo) + {id}
    ensures t[id].username != u ==> UserIds(t, u) - (todo - {id}) == UserIds(t, u) - todo
    ensures t[id].username == u ==> id !in UserIds(t, u) - todo
  {
  }

  /** Every entry of a listing of a user's ids belongs to that user. */
  lemma ListedUsernames(t: Table, u: string, es: seq<Entry>)
    requires OnlyRowsOf(t, UserIds(t, u), es)
    ensures forall i :: 0 <= i < |es| ==> es[i].username == u
  {
    forall i | 0 <= i < |es| ensures es[i].username == u {
      assert es[i].id in UserIds(t, u);
    }
  }

  lemma {:induction false} InsertKeepsOnly(t: Table, ids: set<string>, es: seq<Entry>, id: string, k: nat)
    requires TableValid(t) && OnlyRowsOf(t, ids, es) && id in t && k <= |es|
    ensures OnlyRowsOf(t, ids + {id}, es[..k] + [t[id]] + es[k..])
  {
    InsertedAt(es, t[id], k);
  }

  lemma {:induction false} InsertKeepsAll(t: Table, ids: set<string>, es: seq<Entry>, id: string, k: nat)
    requires AllRowsOf(t, ids, es) && id in t && k <= |es|
    ensures AllRowsOf(t, ids + {id}, es[..k] + [t[id]] + es[k..])
  {
    InsertedAt(es, t[id], k);
    var es' := es[..k] + [t[id]] + es[k..];
    forall x | x in ids + {id} && x in t
      ensures t[x] in es'
    {
      if x != id {
        var i :| 0 <= i < |es| && es[i] == t[x];
        assert es'[if i < k then i else i + 1] == t[x];
      }
    }
  }

  lemma {:induction false} InsertKeepsDistinct(t: Table, ids: set<string>, es: seq<Entry>, id: string, k: nat)
    requires TableValid(t) && OnlyRowsOf(t, ids, es) && DistinctIds(es) && id in t && id !in ids && k <= |es|
    ensures DistinctIds(es[..k] + [t[id]] + es[k..])
  {
    InsertedAt(es, t[id], k);
    var es' := es[..k] + [t[id]] + es[k..];
    forall i, j | 0 <= i < j < |es'|
      ensures es'[i].id != es'[j].id
    {
      if i == k {
        assert es'[j] == es[j - 1];
      } else if j == k {
        assert es'[i] == es[i];
      } else {
        var i0 := if i < k then i else i - 1;
        var j0 := if j < k then j else j - 1;
        assert es'[i] == es[i0] && es'[j] == es[j0] && i0 < j0;
      }
    }
  }

  lemma {:induction false} InsertKeepsNewestFirst(es: seq<Entry>, x: Entry, k: nat)
    requires NewestFirst(es) && k <= |es|
    requires forall i :: 0 <= i < k ==> es[i].timestamp >= x.timestamp
    requires k < |es| ==> es[k].timestamp < x.timestamp
    ensures NewestFirst(es[..k] + [x] + es[k..])
  {
    var es' := es[..k] + [x] + es[k..];
    assert forall i :: 0 <= i < |es'| ==> es'[i] == (if i < k then es[i] else if i == k then x else es[i - 1]);
  }

  /** The database handle: the `blocklist` table and the statements over it. */
  class DB {
    var rows: Table

    predicate Valid()
      reads this
    {
      TableValid(rows)
    }

    /** A freshly created schema: the table exists and is empty. */
    constructor ()
      ensures Valid() && rows == map[]
    {
      rows := map[];
    }

    /** `AddEntry`: inserts `e`, or reports the violated constraint and changes nothing. */
    method AddEntry(e: Entry) returns (r: Outcome<DbError>)
      requires Valid()
      modifies this
      ensures Valid()
      ensures Insert(old(rows), e).Success? ==> r == Pass && rows == Insert(old(rows), e).value
      ensures Insert(old(rows), e).Failure? ==> r == Fail(Insert(old(rows), e).error) && rows == old(rows)
    {
      match Insert(rows, e)
      case Success(t) => rows := t; r := Pass;
      case Failure(err) => r := Fail(err);
    }

    /** `GetEntry`: the row with this id, or None (not an error) when there is none. */
    method GetEntry(id: string) returns (r: Option<Entry>)
      requires Valid()
      ensures r.None? <==> id !in rows
      ensures r.Some? ==> r.value == rows[id] && r.value.id == id && RowValid(r.value)
    {
      if id in rows {
        r := Some(rows[id]);
      } else {
        r := None;
      }
    }

    /** `IsBlocked`: counts the rows of `u`, row by row, and says whether there is one. */
    method IsBlocked(u: string) returns (b: bool)
      ensures b <==> Blocked(rows, u)
    {
      var count := 0;
      var todo := rows.Keys;
      while todo != {}
        invariant todo <= rows.Keys
        invariant count > 0 <==> exists id | id in rows.Keys - todo :: rows[id].username == u
        decreases |todo|
      {
        var id :| id in todo;
        if rows[id].username == u {
          count := count + 1;
        }
        todo := todo - {id};
      }
      b := count > 0;
    }

    /** `GetEntriesByUsername`: every row of `u` exactly once, in no particular order. */
    method GetEntriesByUsername(u: string) returns (es: seq<Entry>)
      requires Valid()
      ensures ListsExactly(rows, UserIds(rows, u), es)
      ensures forall i :: 0 <= i < |es| ==> es[i].username == u
    {
      es := [];
      var todo := rows.Keys;
      while todo != {}
        invariant todo <= rows.Keys
        invariant ListsExactly(rows, UserIds(rows, u) - todo, es)
        decreases |todo|
      {
        var id :| id in todo;
        UserIdsStep(rows, u, todo, id);
        if rows[id].username == u {
          AppendKeepsListing(rows, UserIds(rows, u) - todo, es, id);
          es := es + [rows[id]];
        }
        todo := todo - {id};
      }
      ListedUsernames(rows, u, es);
    }

    /** `ListEntries`: every row exactly once, newest first. */
    method ListEntries() returns (es: seq<Entry>)
      requires Valid()
      ensures ListsExactly(rows, rows.Keys, es)
      ensures NewestFirst(es)
    {
      es := [];
      var todo := rows.Keys;
      while todo != {}
        invariant todo <= rows.Keys
        invariant ListsExactly(rows, rows.Keys - todo, es)
        invariant NewestFirst(es)
        decreases |todo|
      {
        var id :| id in todo;
        var k := InsertPos(es, rows[id].timestamp);
        InsertKeepsListing(rows, rows.Keys - todo, es, id, k);
        InsertKeepsNewestFirst(es, rows[id], k);
        es := es[..k] + [rows[id]] + es[k..];
        todo := todo - {id};
      }
    }

    /** `RemoveEntry`: deletes the row with this id, if any; nothing else changes. */
    method RemoveEntry(id: string)
      requires Valid()
      modifies this
      ensures Valid()
      ensures rows.Keys == old(rows).Keys - {id}
      ensures forall k :: k in rows ==> rows[k] == old(rows)[k]
    {
      rows := rows - {id};
    }

    /** `RemoveByUsername`: deletes exactly the rows of `u`. */
    method RemoveByUsername(u: string)
      requires Valid()
      modifies this
      ensures Valid()
      ensures rows == WithoutUser(old(rows), u)
    {
      rows := WithoutUser(rows, u);
    }

    /** `UpdateEntry`: rewrites reason, evidence_url, severity and metadata of the row with `e`'s id. */
    method UpdateEntry(e: Entry) returns (r: Outcome<DbError>)
      requires Valid()
      modifies this
      ensures Valid()
      ensures Update(old(rows), e).Success? ==> r == Pass && rows == Update(old(rows), e).value
      ensures Update(old(rows), e).Failure? ==> r == Fail(Update(old(rows), e).error) && rows == old(rows)
    {
      match Update(rows, e)
      case Success(t) => rows := t; r := Pass;
      case Failure(err) => r := Fail(err);
    }
  }
}
