/**
 * Tasks as the store keeps them and as the service sends them: the row the
 * `SELECT id, title, completed, created_at` query returns, the dictionary the
 * service builds from it, and the order `ORDER BY created_at DESC` lists
 * the rows in.
 */
module Tasks {
  import opened Wrappers
  import opened Timestamps

  /** One row of the `tasks` table. */
  datatype Row = Row(id: int, title: string, completed: bool, createdAt: Option<Timestamp>)

  /** The dictionary sent to clients and cached: `created_at` is ISO text or null. */
  datatype TaskJson = TaskJson(id: int, title: string, completed: bool, createdAt: Option<string>)

  /** Every row of the table sits under its own id. */
  predicate KeyedById(store: map<int, Row>)
  {
    forall k :: k in store ==> store[k].id == k
  }

  /** The table keyed by id, every stamp a valid timestamp. */
  predicate WellFormed(store: map<int, Row>)
  {
    KeyedById(store) && forall k :: k in store ==> ValidStamp(store[k].createdAt)
  }

  predicate ValidRows(rows: seq<Row>)
  {
    forall i :: 0 <= i < |rows| ==> ValidStamp(rows[i].createdAt)
  }

  // ---------------------------------------------------------------------
  // Row to dictionary and back

  /** One step of the row-to-dict comprehension: the stamp becomes ISO text, null stays null. */
  function ToJson(r: Row): (j: TaskJson)
    requires ValidStamp(r.createdAt)
  {
    TaskJson(r.id, r.title, r.completed,
      if r.createdAt.Some? then Some(IsoFormat(r.createdAt.value)) else None)
  }

  /** Reads a dictionary back into a row; `None` when `created_at` is not ISO text. */
  function FromJson(j: TaskJson): (r: Option<Row>)
    ensures r.Some? ==> ValidStamp(r.value.createdAt)
  {
    match j.createdAt
    case None => Some(Row(j.id, j.title, j.completed, None))
    case Some(text) =>
      match ParseIso(text)
      case None => None
      case Some(t) => Some(Row(j.id, j.title, j.completed, Some(t)))
  }

  /** A row survives conversion to a dictionary and back, field by field, null stamp included. */
  lemma RowRoundTrip(r: Row)
    requires ValidStamp(r.createdAt)
    ensures FromJson(ToJson(r)) == Some(r)
  {
    if r.createdAt.Some? {
      IsoRoundTrip(r.createdAt.value);
    }
  }

  /** The whole comprehension: one dictionary per row, in the rows' order. */
  function Serialize(rows: seq<Row>): (js: seq<TaskJson>)
    requires ValidRows(rows)
    ensures |js| == |rows|
    ensures forall i :: 0 <= i < |rows| ==> js[i] == ToJson(rows[i])
  {
    if rows == [] then [] else [ToJson(rows[0])] + Serialize(rows[1..])
  }

  /** Reads a cached snapshot back into rows; `None` if any dictionary does not read back. */
  function Deserialize(js: seq<TaskJson>): (rows: Option<seq<Row>>)
    ensures rows.Some? ==> |rows.value| == |js| && ValidRows(rows.value)
  {
    if js == [] then Some([])
    else match (FromJson(js[0]), Deserialize(js[1..]))
      case (Some(r), Some(rest)) => Some([r] + rest)
      case _ => None
  }

  /** A snapshot deserializes to exactly the rows it was made from. */
  lemma {:induction false} SnapshotRoundTrip(rows: seq<Row>)
    requires ValidRows(rows)
    ensures Deserialize(Serialize(rows)) == Some(rows)
  {
    if rows != [] {
      RowRoundTrip(rows[0]);
      SnapshotRoundTrip(rows[1..]);
      assert Serialize(rows)[1..] == Serialize(rows[1..]);
      assert [rows[0]] + rows[1..] == rows;
    }
  }

  // ---------------------------------------------------------------------
  // Listing the store

  /** Later stamps first, null stamps before all (`ORDER BY created_at DESC`). */
  predicate OrderedDesc(rows: seq<Row>)
  {
    forall i, j :: 0 <= i < j < |rows| ==> ListedBefore(rows[i].createdAt, rows[j].createdAt)
  }

  predicate DistinctIds(rows: seq<Row>)
  {
    forall i, j :: 0 <= i < j < |rows| ==> rows[i].id != rows[j].id
  }

  /**
   * `rows` is an answer the store may give to the listing query: every row
   * of the table exactly once and nothing else, in descending `created_at`
   * order.  Rows with equal stamps may come in any order.
   */
  ghost predicate IsListing(store: map<int, Row>, rows: seq<Row>)
  {
    && OrderedDesc(rows)
    && DistinctIds(rows)
    && (forall x :: x in rows <==> x.id in store && store[x.id] == x)
  }

  /** `js` is exactly the serialization of a listing of `store`, the one it reads back into. */
  ghost predicate ListedFrom(store: map<int, Row>, js: seq<TaskJson>)
  {
    var rows := Deserialize(js);
    rows.Some? && IsListing(store, rows.value) && js == Serialize(rows.value)
  }

  /** Serializing any listing of the store gives a snapshot listed from the store. */
  lemma SerializedListing(store: map<int, Row>, rows: seq<Row>)
    requires IsListing(store, rows) && ValidRows(rows)
    ensures ListedFrom(store, Serialize(rows))
  {
    SnapshotRoundTrip(rows);
  }

  /** A listing holds one row per task of the table. */
  lemma {:induction false} ListingSize(store: map<int, Row>, rows: seq<Row>)
    requires KeyedById(store) && IsListing(store, rows)
    ensures |rows| == |store|
  {
    if rows == [] {
      MemberOrEmpty(store.Keys);
      assert store.Keys == {};
    } else {
      var h, t := rows[0], rows[1..];
      var rest := store - {h.id};
      assert h in rows;
      forall x ensures x in t <==> x.id in rest && rest[x.id] == x {
        if x in t {
          var j :| 0 <= j < |t| && t[j] == x;
          assert rows[j + 1] == x;
        }
        if x in rows && x != h {
          var j :| 0 <= j < |rows| && rows[j] == x;
          assert j != 0;
          assert t[j - 1] == x;
        }
      }
      assert IsListing(rest, t);
      ListingSize(rest, t);
      assert rest.Keys == store.Keys - {h.id};
    }
  }

  /** An empty table has only the empty listing. */
  lemma ListingOfEmpty(rows: seq<Row>)
    requires IsListing(map[], rows)
    ensures rows == []
  {
    ListingSize(map[], rows);
  }

  /** A table of one row has only the listing made of that row. */
  lemma ListingOfOne(r: Row, rows: seq<Row>)
    requires IsListing(map[r.id := r], rows)
    ensures rows == [r]
  {
    ListingSize(map[r.id := r], rows);
    assert rows[0] in rows;
  }

  /** A row that may precede every row of an ordered list can head it. */
  lemma OrderedCons(h: Row, rows: seq<Row>)
    requires OrderedDesc(rows)
    requires forall x :: x in rows ==> ListedBefore(h.createdAt, x.createdAt)
    ensures OrderedDesc([h] + rows)
  {
    var s := [h] + rows;
    forall i, j | 0 <= i < j < |s| ensures ListedBefore(s[i].createdAt, s[j].createdAt) {
      assert s[j] == rows[j - 1];
      if i > 0 { assert s[i] == rows[i - 1]; }
    }
  }

  /** A row whose id no row of the list has can head it. */
  lemma DistinctCons(h: Row, rows: seq<Row>)
    requires DistinctIds(rows)
    requires forall x :: x in rows ==> x.id != h.id
    ensures DistinctIds([h] + rows)
  {
    var s := [h] + rows;
    forall i, j | 0 <= i < j < |s| ensures s[i].id != s[j].id {
      assert s[j] == rows[j - 1];
      if i > 0 { assert s[i] == rows[i - 1]; }
    }
  }

  /** Places `r` before the first row it may precede. */
  function Insert(r: Row, rows: seq<Row>): (s: seq<Row>)
    ensures |s| == |rows| + 1
    ensures forall x :: x in s <==> x == r || x in rows
    ensures multiset(s) == multiset(rows) + multiset{r}
  {
    if rows == [] || ListedBefore(r.createdAt, rows[0].createdAt) then [r] + rows
    else
      assert rows == [rows[0]] + rows[1..];
      [rows[0]] + Insert(r, rows[1..])
  }

  /** In an ordered list the head may precede every later row. */
  lemma HeadLeads(rows: seq<Row>, x: Row)
    requires OrderedDesc(rows) && rows != [] && x in rows
    ensures ListedBefore(rows[0].createdAt, x.createdAt)
  {
    var j :| 0 <= j < |rows| && rows[j] == x;
  }

  lemma {:induction false} InsertOrdered(r: Row, rows: seq<Row>)
    requires OrderedDesc(rows)
    ensures OrderedDesc(Insert(r, rows))
  {
    if rows == [] || ListedBefore(r.createdAt, rows[0].createdAt) {
      forall x | x in rows ensures ListedBefore(r.createdAt, x.createdAt) {
        HeadLeads(rows, x);
        ListedBeforeTransitive(r.createdAt, rows[0].createdAt, x.createdAt);
      }
    } else {
      var rest := Insert(r, rows[1..]);
      InsertOrdered(r, rows[1..]);
      ListedBeforeTotal(r.createdAt, rows[0].createdAt);
      forall x | x in rest ensures ListedBefore(rows[0].createdAt, x.createdAt) {
        if x != r { HeadLeads(rows, x); }
      }
      assert Insert(r, rows) == [rows[0]] + rest;
    }
  }

  lemma {:induction false} InsertDistinct(r: Row, rows: seq<Row>)
    requires DistinctIds(rows)
    requires forall x :: x in rows ==> x.id != r.id
    ensures DistinctIds(Insert(r, rows))
  {
    if !(rows == [] || ListedBefore(r.createdAt, rows[0].createdAt)) {
      var rest := Insert(r, rows[1..]);
      InsertDistinct(r, rows[1..]);
      forall x | x in rest ensures x.id != rows[0].id {
        if x != r {
          var j :| 0 <= j < |rows[1..]| && rows[1..][j] == x;
          assert rows[j + 1] == x;
        }
      }
      assert Insert(r, rows) == [rows[0]] + rest;
    }
  }

  lemma MemberOrEmpty(s: set<int>)
    ensures s == {} || exists y :: y in s
  {
    if forall y :: y !in s {
      assert s == {};
    }
  }

  lemma MinExists(keys: set<int>)
    requires keys != {}
    ensures exists k :: k in keys && forall j :: j in keys ==> k <= j
  {
    MemberOrEmpty(keys);
    var x :| x in keys;
    var rest := keys - {x};
    if rest == {} {
      forall j | j in keys ensures x <= j {
        assert j == x || j in rest;
      }
    } else {
      MinExists(rest);
      var m :| m in rest && forall j :: j in rest ==> m <= j;
      var least := if x < m then x else m;
      forall j | j in keys ensures least <= j {
        if j != x { assert j in rest; }
      }
    }
  }

  /** Inserting a table row into a listing of the rest of the table lists the whole table. */
  lemma ListingInsert(store: map<int, Row>, k: int, rows: seq<Row>)
    requires WellFormed(store) && k in store
    requires IsListing(store - {k}, rows)
    ensures IsListing(store, Insert(store[k], rows))
  {
    var s := Insert(store[k], rows);
    InsertOrdered(store[k], rows);
    forall x | x in rows ensures x.id != k {
      assert x.id in store - {k};
    }
    InsertDistinct(store[k], rows);
    forall x ensures x in s <==> x.id in store && store[x.id] == x {
      if x in rows {
        assert x.id in store - {k};
      }
      if x.id in store && store[x.id] == x && x != store[k] {
        assert x.id != k;
        assert x.id in store - {k};
      }
    }
  }

  /** Every row of a listing of a well-formed table carries a valid stamp. */
  lemma ListingRowsValid(store: map<int, Row>, rows: seq<Row>)
    requires WellFormed(store) && IsListing(store, rows)
    ensures ValidRows(rows)
  {
    forall i | 0 <= i < |rows| ensures ValidStamp(rows[i].createdAt) {
      assert rows[i] in rows;
    }
  }

  /**
   * The store's answer to `SELECT ... ORDER BY created_at DESC`: the rows
   * taken in increasing id order and each inserted at its place.  It is one
   * listing among those `IsListing` allows.
   */
  function Query(store: map<int, Row>): (rows: seq<Row>)
    requires WellFormed(store)
    ensures IsListing(store, rows)
    ensures ValidRows(rows)
    decreases |store|
  {
    if |store| == 0 then
      assert forall x: Row :: x.id !in store;
      []
    else
      MinExists(store.Keys);
      var k :| k in store && forall j :: j in store ==> k <= j;
      var rest := store - {k};
      assert |rest| < |store| by { assert rest.Keys == store.Keys - {k}; }
      var rows := Insert(store[k], Query(rest));
      ListingInsert(store, k, Query(rest));
      ListingRowsValid(store, rows);
      rows
  }
}
