/**
 * The page against the service: what the status fields show for each
 * outcome of the two probes, and that the page's own edits of its task
 * list, made after a write succeeds, leave it showing what a fresh listing
 * of the table could show.
 */
module EndToEnd {
  import opened Wrappers
  import opened Timestamps
  import opened Tasks
  import Backend
  import Frontend

  /**
   * How the page's HTTP client hands a `/health` response to `checkHealth`:
   * a status outside 200-299 is thrown, with the client's `message`.
   */
  function HealthOutcome(resp: Backend.Response, message: string): Frontend.Reply<Frontend.HealthData>
    requires resp.body.HealthReport?
  {
    if 200 <= resp.code < 300 then Frontend.Received(Frontend.HealthData(resp.body.database, resp.body.cache))
    else Frontend.Thrown(message)
  }

  /**
   * The service answers 500 whenever the store probe fails, so the page
   * shows the database as "error" only together with the API as "error",
   * and shows the cache as "connected" only when both probes succeed.
   */
  lemma HealthSeenByPage(dbUp: bool, cacheUp: bool, message: string)
    ensures var h := Frontend.HealthShown(HealthOutcome(Backend.Health(dbUp, cacheUp), message));
      && (h.api == "connected" <==> dbUp)
      && (h.db == "connected" <==> dbUp)
      && (h.cache == "connected" <==> dbUp && cacheUp)
      && !(h.api == "connected" && h.db == "error")
  {
  }

  // ---------------------------------------------------------------------
  // Add

  /**
   * Prepending the created task to a listing of the table lists the table
   * with the new row, provided its stamp may precede every stamp already in
   * the table (a later stamp, and no null stamp in the table).
   */
  lemma AddMatchesStore(store: map<int, Row>, js: seq<TaskJson>, row: Row)
    requires WellFormed(store) && ListedFrom(store, js)
    requires row.id !in store && ValidStamp(row.createdAt)
    requires forall k :: k in store ==> ListedBefore(row.createdAt, store[k].createdAt)
    ensures ListedFrom(store[row.id := row], [ToJson(row)] + js)
  {
    var rows := Deserialize(js).value;
    PrependedListing(store, rows, row);
    PrependedSerialized(rows, row);
    SerializedListing(store[row.id := row], [row] + rows);
  }

  lemma PrependedListing(store: map<int, Row>, rows: seq<Row>, row: Row)
    requires IsListing(store, rows) && row.id !in store
    requires forall k :: k in store ==> ListedBefore(row.createdAt, store[k].createdAt)
    ensures IsListing(store[row.id := row], [row] + rows)
  {
    forall x | x in rows ensures x.id in store && store[x.id] == x {
    }
    OrderedCons(row, rows);
    DistinctCons(row, rows);
  }

  lemma PrependedSerialized(rows: seq<Row>, row: Row)
    requires ValidRows(rows) && ValidStamp(row.createdAt)
    ensures ValidRows([row] + rows)
    ensures Serialize([row] + rows) == [ToJson(row)] + Serialize(rows)
  {
    assert ([row] + rows)[1..] == rows;
  }

  // ---------------------------------------------------------------------
  // Toggle

  /**
   * The row-level twin of `Frontend.Toggled`: the same rewrite of `completed`
   * on rows in place of their dictionaries, used only to carry a listing
   * through serialization.
   */
  ghost function ToggledRows(rows: seq<Row>, id: int, completed: bool): (r: seq<Row>)
    ensures |r| == |rows|
  {
    seq(|rows|, i requires 0 <= i < |rows| =>
      if rows[i].id == id then rows[i].(completed := completed) else rows[i])
  }

  lemma ToggledRowsListing(store: map<int, Row>, rows: seq<Row>, id: int, completed: bool)
    requires KeyedById(store) && IsListing(store, rows)
    ensures IsListing(Backend.SetCompleted(store, id, completed), ToggledRows(rows, id, completed))
  {
    var after := Backend.SetCompleted(store, id, completed);
    var rows' := ToggledRows(rows, id, completed);
    forall x ensures x in rows' <==> x.id in after && after[x.id] == x {
      if x in rows' {
        var i :| 0 <= i < |rows'| && rows'[i] == x;
        assert rows[i] in rows;
      }
      if x.id in after && after[x.id] == x {
        var y := store[x.id];
        assert y in rows;
        var i :| 0 <= i < |rows| && rows[i] == y;
        assert rows'[i] == x;
      }
    }
  }

  lemma ToggledRowsSerialized(rows: seq<Row>, id: int, completed: bool)
    requires ValidRows(rows)
    ensures ValidRows(ToggledRows(rows, id, completed))
    ensures Serialize(ToggledRows(rows, id, completed)) == Frontend.Toggled(Serialize(rows), id, completed)
  {
  }

  /**
   * Rewriting `completed` on the page's copy of a listing gives a listing of
   * the table after the same `UPDATE`.
   */
  lemma ToggleMatchesStore(store: map<int, Row>, js: seq<TaskJson>, id: int, completed: bool)
    requires KeyedById(store) && ListedFrom(store, js)
    ensures ListedFrom(Backend.SetCompleted(store, id, completed), Frontend.Toggled(js, id, completed))
  {
    var rows := Deserialize(js).value;
    ToggledRowsListing(store, rows, id, completed);
    ToggledRowsSerialized(rows, id, completed);
    SerializedListing(Backend.SetCompleted(store, id, completed), ToggledRows(rows, id, completed));
  }

  // ---------------------------------------------------------------------
  // Delete

  /**
   * The row-level twin of `Frontend.WithoutId`: the same filter on rows in
   * place of their dictionaries, used only to carry a listing through
   * serialization.
   */
  ghost function RowsWithout(rows: seq<Row>, id: int): (r: seq<Row>)
    ensures forall x :: x in r <==> x in rows && x.id != id
  {
    if rows == [] then []
    else if rows[0].id == id then RowsWithout(rows[1..], id)
    else [rows[0]] + RowsWithout(rows[1..], id)
  }

  lemma {:induction false} RowsWithoutSerialized(rows: seq<Row>, id: int)
    requires ValidRows(rows)
    ensures ValidRows(RowsWithout(rows, id))
    ensures Serialize(RowsWithout(rows, id)) == Frontend.WithoutId(Serialize(rows), id)
  {
    if rows != [] {
      RowsWithoutSerialized(rows[1..], id);
      assert Serialize(rows)[1..] == Serialize(rows[1..]);
      if rows[0].id != id {
        var rest := RowsWithout(rows[1..], id);
        assert ([rows[0]] + rest)[1..] == rest;
      }
    }
  }

  lemma {:induction false} RowsWithoutListing(rows: seq<Row>, id: int)
    requires OrderedDesc(rows) && DistinctIds(rows)
    ensures OrderedDesc(RowsWithout(rows, id)) && DistinctIds(RowsWithout(rows, id))
  {
    if rows != [] {
      var t := rows[1..];
      assert OrderedDesc(t) && DistinctIds(t);
      RowsWithoutListing(t, id);
      if rows[0].id != id {
        var rest := RowsWithout(t, id);
        forall x | x in rest
          ensures ListedBefore(rows[0].createdAt, x.createdAt) && x.id != rows[0].id
        {
          var j :| 0 <= j < |t| && t[j] == x;
          assert rows[j + 1] == x;
        }
        OrderedCons(rows[0], rest);
        DistinctCons(rows[0], rest);
      }
    }
  }

  lemma RowsWithoutIsListing(store: map<int, Row>, rows: seq<Row>, id: int)
    requires IsListing(store, rows)
    ensures IsListing(store - {id}, RowsWithout(rows, id))
  {
    RowsWithoutListing(rows, id);
  }

  /**
   * Filtering the deleted id out of the page's copy of a listing gives a
   * listing of the table after the same `DELETE`.
   */
  lemma DeleteMatchesStore(store: map<int, Row>, js: seq<TaskJson>, id: int)
    requires ListedFrom(store, js)
    ensures ListedFrom(store - {id}, Frontend.WithoutId(js, id))
  {
    var rows := Deserialize(js).value;
    RowsWithoutIsListing(store, rows, id);
    RowsWithoutSerialized(rows, id);
    SerializedListing(store - {id}, RowsWithout(rows, id));
  }
}
