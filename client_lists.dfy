/** The lists the client pages keep of server documents, each row with its
    `_id`, and the delete rule they share: filter the id out once the request
    has succeeded. */
module ClientLists {
  import opened Seqs
  import opened Models

  /** A listed document with its `_id`. */
  datatype Row<T> = Row(id: Id, doc: T)

  /** `x => x._id !== id`. */
  function OtherId<T>(id: Id): Row<T> -> bool {
    (r: Row<T>) => r.id != id
  }

  /** The list shows documents of the table as the server has them, each once. */
  ghost predicate Mirrors<T>(rows: seq<Row<T>>, table: map<Id, T>) {
    && (forall k :: 0 <= k < |rows| ==> rows[k].id in table && table[rows[k].id] == rows[k].doc)
    && (forall i, j :: 0 <= i < j < |rows| ==> rows[i].id != rows[j].id)
  }

  /** An axios call succeeds on a 2xx status and throws on any other. */
  predicate Succeeded(status: int) {
    200 <= status < 300
  }

  /** `handleDelete` of either list: after a confirmed successful request the
      rows with that id are filtered out; a declined confirm or a failed
      request leaves the list as it was. */
  function HandleDelete<T(!new)>(rows: seq<Row<T>>, id: Id, confirmed: bool, status: int): (r: seq<Row<T>>)
    ensures confirmed && Succeeded(status) ==>
      forall x :: x in r <==> x in rows && x.id != id
    ensures !confirmed || !Succeeded(status) ==> r == rows
  {
    if confirmed && Succeeded(status) then Filter(rows, OtherId(id)) else rows
  }

  /** A row removed from a mirrored list is still a mirror of the table
      without that id, which is what a successful delete leaves on the server. */
  lemma {:induction false} DeleteKeepsMirror<T(!new)>(rows: seq<Row<T>>, table: map<Id, T>, id: Id)
    requires Mirrors(rows, table)
    ensures Mirrors(Filter(rows, OtherId(id)), table - {id})
  {
    if |rows| > 0 {
      assert Mirrors(rows[1..], table) by {
        forall i, j | 0 <= i < j < |rows[1..]| ensures rows[1..][i].id != rows[1..][j].id {
          assert rows[1..][i] == rows[i + 1] && rows[1..][j] == rows[j + 1];
        }
      }
      DeleteKeepsMirror(rows[1..], table, id);
      var rest := Filter(rows[1..], OtherId(id));
      if rows[0].id != id {
        var r := [rows[0]] + rest;
        assert forall x :: x in rest ==> x in rows[1..];
        assert forall k :: 0 <= k < |rows[1..]| ==> rows[1..][k].id != rows[0].id by {
          forall k | 0 <= k < |rows[1..]| ensures rows[1..][k].id != rows[0].id {
            assert rows[1..][k] == rows[k + 1];
          }
        }
        forall i, j | 0 <= i < j < |r| ensures r[i].id != r[j].id {
          if i == 0 {
            assert r[j] in rest;
          } else {
            assert r[i] == rest[i - 1] && r[j] == rest[j - 1];
          }
        }
      }
    }
  }

  /** Deleting the one row with an id keeps the rows around it, in order. */
  lemma {:induction false} DeleteKeepsOthersInOrder<T(!new)>(before: seq<Row<T>>, row: Row<T>, after: seq<Row<T>>)
    requires forall k :: 0 <= k < |before| ==> before[k].id != row.id
    requires forall k :: 0 <= k < |after| ==> after[k].id != row.id
    ensures Filter(before + [row] + after, OtherId(row.id)) == before + after
  {
    var keep := OtherId<T>(row.id);
    assert forall y :: y in before ==> keep(y);
    assert forall y :: y in after ==> keep(y);
    FilterDropsOne(before, row, after, keep);
  }
}
