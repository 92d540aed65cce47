/** The bookmark records and the list query of the store: the rows of one owner, newest first. */
module Bookmarks {

  /** A row of the `bookmarks` table. `createdAt` is the server-assigned `created_at` timestamp. */
  datatype Row = Row(id: string, userId: string, title: string, url: string, createdAt: int)

  /** A bookmark as the API returns it: the columns `id, title, url, created_at`. */
  datatype Bookmark = Bookmark(id: string, title: string, url: string, createdAt: int)

  /** The projection `select("id, title, url, created_at")`. */
  function Select(row: Row): Bookmark {
    Bookmark(row.id, row.title, row.url, row.createdAt)
  }

  function SelectAll(rows: seq<Row>): (bs: seq<Bookmark>)
    ensures |bs| == |rows|
    ensures forall i :: 0 <= i < |rows| ==> bs[i] == Select(rows[i])
  {
    if rows == [] then [] else [Select(rows[0])] + SelectAll(rows[1..])
  }

  /** `.eq("user_id", owner)`: the rows of `owner`, in table order. */
  function OwnedBy(rows: seq<Row>, owner: string): (r: seq<Row>)
    ensures forall x :: x in r <==> x in rows && x.userId == owner
    ensures multiset(r) <= multiset(rows)
  {
    if rows == [] then []
    else
      assert rows == [rows[0]] + rows[1..];
      if rows[0].userId == owner then [rows[0]] + OwnedBy(rows[1..], owner)
      else OwnedBy(rows[1..], owner)
  }

  /** `.order("created_at", { ascending: false })`: newest first. */
  predicate NewestFirst(rows: seq<Row>) {
    forall i, j :: 0 <= i < j < |rows| ==> rows[i].createdAt >= rows[j].createdAt
  }

  /** Inserts `x` before the first row that is not newer than it. */
  function InsertNewest(x: Row, rows: seq<Row>): seq<Row> {
    if rows == [] || x.createdAt >= rows[0].createdAt then [x] + rows
    else [rows[0]] + InsertNewest(x, rows[1..])
  }

  /** Inserting adds `x` and nothing else. */
  lemma {:induction false} InsertNewestAdds(x: Row, rows: seq<Row>)
    ensures multiset(InsertNewest(x, rows)) == multiset(rows) + multiset{x}
    ensures forall y :: y in InsertNewest(x, rows) ==> y == x || y in rows
  {
    if rows != [] && x.createdAt < rows[0].createdAt {
      InsertNewestAdds(x, rows[1..]);
      assert rows == [rows[0]] + rows[1..];
    }
  }

  /** Inserting into a newest-first list keeps it newest first. */
  lemma {:induction false} InsertNewestSorted(x: Row, rows: seq<Row>)
    requires NewestFirst(rows)
    ensures NewestFirst(InsertNewest(x, rows))
  {
    if rows == [] || x.createdAt >= rows[0].createdAt {
      assert forall k :: 0 <= k < |rows| ==> x.createdAt >= rows[k].createdAt;
    } else {
      var tail := InsertNewest(x, rows[1..]);
      InsertNewestSorted(x, rows[1..]);
      InsertNewestAdds(x, rows[1..]);
      forall k | 0 <= k < |tail|
        ensures rows[0].createdAt >= tail[k].createdAt
      {
        assert tail[k] in tail;
      }
    }
  }

  /** An ordering of `rows` newest first; a permutation of its input. */
  function SortNewestFirst(rows: seq<Row>): (r: seq<Row>)
    ensures NewestFirst(r)
    ensures multiset(r) == multiset(rows)
  {
    if rows == [] then []
    else
      var sorted := SortNewestFirst(rows[1..]);
      InsertNewestSorted(rows[0], sorted);
      InsertNewestAdds(rows[0], sorted);
      assert rows == [rows[0]] + rows[1..];
      InsertNewest(rows[0], sorted)
  }

  /** The list query: filter by owner, then sort. */
  function ListRows(rows: seq<Row>, owner: string): (r: seq<Row>)
    ensures NewestFirst(r)
    ensures multiset(r) == multiset(OwnedBy(rows, owner))
    ensures forall x :: x in r <==> x in rows && x.userId == owner
  {
    var r := SortNewestFirst(OwnedBy(rows, owner));
    assert forall x :: x in r <==> x in multiset(r);
    r
  }

  /** A sorted row set has exactly one newest-first order up to rows with equal timestamps; in
      particular a row strictly newer than every other row of the owner is listed first. */
  lemma NewestRowListedFirst(rows: seq<Row>, owner: string, x: Row)
    requires x in rows && x.userId == owner
    requires forall y :: y in rows && y.userId == owner && y != x ==> y.createdAt < x.createdAt
    ensures ListRows(rows, owner) != [] && ListRows(rows, owner)[0] == x
  {
    var r := ListRows(rows, owner);
    assert x in r;
    assert r[0] in r;
  }
}
