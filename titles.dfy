/**
  The order of the categories list: by title, ascending, comparing titles
  character by character (a title sorts after each of its proper prefixes).
*/
module TitleOrder {
  import opened Reconciliation

  predicate TitleLe(a: string, b: string)
    decreases |a|
  {
    if a == [] then true
    else if b == [] then false
    else if a[0] != b[0] then a[0] < b[0]
    else TitleLe(a[1..], b[1..])
  }

  lemma {:induction false} TitleLeTotal(a: string, b: string)
    ensures TitleLe(a, b) || TitleLe(b, a)
    decreases |a|
  {
    if a != [] && b != [] && a[0] == b[0] {
      TitleLeTotal(a[1..], b[1..]);
    }
  }

  predicate SortedByTitle(rows: seq<CategoryEntity>) {
    forall i :: 0 < i < |rows| ==> TitleLe(rows[i - 1].fields.title, rows[i].fields.title)
  }

  function InsertByTitle(e: CategoryEntity, rows: seq<CategoryEntity>): (r: seq<CategoryEntity>)
    requires SortedByTitle(rows)
    ensures SortedByTitle(r)
    ensures multiset(r) == multiset(rows) + multiset{e}
    ensures r[0] == e || (rows != [] && r[0] == rows[0])
    decreases |rows|
  {
    if rows == [] then [e]
    else if TitleLe(e.fields.title, rows[0].fields.title) then [e] + rows
    else
      TitleLeTotal(e.fields.title, rows[0].fields.title);
      assert rows == [rows[0]] + rows[1..];
      [rows[0]] + InsertByTitle(e, rows[1..])
  }

  /** The rows in title order: sorted, and the same rows as given. */
  function SortByTitle(rows: seq<CategoryEntity>): (r: seq<CategoryEntity>)
    ensures SortedByTitle(r)
    ensures multiset(r) == multiset(rows)
    decreases |rows|
  {
    if rows == [] then []
    else
      assert rows == [rows[0]] + rows[1..];
      InsertByTitle(rows[0], SortByTitle(rows[1..]))
  }
}
