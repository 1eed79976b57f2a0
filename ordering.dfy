/**
 * `ORDER BY ... DESC` as the registry's queries use it: rows arranged so that each row
 * comes before the next by the query's comparison, keeping every row. SQLite leaves
 * the order of equal keys open; this model keeps them in scan order.
 */
module Ordering {

  /** `ge(a, b)` says `a` may come before `b`. */
  ghost predicate Total<T(!new)>(ge: (T, T) -> bool) {
    forall a, b :: ge(a, b) || ge(b, a)
  }

  /** Each row may come before the next. */
  predicate Arranged<T>(rows: seq<T>, ge: (T, T) -> bool) {
    forall i :: 0 <= i < |rows| - 1 ==> ge(rows[i], rows[i + 1])
  }

  function Insert<T>(x: T, rows: seq<T>, ge: (T, T) -> bool): (r: seq<T>)
    ensures multiset(r) == multiset(rows) + multiset{x}
    ensures |r| == |rows| + 1
    ensures r[0] == x || (|rows| > 0 && r[0] == rows[0])
  {
    if |rows| == 0 || ge(x, rows[0]) then [x] + rows
    else
      var rest := Insert(x, rows[1..], ge);
      assert rows == [rows[0]] + rows[1..];
      [rows[0]] + rest
  }

  /** The rows in query order. */
  function Sort<T>(rows: seq<T>, ge: (T, T) -> bool): (r: seq<T>)
    ensures multiset(r) == multiset(rows)
  {
    if |rows| == 0 then []
    else
      assert rows == [rows[0]] + rows[1..];
      Insert(rows[0], Sort(rows[1..], ge), ge)
  }

  lemma {:induction false} InsertArranged<T(!new)>(x: T, rows: seq<T>, ge: (T, T) -> bool)
    requires Total(ge) && Arranged(rows, ge)
    ensures Arranged(Insert(x, rows, ge), ge)
  {
    if |rows| > 0 && !ge(x, rows[0]) {
      assert Arranged(rows[1..], ge) by {
        forall i | 0 <= i < |rows[1..]| - 1 ensures ge(rows[1..][i], rows[1..][i + 1]) {
          assert rows[1..][i] == rows[i + 1] && rows[1..][i + 1] == rows[i + 2];
        }
      }
      InsertArranged(x, rows[1..], ge);
      assert ge(rows[0], x);
    }
  }

  /** Sorting arranges the rows and keeps each of them as often as it occurs. */
  lemma {:induction false} SortArranged<T(!new)>(rows: seq<T>, ge: (T, T) -> bool)
    requires Total(ge)
    ensures Arranged(Sort(rows, ge), ge)
    ensures multiset(Sort(rows, ge)) == multiset(rows)
  {
    if |rows| > 0 {
      SortArranged(rows[1..], ge);
      InsertArranged(rows[0], Sort(rows[1..], ge), ge);
    }
  }

  /**
   * `SELECT * FROM table WHERE where ORDER BY ge`: the table is scanned in an order the
   * model leaves open, the rows that satisfy `where` are kept and then sorted.
   */
  method Query<T(!new)>(table: set<T>, where: T -> bool, ge: (T, T) -> bool) returns (r: seq<T>)
    requires Total(ge)
    ensures multiset(r) == multiset(set x | x in table && where(x))
    ensures Arranged(r, ge)
  {
    var rows := [];
    var left := table;
    while left != {}
      invariant left <= table
      invariant multiset(rows) == multiset(set x | x in table - left && where(x))
      decreases |left|
    {
      var x :| x in left;
      ghost var before := set y | y in table - left && where(y);
      left := left - {x};
      if where(x) {
        assert (set y | y in table - left && where(y)) == before + {x};
        assert x !in before;
        rows := rows + [x];
      } else {
        assert (set y | y in table - left && where(y)) == before;
      }
    }
    assert table - left == table;
    r := Sort(rows, ge);
    SortArranged(rows, ge);
  }

  /** A sequence whose rows come from a set holds no row twice. */
  lemma RowsOfSetDistinct<T>(rows: seq<T>, table: set<T>)
    requires multiset(rows) == multiset(table)
    ensures forall i, j :: 0 <= i < j < |rows| ==> rows[i] != rows[j]
  {
    forall i, j | 0 <= i < j < |rows| ensures rows[i] != rows[j] {
      var x := rows[j];
      assert rows == rows[..j] + [x] + rows[j + 1..];
      assert multiset(rows)[x] == multiset(rows[..j])[x] + 1 + multiset(rows[j + 1..])[x];
      assert multiset(table)[x] <= 1;
      assert x !in rows[..j];
      assert rows[i] in rows[..j];
    }
  }

  /** SQLite's comparison of text (`BINARY` collation): code point by code point. */
  predicate TextLe(a: string, b: string) {
    if |a| == 0 then true
    else if |b| == 0 then false
    else if a[0] != b[0] then a[0] < b[0]
    else TextLe(a[1..], b[1..])
  }

  lemma {:induction false} TextLeTotal(a: string, b: string)
    ensures TextLe(a, b) || TextLe(b, a)
  {
    if |a| > 0 && |b| > 0 && a[0] == b[0] {
      TextLeTotal(a[1..], b[1..]);
    }
  }

  lemma {:induction false} TextLeTransitive(a: string, b: string, c: string)
    requires TextLe(a, b) && TextLe(b, c)
    ensures TextLe(a, c)
  {
    if |a| > 0 && |b| > 0 && |c| > 0 && a[0] == b[0] && b[0] == c[0] {
      TextLeTransitive(a[1..], b[1..], c[1..]);
    }
  }

  lemma {:induction false} TextLeAntisymmetric(a: string, b: string)
    requires TextLe(a, b) && TextLe(b, a)
    ensures a == b
  {
    if |a| > 0 && |b| > 0 {
      TextLeAntisymmetric(a[1..], b[1..]);
      assert a == [a[0]] + a[1..] && b == [b[0]] + b[1..];
    }
  }
}
