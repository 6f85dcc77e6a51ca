/**
 * A database table as a map from primary key to row values, and the query
 * building blocks the routes use: rows in primary-key order, filtering, and
 * ordering by a descending key.
 */
module Table {
  import opened Wrappers

  /** One row of a table: its primary key and its column values. */
  datatype Row<T> = Row(id: int, value: T)

  /** A non-empty set has a member. */
  lemma Inhabited(keys: set<int>)
    requires keys != {}
    ensures exists x :: x in keys
  {
    if forall x :: x !in keys {
      assert false;
    }
  }

  /** True when `k` is not greater than any key of `keys`. */
  predicate IsLowerBound(k: int, keys: set<int>) {
    forall j :: j in keys ==> k <= j
  }

  /** Every finite non-empty set of integers has a least element. */
  lemma {:induction false} LeastExists(keys: set<int>)
    requires keys != {}
    ensures exists k :: k in keys && IsLowerBound(k, keys)
  {
    Inhabited(keys);
    var x :| x in keys;
    var rest := keys - {x};
    if rest == {} {
      forall j | j in keys ensures x <= j {
        assert j == x || j in rest;
      }
      assert IsLowerBound(x, keys);
    } else {
      LeastExists(rest);
      var k :| k in rest && IsLowerBound(k, rest);
      var least := if x < k then x else k;
      forall j | j in keys ensures least <= j {
        assert j == x || j in rest;
      }
      assert least in keys && IsLowerBound(least, keys);
    }
  }

  /** The least key of a non-empty key set. */
  function LeastKey(keys: set<int>): (k: int)
    requires keys != {}
    ensures k in keys
    ensures forall j :: j in keys ==> k <= j
  {
    LeastExists(keys);
    var k :| k in keys && IsLowerBound(k, keys);
    k
  }

  /** True when no two rows share a primary key. */
  predicate UniqueIds<T>(rows: seq<Row<T>>) {
    forall i, j :: 0 <= i < j < |rows| ==> rows[i].id != rows[j].id
  }

  /** True when the primary keys strictly increase along the rows. */
  predicate Ascending<T>(rows: seq<Row<T>>) {
    forall i, j :: 0 <= i < j < |rows| ==> rows[i].id < rows[j].id
  }

  /** The greatest key of a non-empty key set: the negation of the least key of the negated keys. */
  function GreatestKey(keys: set<int>): (k: int)
    requires keys != {}
    ensures k in keys
    ensures forall j :: j in keys ==> j <= k
  {
    var negated := set j | j in keys :: -j;
    Inhabited(keys);
    var x :| x in keys;
    assert -x in negated;
    var least := LeastKey(negated);
    assert forall j :: j in keys ==> -j in negated;
    -least
  }

  /**
   * The primary key SQLite gives a row inserted without one into a table
   * whose key is a plain `INTEGER PRIMARY KEY`: 1 for an empty table,
   * otherwise one more than the largest key in use.
   */
  function NextRowId<T>(m: map<int, T>): (k: int)
    ensures m.Keys == {} ==> k == 1
    ensures m.Keys != {} ==> k - 1 in m
    ensures k !in m && forall j :: j in m ==> j < k
  {
    if m.Keys == {} then 1 else GreatestKey(m.Keys) + 1
  }

  /**
   * Removing the row with the largest key lets the next insert take a key
   * no greater than it, and that very key when the key below is in use.
   */
  lemma RemovingLastKeyLowersNextRowId<T>(m: map<int, T>, k: int)
    requires k in m && k + 1 == NextRowId(m)
    ensures m.Keys != {k} ==> NextRowId(m - {k}) <= k
    ensures k - 1 in m ==> NextRowId(m - {k}) == k
  {
    var rest := m - {k};
    if rest.Keys != {} {
      var top := NextRowId(rest) - 1;
      assert top in m && top != k;
      if k - 1 in m {
        assert k - 1 in rest;
      }
    } else {
      assert m.Keys == {k};
    }
  }

  /**
   * The rows of a table in ascending primary-key order: the order in which a
   * query without ORDER BY reads them in this model.
   */
  function Rows<T>(m: map<int, T>): (rows: seq<Row<T>>)
    ensures |rows| == |m|
    decreases |m|
  {
    if m.Keys == {} then []
    else
      var k := LeastKey(m.Keys);
      var rest := m - {k};
      assert rest.Keys == m.Keys - {k};
      [Row(k, m[k])] + Rows(rest)
  }

  /** Every row `Rows` lists is the table's row under that key. */
  lemma {:induction false} RowsSound<T>(m: map<int, T>)
    ensures forall x :: x in Rows(m) ==> x.id in m && x.value == m[x.id]
    decreases |m|
  {
    if m.Keys != {} {
      var k := LeastKey(m.Keys);
      var rest := m - {k};
      assert rest.Keys == m.Keys - {k};
      RowsSound(rest);
    }
  }

  /** Every row of the table is listed by `Rows`. */
  lemma {:induction false} RowsComplete<T>(m: map<int, T>)
    ensures forall id :: id in m ==> Row(id, m[id]) in Rows(m)
    decreases |m|
  {
    if m.Keys != {} {
      var k := LeastKey(m.Keys);
      var rest := m - {k};
      assert rest.Keys == m.Keys - {k};
      RowsComplete(rest);
      forall id | id in m ensures Row(id, m[id]) in Rows(m) {
        if id != k {
          assert id in rest && rest[id] == m[id];
        }
      }
    }
  }

  /** `Rows` lists the keys in strictly ascending order, so each once. */
  lemma {:induction false} RowsAscending<T>(m: map<int, T>)
    ensures Ascending(Rows(m))
    ensures UniqueIds(Rows(m))
    decreases |m|
  {
    if m.Keys != {} {
      var k := LeastKey(m.Keys);
      var rest := m - {k};
      assert rest.Keys == m.Keys - {k};
      RowsAscending(rest);
      RowsSound(rest);
      var tail := Rows(rest);
      var rows := Rows(m);
      assert rows == [Row(k, m[k])] + tail;
      forall i, j | 0 <= i < j < |rows| ensures rows[i].id < rows[j].id {
        assert rows[j] == tail[j - 1];
        if i == 0 {
          assert tail[j - 1] in tail;
          assert tail[j - 1].id in rest;
        } else {
          assert rows[i] == tail[i - 1];
        }
      }
    }
  }

  /** The rows that `keep` accepts, in their original order: a WHERE clause. */
  function Select<T>(rows: seq<Row<T>>, keep: T -> bool): (r: seq<Row<T>>)
    ensures |r| <= |rows|
    ensures forall i :: 0 <= i < |r| ==> keep(r[i].value)
    ensures multiset(r) <= multiset(rows)
  {
    if rows == [] then []
    else
      assert rows == [rows[0]] + rows[1..];
      var tail := Select(rows[1..], keep);
      if keep(rows[0].value) then [rows[0]] + tail else tail
  }

  /** `Select` keeps exactly the accepted rows. */
  lemma {:induction false} SelectContent<T>(rows: seq<Row<T>>, keep: T -> bool)
    ensures forall x :: x in Select(rows, keep) <==> x in rows && keep(x.value)
  {
    if rows != [] {
      assert rows == [rows[0]] + rows[1..];
      SelectContent(rows[1..], keep);
    }
  }

  /** Two filters that agree on every row select the same rows. */
  lemma {:induction false} SelectAgree<T>(rows: seq<Row<T>>, keep1: T -> bool, keep2: T -> bool)
    requires forall i :: 0 <= i < |rows| ==> keep1(rows[i].value) == keep2(rows[i].value)
    ensures Select(rows, keep1) == Select(rows, keep2)
  {
    if rows != [] {
      assert keep1(rows[0].value) == keep2(rows[0].value);
      SelectAgree(rows[1..], keep1, keep2);
    }
  }

  /** A row placed in front of rows with other keys keeps the keys distinct. */
  lemma ConsUnique<T>(x: Row<T>, rows: seq<Row<T>>)
    requires UniqueIds(rows)
    requires forall y :: y in rows ==> y.id != x.id
    ensures UniqueIds([x] + rows)
  {
    var r := [x] + rows;
    forall i, j | 0 <= i < j < |r| ensures r[i].id != r[j].id {
      assert r[j] == rows[j - 1];
      assert rows[j - 1] in rows;
      if i > 0 {
        assert r[i] == rows[i - 1];
      }
    }
  }

  /** In rows with distinct keys, no later row shares the first row's key. */
  lemma TailKeysDiffer<T>(rows: seq<Row<T>>, y: Row<T>)
    requires UniqueIds(rows) && rows != []
    requires y in multiset(rows[1..])
    ensures y.id != rows[0].id
  {
    var n :| 0 <= n < |rows[1..]| && rows[1..][n] == y;
    assert rows[1 + n] == y;
  }

  /** Selecting from rows with distinct keys keeps the keys distinct. */
  lemma {:induction false} SelectUnique<T>(rows: seq<Row<T>>, keep: T -> bool)
    requires UniqueIds(rows)
    ensures UniqueIds(Select(rows, keep))
  {
    if rows != [] {
      assert UniqueIds(rows[1..]);
      SelectUnique(rows[1..], keep);
      var tail := Select(rows[1..], keep);
      if keep(rows[0].value) {
        forall y | y in tail ensures y.id != rows[0].id {
          assert y in multiset(rows[1..]);
          TailKeysDiffer(rows, y);
        }
        ConsUnique(rows[0], tail);
      }
    }
  }

  /** True when the rows are in non-increasing order of `key`. */
  predicate SortedDesc<T>(rows: seq<Row<T>>, key: T -> int) {
    forall i, j :: 0 <= i < j < |rows| ==> key(rows[i].value) >= key(rows[j].value)
  }

  /** Inserts `x` before the first row whose key is not greater than its own. */
  function InsertDesc<T>(x: Row<T>, rows: seq<Row<T>>, key: T -> int): (r: seq<Row<T>>)
    ensures multiset(r) == multiset(rows) + multiset{x}
  {
    if rows == [] || key(x.value) >= key(rows[0].value) then
      [x] + rows
    else
      assert rows == [rows[0]] + rows[1..];
      [rows[0]] + InsertDesc(x, rows[1..], key)
  }

  /** Inserting into a sorted sequence keeps it sorted. */
  lemma {:induction false} InsertDescSorted<T>(x: Row<T>, rows: seq<Row<T>>, key: T -> int)
    requires SortedDesc(rows, key)
    ensures SortedDesc(InsertDesc(x, rows, key), key)
  {
    if rows != [] && key(x.value) < key(rows[0].value) {
      var tail := InsertDesc(x, rows[1..], key);
      InsertDescSorted(x, rows[1..], key);
      var r := InsertDesc(x, rows, key);
      assert r == [rows[0]] + tail;
      forall i, j | 0 <= i < j < |r| ensures key(r[i].value) >= key(r[j].value) {
        if i == 0 {
          assert r[j] == tail[j - 1];
          assert r[j] in multiset(tail);
          if r[j] != x {
            assert r[j] in multiset(rows[1..]);
            var n :| 0 <= n < |rows[1..]| && rows[1..][n] == r[j];
            assert rows[1 + n] == r[j];
          }
        } else {
          assert r[i] == tail[i - 1] && r[j] == tail[j - 1];
        }
      }
    }
  }

  /** Inserting a row whose key is new keeps the keys distinct. */
  lemma {:induction false} InsertDescUnique<T>(x: Row<T>, rows: seq<Row<T>>, key: T -> int)
    requires UniqueIds(rows)
    requires forall y :: y in rows ==> y.id != x.id
    ensures UniqueIds(InsertDesc(x, rows, key))
  {
    var r := InsertDesc(x, rows, key);
    if rows == [] || key(x.value) >= key(rows[0].value) {
      assert r == [x] + rows;
      forall i, j | 0 <= i < j < |r| ensures r[i].id != r[j].id {
        assert r[j] == rows[j - 1];
        if i > 0 {
          assert r[i] == rows[i - 1];
        }
      }
    } else {
      assert rows == [rows[0]] + rows[1..];
      var tail := InsertDesc(x, rows[1..], key);
      InsertDescUnique(x, rows[1..], key);
      assert r == [rows[0]] + tail;
      forall i, j | 0 <= i < j < |r| ensures r[i].id != r[j].id {
        if i == 0 {
          assert r[j] == tail[j - 1];
          assert r[j] in multiset(tail);
          if r[j] != x {
            assert r[j] in multiset(rows[1..]);
            var n :| 0 <= n < |rows[1..]| && rows[1..][n] == r[j];
            assert rows[1 + n] == r[j];
          }
        } else {
          assert r[i] == tail[i - 1] && r[j] == tail[j - 1];
        }
      }
    }
  }

  /** Insertion sort by descending `key`: ORDER BY key DESC. */
  function SortDesc<T>(rows: seq<Row<T>>, key: T -> int): (r: seq<Row<T>>)
    ensures multiset(r) == multiset(rows)
    ensures |r| == |rows|
  {
    if rows == [] then []
    else
      assert rows == [rows[0]] + rows[1..];
      InsertDesc(rows[0], SortDesc(rows[1..], key), key)
  }

  /** `SortDesc` sorts, and keeps the keys distinct when they were. */
  lemma {:induction false} SortDescSorted<T>(rows: seq<Row<T>>, key: T -> int)
    ensures SortedDesc(SortDesc(rows, key), key)
    ensures UniqueIds(rows) ==> UniqueIds(SortDesc(rows, key))
  {
    if rows != [] {
      var tail := SortDesc(rows[1..], key);
      SortDescSorted(rows[1..], key);
      InsertDescSorted(rows[0], tail, key);
      if UniqueIds(rows) {
        assert UniqueIds(rows[1..]);
        forall y | y in tail ensures y.id != rows[0].id {
          assert y in multiset(rows[1..]);
          var n :| 0 <= n < |rows[1..]| && rows[1..][n] == y;
          assert rows[1 + n] == y;
        }
        InsertDescUnique(rows[0], tail, key);
      }
    }
  }

  /** Sorting neither adds nor drops a row. */
  lemma SortDescMembers<T>(rows: seq<Row<T>>, key: T -> int)
    ensures forall x :: x in SortDesc(rows, key) <==> x in rows
  {
    var r := SortDesc(rows, key);
    forall x ensures x in r <==> x in rows {
      assert x in r <==> x in multiset(r);
      assert x in rows <==> x in multiset(rows);
    }
  }

  /** The primary keys the rows carry. */
  ghost function Ids<T>(rows: seq<Row<T>>): set<int> {
    set x | x in rows :: x.id
  }

  /** Rows with distinct keys are as many as their keys. */
  lemma {:induction false} UniqueIdsCount<T>(rows: seq<Row<T>>)
    requires UniqueIds(rows)
    ensures |Ids(rows)| == |rows|
  {
    if rows != [] {
      var tail := rows[1..];
      assert UniqueIds(tail);
      UniqueIdsCount(tail);
      assert rows == [rows[0]] + tail;
      assert Ids(rows) == {rows[0].id} + Ids(tail);
      if rows[0].id in Ids(tail) {
        var y :| y in tail && y.id == rows[0].id;
        TailKeysDiffer(rows, y);
        assert false;
      }
    }
  }

  /** The keys whose rows `keep` accepts. */
  function KeysWhere<T>(m: map<int, T>, keep: T -> bool): (keys: set<int>)
    ensures forall id :: id in keys <==> id in m && keep(m[id])
  {
    set id | id in m && keep(m[id])
  }

  /** The keys a whole-table query returns are exactly the accepted keys. */
  lemma SelectIds<T>(m: map<int, T>, keep: T -> bool)
    ensures Ids(Select(Rows(m), keep)) == KeysWhere(m, keep)
  {
    var all := Rows(m);
    var rows := Select(all, keep);
    var matching := KeysWhere(m, keep);
    SelectContent(all, keep);
    forall id | id in matching ensures id in Ids(rows) {
      RowsComplete(m);
      assert Row(id, m[id]) in rows;
    }
    forall id | id in Ids(rows) ensures id in matching {
      var x :| x in rows && x.id == id;
      RowsSound(m);
      assert x in all;
    }
  }

  /**
   * A query that selects from a whole table returns one row for each key
   * whose row it accepts: the count a client sees is the number of matches.
   */
  lemma SelectCount<T>(m: map<int, T>, keep: T -> bool)
    ensures |Select(Rows(m), keep)| == |KeysWhere(m, keep)|
  {
    RowsAscending(m);
    SelectUnique(Rows(m), keep);
    UniqueIdsCount(Select(Rows(m), keep));
    SelectIds(m, keep);
  }

  /**
   * A query over a whole table: its rows are exactly the accepted rows of
   * the table, each once, one per accepted key.
   */
  lemma SelectRows<T>(m: map<int, T>, keep: T -> bool)
    ensures forall x :: x in Select(Rows(m), keep) <==> x.id in m && x.value == m[x.id] && keep(x.value)
    ensures UniqueIds(Select(Rows(m), keep))
    ensures |Select(Rows(m), keep)| == |KeysWhere(m, keep)|
  {
    SelectContent(Rows(m), keep);
    RowsSound(m);
    RowsComplete(m);
    RowsAscending(m);
    SelectUnique(Rows(m), keep);
    SelectCount(m, keep);
  }

  /**
   * A query over a whole table ordered by a descending key: exactly the
   * accepted rows of the table, each once, in order, one per accepted key.
   */
  lemma SortedSelectRows<T>(m: map<int, T>, keep: T -> bool, key: T -> int)
    ensures var listed := SortDesc(Select(Rows(m), keep), key);
      && (forall x :: x in listed <==> x.id in m && x.value == m[x.id] && keep(x.value))
      && UniqueIds(listed)
      && SortedDesc(listed, key)
      && |listed| == |KeysWhere(m, keep)|
  {
    var rows := Select(Rows(m), keep);
    SelectRows(m, keep);
    SortDescSorted(rows, key);
    SortDescMembers(rows, key);
  }

  /** One row's membership in an ordered query over a whole table. */
  lemma SortedSelectMember<T>(m: map<int, T>, keep: T -> bool, key: T -> int, x: Row<T>)
    ensures x in SortDesc(Select(Rows(m), keep), key) <==> x.id in m && x.value == m[x.id] && keep(x.value)
  {
    SortedSelectRows(m, keep, key);
  }

  /** `.filter(...).first()`: the least key whose row `keep` accepts, if any. */
  function FirstWhere<T>(m: map<int, T>, keep: T -> bool): (r: Option<int>)
    ensures r.None? <==> forall k :: k in m ==> !keep(m[k])
    ensures r.Some? ==> r.value in m && keep(m[r.value])
    ensures r.Some? ==> forall k :: k in m && keep(m[k]) ==> r.value <= k
  {
    var keys := KeysWhere(m, keep);
    if keys == {} then None else Some(LeastKey(keys))
  }
}
