/** Merging keyed rows into a table: what is there must agree, what is missing is inserted. */
module Merging {
  import opened Common

  datatype Row<K, D> = Row(key: K, data: D)

  datatype Refusal = Conflict | Rejected

  /** How two rows of one key are compared, and which inserts the constraints of the table let through. */
  datatype Terms<!K, !D> = Terms(same: (D, D) -> bool, accepts: (map<K, D>, K, D) -> bool)

  predicate DistinctKeys<K(==), D>(rows: seq<Row<K, D>>) {
    forall i, j | 0 <= i < j < |rows| :: rows[i].key != rows[j].key
  }

  function MergeAll<K, D>(t: Terms<K, D>, db: map<K, D>, rows: seq<Row<K, D>>): Result<map<K, D>, Refusal> {
    if rows == [] then Ok(db)
    else
      var before, row := MergeAll(t, db, rows[..|rows| - 1]), rows[|rows| - 1];
      if before.Err? then before
      else if row.key in before.value then if t.same(before.value[row.key], row.data) then before else Err(Conflict)
      else if !t.accepts(before.value, row.key, row.data) then Err(Rejected)
      else Ok(before.value[row.key := row.data])
  }

  /** The rows of a table whose key is missing in db, and those whose key is there. */
  function Added<K, D>(db: map<K, D>, rows: seq<Row<K, D>>, mine: K -> bool): nat {
    if rows == [] then 0
    else
      var k := rows[|rows| - 1].key;
      Added(db, rows[..|rows| - 1], mine) + if mine(k) && k !in db then 1 else 0
  }

  function Reused<K, D>(db: map<K, D>, rows: seq<Row<K, D>>, mine: K -> bool): nat {
    if rows == [] then 0
    else
      var k := rows[|rows| - 1].key;
      Reused(db, rows[..|rows| - 1], mine) + if mine(k) && k in db then 1 else 0
  }

  function Count<K, D>(rows: seq<Row<K, D>>, mine: K -> bool): nat {
    if rows == [] then 0 else Count(rows[..|rows| - 1], mine) + if mine(rows[|rows| - 1].key) then 1 else 0
  }

  lemma {:induction false} AddedPlusReused<K, D>(db: map<K, D>, rows: seq<Row<K, D>>, mine: K -> bool)
    ensures Added(db, rows, mine) + Reused(db, rows, mine) == Count(rows, mine)
  {
    if rows != [] {
      AddedPlusReused(db, rows[..|rows| - 1], mine);
    }
  }

  /** What was there stays; what is new comes from the rows. */
  ghost predicate Extends<K(!new), D>(db: map<K, D>, rows: seq<Row<K, D>>, merged: map<K, D>) {
    && (forall k | k in db :: k in merged && merged[k] == db[k])
    && forall k | k in merged && k !in db :: Row(k, merged[k]) in rows
  }

  /** Every row is there. */
  predicate Holds<K(==), D>(t: Terms<K, D>, rows: seq<Row<K, D>>, merged: map<K, D>) {
    forall i | 0 <= i < |rows| :: rows[i].key in merged && t.same(merged[rows[i].key], rows[i].data)
  }

  /** The merge is the union. */
  lemma {:induction false} MergeIsUnion<K(!new), D(!new)>(t: Terms<K, D>, db: map<K, D>, rows: seq<Row<K, D>>)
    requires MergeAll(t, db, rows).Ok? && forall d :: t.same(d, d)
    ensures Extends(db, rows, MergeAll(t, db, rows).value) && Holds(t, rows, MergeAll(t, db, rows).value)
  {
    if rows != [] {
      var n := |rows| - 1;
      MergeIsUnion(t, db, rows[..n]);
      assert rows == rows[..n] + [rows[n]];
    }
  }

  /** A key is new while merging exactly when it was missing at the start. */
  lemma MergeKeys<K(!new), D(!new)>(t: Terms<K, D>, db: map<K, D>, rows: seq<Row<K, D>>, k: K)
    requires MergeAll(t, db, rows).Ok? && (forall d :: t.same(d, d)) && forall i | 0 <= i < |rows| :: rows[i].key != k
    ensures k in MergeAll(t, db, rows).value <==> k in db
    ensures k in db ==> MergeAll(t, db, rows).value[k] == db[k]
  {
    MergeIsUnion(t, db, rows);
  }

  /** One key with different contents is enough for a refusal. */
  lemma DifferenceRefuses<K(!new), D(!new)>(t: Terms<K, D>, db: map<K, D>, rows: seq<Row<K, D>>, i: nat)
    requires i < |rows| && (forall d :: t.same(d, d))
    requires rows[i].key in db && !t.same(db[rows[i].key], rows[i].data)
    ensures MergeAll(t, db, rows).Err?
  {
    if MergeAll(t, db, rows).Ok? {
      MergeIsUnion(t, db, rows);
    }
  }

  /** Merging rows that are there already changes nothing and adds nothing. */
  lemma {:induction false} MergeAgain<K, D>(t: Terms<K, D>, db: map<K, D>, rows: seq<Row<K, D>>, mine: K -> bool)
    requires Holds(t, rows, db)
    ensures MergeAll(t, db, rows) == Ok(db) && Added(db, rows, mine) == 0
  {
    if rows != [] {
      var n := |rows| - 1;
      assert forall i | 0 <= i < n :: rows[..n][i] == rows[i];
      MergeAgain(t, db, rows[..n], mine);
    }
  }

  /** More rows in the table, the archive's included, keep it merged. */
  lemma HoldsGrows<K, D>(t: Terms<K, D>, rows: seq<Row<K, D>>, db: map<K, D>, k: K, d: D)
    requires Holds(t, rows, db) && k !in db
    ensures Holds(t, rows, db[k := d])
  {
  }

  /** One row of the archive passes: what is there compares equal, or the database takes the new row after those before
      it. */
  ghost predicate Passes<K(!new), D>(t: Terms<K, D>, db: map<K, D>, rows: seq<Row<K, D>>, i: nat)
    requires i < |rows|
  {
    var mid := MergeAll(t, db, rows[..i]);
    && mid.Ok?
    && (rows[i].key in db ==> t.same(db[rows[i].key], rows[i].data))
    && (rows[i].key !in db ==> t.accepts(mid.value, rows[i].key, rows[i].data))
  }

  lemma PassesBefore<K(!new), D>(t: Terms<K, D>, db: map<K, D>, rows: seq<Row<K, D>>, n: nat, i: nat)
    requires i < n <= |rows|
    ensures Passes(t, db, rows[..n], i) <==> Passes(t, db, rows, i)
  {
    assert rows[..n][..i] == rows[..i];
  }

  /** The merge goes through exactly when every row passes; it never gives up a row in between. */
  lemma {:induction false} MergesExactly<K(!new), D(!new)>(t: Terms<K, D>, db: map<K, D>, rows: seq<Row<K, D>>)
    requires DistinctKeys(rows) && forall d :: t.same(d, d)
    ensures MergeAll(t, db, rows).Ok? <==> forall i | 0 <= i < |rows| :: Passes(t, db, rows, i)
  {
    if rows != [] {
      var n := |rows| - 1;
      MergesExactly(t, db, rows[..n]);
      forall i | 0 <= i < n ensures Passes(t, db, rows[..n], i) <==> Passes(t, db, rows, i) {
        PassesBefore(t, db, rows, n, i);
      }
      if MergeAll(t, db, rows[..n]).Ok? {
        MergeKeys(t, db, rows[..n], rows[n].key);
        assert forall i | 0 <= i < n :: Passes(t, db, rows[..n], i);
        assert MergeAll(t, db, rows).Ok? <==> Passes(t, db, rows, n);
      } else {
        assert !Passes(t, db, rows, n);
      }
    }
  }

  // ---- rows that are prepared anew ----

  ghost predicate Comparable<K, D(!new)>(t: Terms<K, D>) {
    && (forall d :: t.same(d, d)) && (forall d, e :: t.same(d, e) ==> t.same(e, d))
    && forall d, e, f :: t.same(d, e) && t.same(e, f) ==> t.same(d, f)
  }

  /** The same keys in the same order, with contents that compare equal. */
  predicate AlikeRows<K(==), D>(t: Terms<K, D>, a: seq<Row<K, D>>, b: seq<Row<K, D>>) {
    |a| == |b| && forall i | 0 <= i < |a| :: a[i].key == b[i].key && t.same(a[i].data, b[i].data)
  }

  predicate Alike<K(==), D>(t: Terms<K, D>, a: map<K, D>, b: map<K, D>) {
    a.Keys == b.Keys && forall k | k in a :: t.same(a[k], b[k])
  }

  /** The constraints of the table see no difference between contents that compare equal. */
  ghost predicate Blind<K(!new), D(!new)>(t: Terms<K, D>) {
    forall a, b, k, d, e :: Alike(t, a, b) && t.same(d, e) ==> t.accepts(a, k, d) == t.accepts(b, k, e)
  }

  lemma AlikeNext<K(!new), D(!new)>(t: Terms<K, D>, a: map<K, D>, b: map<K, D>, k: K, d: D, e: D)
    requires Comparable(t) && Blind(t) && Alike(t, a, b) && t.same(d, e)
    ensures k in a <==> k in b
    ensures k in a ==> t.same(a[k], d) == t.same(b[k], e)
    ensures t.accepts(a, k, d) == t.accepts(b, k, e) && Alike(t, a[k := d], b[k := e])
  {
    if k in a {
      assert t.same(a[k], b[k]) && t.same(b[k], a[k]) && t.same(e, d);
    }
  }

  /** Rows prepared anew merge like the first ones, into contents that compare equal, or are
      refused for the same reason. */
  lemma {:induction false} MergeAlike<K(!new), D(!new)>(t: Terms<K, D>, db: map<K, D>, a: seq<Row<K, D>>,
                                                        b: seq<Row<K, D>>)
    requires Comparable(t) && Blind(t) && AlikeRows(t, a, b)
    ensures var x, y := MergeAll(t, db, a), MergeAll(t, db, b);
            if x.Err? then y == x else y.Ok? && Alike(t, x.value, y.value)
  {
    if a != [] {
      var n := |a| - 1;
      MergeAlike(t, db, a[..n], b[..n]);
      var x, y := MergeAll(t, db, a[..n]), MergeAll(t, db, b[..n]);
      if x.Ok? {
        AlikeNext(t, x.value, y.value, a[n].key, a[n].data, b[n].data);
      }
    }
  }

  lemma {:induction false} CountsAlike<K(!new), D(!new)>(t: Terms<K, D>, db: map<K, D>, a: seq<Row<K, D>>,
                                                         b: seq<Row<K, D>>, mine: K -> bool)
    requires AlikeRows(t, a, b)
    ensures Added(db, a, mine) == Added(db, b, mine) && Reused(db, a, mine) == Reused(db, b, mine)
  {
    if a != [] {
      CountsAlike(t, db, a[..|a| - 1], b[..|b| - 1], mine);
    }
  }

  lemma HoldsAlike<K(!new), D(!new)>(t: Terms<K, D>, db: map<K, D>, a: seq<Row<K, D>>, b: seq<Row<K, D>>)
    requires Comparable(t) && AlikeRows(t, a, b) && Holds(t, a, db)
    ensures Holds(t, b, db)
  {
    forall i | 0 <= i < |b| ensures b[i].key in db && t.same(db[b[i].key], b[i].data) {
      assert t.same(db[a[i].key], a[i].data) && t.same(a[i].data, b[i].data);
    }
  }
}
