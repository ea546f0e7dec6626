/** Small shared vocabulary: optional values, results of operations that can be refused,
    and insertion of rows into a table with a primary key. */
module Prelude {

  datatype Option<+T> = None | Some(value: T)

  datatype Result<+T, +E> = Ok(value: T) | Err(error: E) {
    predicate IsFailure() {
      Err?
    }

    function PropagateFailure<U>(): Result<U, E>
      requires Err?
    {
      Err(error)
    }

    function Extract(): T
      requires Ok?
    {
      value
    }
  }

  function Min(a: nat, b: nat): nat { if a <= b then a else b }

  function Max(a: nat, b: nat): nat { if a <= b then b else a }

  predicate Distinct<T(==)>(s: seq<T>) {
    forall i, j :: 0 <= i < j < |s| ==> s[i] != s[j]
  }

  /** Inserts keyed rows one by one; None when a key is already taken (a unique violation). */
  function InsertAll<K, V>(table: map<K, V>, rows: seq<(K, V)>): Option<map<K, V>>
    decreases |rows|
  {
    if rows == [] then Some(table)
    else if rows[0].0 in table then None
    else InsertAll(table[rows[0].0 := rows[0].1], rows[1..])
  }

  function KeysOf<K, V>(rows: seq<(K, V)>): set<K> {
    set i | 0 <= i < |rows| :: rows[i].0
  }

  ghost predicate DistinctKeys<K, V>(rows: seq<(K, V)>) {
    forall i, j :: 0 <= i < j < |rows| ==> rows[i].0 != rows[j].0
  }

  /** `after` holds the old rows unchanged and the inserted ones, and no others. */
  ghost predicate Inserted<K, V>(table: map<K, V>, rows: seq<(K, V)>, after: map<K, V>) {
    && (forall k :: k in table ==> k in after && after[k] == table[k])
    && (forall i :: 0 <= i < |rows| ==> rows[i].0 in after && after[rows[i].0] == rows[i].1)
    && (forall k :: k in after ==> k in table || k in KeysOf(rows))
  }

  ghost predicate NewKeys<K, V>(table: map<K, V>, rows: seq<(K, V)>) {
    DistinctKeys(rows) && forall i :: 0 <= i < |rows| ==> rows[i].0 !in table
  }

  /** Insertion succeeds exactly when all keys are new and pairwise distinct. */
  lemma {:induction false} InsertAllContents<K, V>(table: map<K, V>, rows: seq<(K, V)>)
    ensures InsertAll(table, rows).Some? <==> NewKeys(table, rows)
    ensures InsertAll(table, rows).Some? ==> Inserted(table, rows, InsertAll(table, rows).value)
    decreases |rows|
  {
    if rows != [] && rows[0].0 !in table {
      var next := table[rows[0].0 := rows[0].1];
      var rest := rows[1..];
      InsertAllContents(next, rest);
      assert forall i :: 1 <= i < |rows| ==> rows[i] == rest[i - 1];
      if DistinctKeys(rows) && forall i :: 0 <= i < |rows| ==> rows[i].0 !in table {
        assert DistinctKeys(rest);
        assert forall i :: 0 <= i < |rest| ==> rest[i].0 !in next;
      }
      if InsertAll(next, rest).Some? {
        var after := InsertAll(next, rest).value;
        forall i, j | 0 <= i < j < |rows| ensures rows[i].0 != rows[j].0 {
          assert rows[j].0 == rest[j - 1].0;
          if 0 < i {
            assert rows[i].0 == rest[i - 1].0;
          }
        }
        assert forall i :: 0 <= i < |rest| ==> rest[i].0 == rows[i + 1].0;
        forall i | 0 <= i < |rows| ensures rows[i].0 !in table {
          if 0 < i {
            assert rest[i - 1].0 !in next;
          }
        }
        forall i | 0 <= i < |rows| ensures rows[i].0 in after && after[rows[i].0] == rows[i].1 {
          if 0 < i {
            assert rest[i - 1].0 in after && after[rest[i - 1].0] == rest[i - 1].1;
          }
        }
        forall k | k in after && k !in table ensures k in KeysOf(rows) {
          if k != rows[0].0 {
            assert k in KeysOf(rest);
            var i :| 0 <= i < |rest| && rest[i].0 == k;
            assert rows[i + 1].0 == k;
          }
        }
      }
    }
  }
}
