/** Sorting rows by a text key, and what makes the result one only: distinct keys. */
module Sorting {
  import opened Basics

  function Keys<T>(key: T -> string, rows: seq<T>): (r: set<string>)
    ensures forall k :: k in r <==> exists i :: 0 <= i < |rows| && key(rows[i]) == k
    ensures |r| <= |rows|
  {
    if rows == [] then {} else {key(rows[0])} + Keys(key, rows[1..])
  }

  predicate Distinct<T>(key: T -> string, rows: seq<T>)
  {
    rows == [] || (key(rows[0]) !in Keys(key, rows[1..]) && Distinct(key, rows[1..]))
  }

  /** Strictly increasing keys. */
  predicate Ordered<T>(key: T -> string, rows: seq<T>)
  {
    |rows| <= 1 || (Less(key(rows[0]), key(rows[1])) && Ordered(key, rows[1..]))
  }

  function Insert<T>(key: T -> string, row: T, rows: seq<T>): (r: seq<T>)
    ensures multiset(r) == multiset(rows) + multiset{row}
    ensures |r| == |rows| + 1
    ensures r[0] == row || (rows != [] && r[0] == rows[0])
  {
    if rows == [] || Less(key(row), key(rows[0])) then
      assert multiset([row] + rows) == multiset{row} + multiset(rows);
      [row] + rows
    else
      var rest := Insert(key, row, rows[1..]);
      assert rows == [rows[0]] + rows[1..];
      [rows[0]] + rest
  }

  function Sort<T>(key: T -> string, rows: seq<T>): (r: seq<T>)
    ensures multiset(r) == multiset(rows)
    ensures |r| == |rows|
  {
    if rows == [] then []
    else
      assert rows == [rows[0]] + rows[1..];
      Insert(key, rows[0], Sort(key, rows[1..]))
  }

  lemma {:induction false} InsertOrders<T>(key: T -> string, row: T, rows: seq<T>)
    requires Ordered(key, rows) && key(row) !in Keys(key, rows)
    ensures Ordered(key, Insert(key, row, rows))
  {
    if rows != [] {
      LessTotal(key(row), key(rows[0]));
      if !Less(key(row), key(rows[0])) {
        var rest := Insert(key, row, rows[1..]);
        InsertOrders(key, row, rows[1..]);
        var r := [rows[0]] + rest;
        assert r[1..] == rest;
      } else {
        assert ([row] + rows)[1..] == rows;
      }
    }
  }

  lemma {:induction false} SameKeys<T>(key: T -> string, a: seq<T>, b: seq<T>)
    requires multiset(a) == multiset(b)
    ensures Keys(key, a) == Keys(key, b)
  {
    forall i | 0 <= i < |a| ensures key(a[i]) in Keys(key, b) {
      assert a[i] in multiset(b);
      var j :| 0 <= j < |b| && b[j] == a[i];
    }
    forall j | 0 <= j < |b| ensures key(b[j]) in Keys(key, a) {
      assert b[j] in multiset(a);
      var i :| 0 <= i < |a| && a[i] == b[j];
    }
  }

  lemma {:induction false} SortOrders<T>(key: T -> string, rows: seq<T>)
    requires Distinct(key, rows)
    ensures Ordered(key, Sort(key, rows))
  {
    if rows != [] {
      SortOrders(key, rows[1..]);
      SameKeys(key, Sort(key, rows[1..]), rows[1..]);
      InsertOrders(key, rows[0], Sort(key, rows[1..]));
    }
  }

  lemma {:induction false} FirstIsLeast<T>(key: T -> string, rows: seq<T>, k: nat)
    requires Ordered(key, rows) && 0 < k < |rows|
    ensures Less(key(rows[0]), key(rows[k]))
  {
    if k > 1 {
      FirstIsLeast(key, rows[1..], k - 1);
      LessTransitive(key(rows[0]), key(rows[1]), key(rows[k]));
    }
  }

  lemma {:induction false} OrderedIsIndexed<T>(key: T -> string, rows: seq<T>)
    ensures Ordered(key, rows) <==> forall i, j :: 0 <= i < j < |rows| ==> Less(key(rows[i]), key(rows[j]))
  {
    if |rows| > 1 {
      var rest := rows[1..];
      OrderedIsIndexed(key, rest);
      if Ordered(key, rows) {
        forall i, j | 0 <= i < j < |rows| ensures Less(key(rows[i]), key(rows[j])) {
          if i == 0 {
            FirstIsLeast(key, rows, j);
          } else {
            assert rows[i] == rest[i - 1] && rows[j] == rest[j - 1];
          }
        }
      } else if Less(key(rows[0]), key(rows[1])) {
        var i, j :| 0 <= i < j < |rest| && !Less(key(rest[i]), key(rest[j]));
        assert rows[i + 1] == rest[i] && rows[j + 1] == rest[j];
      }
    }
  }

  lemma AppendOrders<T>(key: T -> string, rows: seq<T>, last: T)
    requires Ordered(key, rows) && forall row :: row in rows ==> Less(key(row), key(last))
    ensures Ordered(key, rows + [last])
  {
    OrderedIsIndexed(key, rows);
    OrderedIsIndexed(key, rows + [last]);
  }

  lemma FirstsAgree<T>(key: T -> string, a: seq<T>, b: seq<T>)
    requires Ordered(key, a) && Ordered(key, b) && multiset(a) == multiset(b) && a != [] && b != []
    ensures a[0] == b[0]
  {
    assert a[0] in multiset(b) && b[0] in multiset(a);
    var j :| 0 <= j < |b| && b[j] == a[0];
    var i :| 0 <= i < |a| && a[i] == b[0];
    if i > 0 && j > 0 {
      FirstIsLeast(key, a, i);
      FirstIsLeast(key, b, j);
      LessTotal(key(a[0]), key(b[0]));
    }
  }

  /** Two ordered lists of the same rows are the same list. */
  lemma {:induction false} OrderedIsUnique<T>(key: T -> string, a: seq<T>, b: seq<T>)
    requires Ordered(key, a) && Ordered(key, b) && multiset(a) == multiset(b)
    ensures a == b
  {
    if a == [] {
      assert |multiset(b)| == 0;
    } else {
      assert |multiset(b)| == |a|;
      FirstsAgree(key, a, b);
      assert a == [a[0]] + a[1..] && b == [b[0]] + b[1..];
      assert multiset(a[1..]) == multiset(a) - multiset{a[0]};
      assert multiset(b[1..]) == multiset(b) - multiset{b[0]};
      OrderedIsUnique(key, a[1..], b[1..]);
    }
  }

  lemma {:induction false} OrderedIsDistinct<T>(key: T -> string, rows: seq<T>)
    requires Ordered(key, rows)
    ensures Distinct(key, rows)
  {
    if rows != [] {
      OrderedIsDistinct(key, rows[1..]);
      if key(rows[0]) in Keys(key, rows[1..]) {
        var i :| 0 <= i < |rows| - 1 && key(rows[1..][i]) == key(rows[0]);
        FirstIsLeast(key, rows, i + 1);
        LessIrreflexive(key(rows[0]));
      }
    }
  }

  lemma {:induction false} DistinctIsIndexed<T>(key: T -> string, rows: seq<T>)
    ensures Distinct(key, rows) <==> forall i, j :: 0 <= i < j < |rows| ==> key(rows[i]) != key(rows[j])
  {
    if rows != [] {
      var rest := rows[1..];
      DistinctIsIndexed(key, rest);
      forall i | 0 <= i < |rest| ensures rest[i] == rows[i + 1] {
      }
      if Distinct(key, rows) {
        forall i, j | 0 <= i < j < |rows| ensures key(rows[i]) != key(rows[j]) {
          assert rows[j] == rest[j - 1];
          if i > 0 {
            assert rows[i] == rest[i - 1];
          }
        }
      } else if key(rows[0]) in Keys(key, rest) {
        var i :| 0 <= i < |rest| && key(rest[i]) == key(rows[0]);
        assert rows[i + 1] == rest[i];
      } else {
        var i, j :| 0 <= i < j < |rest| && key(rest[i]) == key(rest[j]);
        assert rows[i + 1] == rest[i] && rows[j + 1] == rest[j];
      }
    }
  }

  lemma {:induction false} KeysAppend<T>(key: T -> string, rows: seq<T>, last: T)
    ensures Keys(key, rows + [last]) == Keys(key, rows) + {key(last)}
  {
    if rows == [] {
      assert rows + [last] == [last];
    } else {
      KeysAppend(key, rows[1..], last);
      assert (rows + [last])[1..] == rows[1..] + [last];
    }
  }

  lemma {:induction false} DistinctAppend<T>(key: T -> string, rows: seq<T>, last: T)
    ensures Distinct(key, rows + [last]) <==> Distinct(key, rows) && key(last) !in Keys(key, rows)
  {
    if rows == [] {
      assert rows + [last] == [last];
    } else {
      DistinctAppend(key, rows[1..], last);
      KeysAppend(key, rows[1..], last);
      assert (rows + [last])[1..] == rows[1..] + [last];
    }
  }

  lemma {:induction false} DistinctPrefix<T>(key: T -> string, rows: seq<T>, n: nat)
    requires Distinct(key, rows) && n <= |rows|
    ensures Distinct(key, rows[..n])
  {
    if n < |rows| {
      var last := |rows| - 1;
      assert rows == rows[..last] + [rows[last]] && rows[..n] == rows[..last][..n];
      DistinctAppend(key, rows[..last], rows[last]);
      DistinctPrefix(key, rows[..last], n);
    } else {
      assert rows[..n] == rows;
    }
  }

  lemma OtherAt<T>(s: seq<T>, i: nat)
    requires i < |s|
    ensures multiset(s) == multiset(s[..i]) + multiset(s[i + 1..]) + multiset{s[i]}
  {
    assert s == s[..i] + [s[i]] + s[i + 1..];
  }

  /** Distinct keys mean distinct rows, so no row counts twice and order is all that differs. */
  lemma {:induction false} DistinctCounts<T>(key: T -> string, rows: seq<T>, row: T)
    requires Distinct(key, rows)
    ensures multiset(rows)[row] <= 1
  {
    if rows != [] {
      DistinctCounts(key, rows[1..], row);
      assert rows == [rows[0]] + rows[1..];
    }
  }

  lemma PermutedDistinct<T>(key: T -> string, a: seq<T>, b: seq<T>)
    requires Distinct(key, a) && multiset(a) == multiset(b)
    ensures Distinct(key, b)
  {
    DistinctIsIndexed(key, a);
    DistinctIsIndexed(key, b);
    forall i, j | 0 <= i < j < |b| ensures key(b[i]) != key(b[j]) {
      if b[i] == b[j] {
        OtherAt(b, i);
        assert b[j] == b[i + 1..][j - i - 1];
        assert b[i] in multiset(b[i + 1..]);
        DistinctCounts(key, a, b[i]);
      } else {
        assert b[i] in multiset(a) && b[j] in multiset(a);
        var k :| 0 <= k < |a| && a[k] == b[i];
        var m :| 0 <= m < |a| && a[m] == b[j];
      }
    }
  }

  /** Sorting forgets the order the rows came in. */
  lemma SortForgetsOrder<T>(key: T -> string, a: seq<T>, b: seq<T>)
    requires Distinct(key, a) && multiset(a) == multiset(b)
    ensures Sort(key, a) == Sort(key, b)
  {
    PermutedDistinct(key, a, b);
    SortOrders(key, a);
    SortOrders(key, b);
    OrderedIsUnique(key, Sort(key, a), Sort(key, b));
  }
}
