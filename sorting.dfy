/**
 * `DataFrame.sort_values(by=...)` on a parsed date column: the rows of every
 * column are rearranged by one permutation of the row positions that puts the
 * dates in non-decreasing order, NaT last. The order among equal dates is not
 * promised (pandas' default sort is not stable); this model picks one such
 * order, an insertion sort of the row positions.
 */
module Sorting {
  import opened Frames

  /** A cell of a parsed date column: a timestamp or NaT. */
  predicate IsDateKey(v: Value)
  {
    v.Stamp? || v.NaN?
  }

  predicate DateKeys(keys: seq<Value>)
  {
    forall i :: 0 <= i < |keys| ==> IsDateKey(keys[i])
  }

  /** The order `sort_values` uses on dates: by time, with NaT after every date. */
  predicate DateLe(a: Value, b: Value)
  {
    b.NaN? || (a.Stamp? && b.Stamp? && a.time <= b.time)
  }

  lemma DateLeTotal(a: Value, b: Value)
    requires IsDateKey(a) && IsDateKey(b)
    ensures DateLe(a, b) || DateLe(b, a)
  {
  }

  lemma DateLeTransitive(a: Value, b: Value, c: Value)
    requires IsDateKey(a) && DateLe(a, b) && DateLe(b, c)
    ensures DateLe(a, c)
  {
  }

  /** Every entry of p is a row position of a column of n cells. */
  predicate Positions(p: seq<nat>, n: nat)
  {
    forall j :: 0 <= j < |p| ==> p[j] < n
  }

  /** p lists each of the row positions 0..n-1 exactly once. */
  predicate IsPermutation(p: seq<nat>, n: nat)
  {
    multiset(p) == multiset(RangeIndex(n))
  }

  /** The rows of p are in order of their keys. */
  predicate SortedBy(keys: seq<Value>, p: seq<nat>)
    requires Positions(p, |keys|)
  {
    forall i, j :: 0 <= i < j < |p| ==> DateLe(keys[p[i]], keys[p[j]])
  }

  /** The cells of s taken in the order p. */
  function Permute<T>(s: seq<T>, p: seq<nat>): (r: seq<T>)
    requires Positions(p, |s|)
    ensures |r| == |p| && forall i :: 0 <= i < |p| ==> r[i] == s[p[i]]
  {
    seq(|p|, i requires 0 <= i < |p| => s[p[i]])
  }

  /** Row q goes into the order p after every row whose key is not greater. */
  function Insert(keys: seq<Value>, p: seq<nat>, q: nat): (r: seq<nat>)
    requires Positions(p, |keys|) && q < |keys|
    ensures |r| == |p| + 1 && Positions(r, |keys|)
    ensures multiset(r) == multiset(p) + multiset{q}
  {
    if p == [] then [q]
    else if DateLe(keys[p[0]], keys[q]) then
      var rest := Insert(keys, p[1..], q);
      assert p == [p[0]] + p[1..];
      assert multiset([p[0]] + rest) == multiset{p[0]} + multiset(rest);
      [p[0]] + rest
    else [q] + p
  }

  /** The insertion order of the first n rows. */
  function InsertionOrder(keys: seq<Value>, n: nat): (r: seq<nat>)
    requires n <= |keys|
    ensures |r| == n && Positions(r, |keys|)
    ensures IsPermutation(r, n)
  {
    if n == 0 then []
    else
      var r := Insert(keys, InsertionOrder(keys, n - 1), n - 1);
      assert RangeIndex(n) == RangeIndex(n - 1) + [n - 1];
      r
  }

  /** The permutation of the row positions that `sort_values` applies. */
  function SortOrder(keys: seq<Value>): (r: seq<nat>)
    ensures |r| == |keys| && Positions(r, |keys|) && IsPermutation(r, |keys|)
  {
    InsertionOrder(keys, |keys|)
  }

  // ---------------------------------------------------------------------------
  // Lemmas

  lemma {:induction false} InsertSorted(keys: seq<Value>, p: seq<nat>, q: nat)
    requires DateKeys(keys) && Positions(p, |keys|) && q < |keys| && SortedBy(keys, p)
    ensures SortedBy(keys, Insert(keys, p, q))
  {
    if p != [] {
      var r := Insert(keys, p, q);
      if DateLe(keys[p[0]], keys[q]) {
        var rest := Insert(keys, p[1..], q);
        InsertSorted(keys, p[1..], q);
        forall j | 0 <= j < |rest|
          ensures DateLe(keys[p[0]], keys[rest[j]])
        {
          assert rest[j] in multiset(rest);
          if rest[j] != q {
            assert rest[j] in multiset(p[1..]);
            var k :| 0 <= k < |p[1..]| && p[1..][k] == rest[j];
            assert p[k + 1] == rest[j];
          }
        }
        assert r == [p[0]] + rest;
      } else {
        DateLeTotal(keys[p[0]], keys[q]);
        forall j | 0 <= j < |p|
          ensures DateLe(keys[q], keys[p[j]])
        {
          if j > 0 {
            DateLeTransitive(keys[q], keys[p[0]], keys[p[j]]);
          }
        }
        assert r == [q] + p;
      }
    }
  }

  lemma {:induction false} InsertionOrderSorted(keys: seq<Value>, n: nat)
    requires DateKeys(keys) && n <= |keys|
    ensures SortedBy(keys, InsertionOrder(keys, n))
  {
    if n > 0 {
      var before := InsertionOrder(keys, n - 1);
      InsertionOrderSorted(keys, n - 1);
      InsertSorted(keys, before, n - 1);
      var r := Insert(keys, before, n - 1);
      assert SortedBy(keys, r);
      assert InsertionOrder(keys, n) == r;
    }
  }

  /** On a parsed date column the sort order lists the rows by non-decreasing
      date, NaT last. */
  lemma SortOrderSorted(keys: seq<Value>)
    requires DateKeys(keys)
    ensures SortedBy(keys, SortOrder(keys))
    ensures forall i, j :: 0 <= i < j < |keys| ==> DateLe(Permute(keys, SortOrder(keys))[i], Permute(keys, SortOrder(keys))[j])
  {
    InsertionOrderSorted(keys, |keys|);
  }

  /** Taking cells in the order x :: rest is taking cell x, then the cells in order rest. */
  lemma PermuteCons<T>(s: seq<T>, x: nat, rest: seq<nat>)
    requires x < |s| && Positions(rest, |s|)
    ensures Positions([x] + rest, |s|)
    ensures Permute(s, [x] + rest) == [s[x]] + Permute(s, rest)
  {
  }

  lemma {:induction false} PermuteInsert<T>(s: seq<T>, keys: seq<Value>, p: seq<nat>, q: nat)
    requires |s| == |keys| && Positions(p, |keys|) && q < |keys|
    ensures multiset(Permute(s, Insert(keys, p, q))) == multiset(Permute(s, p)) + multiset{s[q]}
  {
    if p == [] {
      assert Insert(keys, p, q) == [q];
    } else {
      var tail := p[1..];
      assert p == [p[0]] + tail;
      PermuteCons(s, p[0], tail);
      if DateLe(keys[p[0]], keys[q]) {
        var rest := Insert(keys, tail, q);
        assert Insert(keys, p, q) == [p[0]] + rest;
        PermuteInsert(s, keys, tail, q);
        PermuteCons(s, p[0], rest);
      } else {
        assert Insert(keys, p, q) == [q] + p;
        PermuteCons(s, q, p);
      }
    }
  }

  lemma PrefixMultiset<T>(s: seq<T>, n: nat)
    requires 0 < n <= |s|
    ensures multiset(s[..n]) == multiset(s[..n - 1]) + multiset{s[n - 1]}
  {
    assert s[..n] == s[..n - 1] + [s[n - 1]];
  }

  lemma {:induction false} PermuteInsertionOrder<T>(s: seq<T>, keys: seq<Value>, n: nat)
    requires |s| == |keys| && n <= |keys|
    ensures multiset(Permute(s, InsertionOrder(keys, n))) == multiset(s[..n])
  {
    if n > 0 {
      var before := InsertionOrder(keys, n - 1);
      assert InsertionOrder(keys, n) == Insert(keys, before, n - 1);
      PermuteInsertionOrder(s, keys, n - 1);
      PermuteInsert(s, keys, before, n - 1);
      PrefixMultiset(s, n);
    }
  }

  /** Rearranging any column of the table by the sort order keeps its cells:
      the sorted column is a permutation of the original one. */
  lemma PermuteSortOrder<T>(s: seq<T>, keys: seq<Value>)
    requires |s| == |keys|
    ensures multiset(Permute(s, SortOrder(keys))) == multiset(s)
  {
    PermuteInsertionOrder(s, keys, |keys|);
    assert s[..|keys|] == s;
  }

  // ---------------------------------------------------------------------------
  // The table operation

  /** `DataFrame.sort_values(by=key)`: every column and the index rearranged by
      the sort order of column `key`, so cells of one row stay together. */
  function SortValues(t: Table, key: string): (r: Table)
    requires Aligned(t) && key in t.columns
    ensures Aligned(r) && r.columns.Keys == t.columns.Keys
    ensures |r.index| == |t.index|
    ensures forall name :: name in t.columns ==>
              r.columns[name] == Permute(t.columns[name], SortOrder(t.columns[key]))
    ensures r.index == Permute(t.index, SortOrder(t.columns[key]))
  {
    var p := SortOrder(t.columns[key]);
    Table(map name | name in t.columns :: Permute(t.columns[name], p), Permute(t.index, p))
  }
}
