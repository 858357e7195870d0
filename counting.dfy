/** Counting and de-duplication over sequences: the group-by-count
    operations (`value_counts`, `drop_duplicates`, `nunique`, `set`) that
    both variants take from pandas and Python, written out. */
module Counting {

  /** No value occurs twice. */
  predicate Distinct<T(==)>(s: seq<T>)
  {
    forall i, j :: 0 <= i < j < |s| ==> s[i] != s[j]
  }

  /** Every row has exactly `w` entries. */
  predicate Rectangular<T>(data: seq<seq<T>>, w: nat)
  {
    forall r :: 0 <= r < |data| ==> |data[r]| == w
  }

  /** The number of occurrences of `x` in `s`. */
  function Count<T(==)>(s: seq<T>, x: T): (n: nat)
    ensures n <= |s|
    ensures n == 0 <==> x !in s
  {
    if s == [] then 0
    else
      assert s == s[..|s| - 1] + [s[|s| - 1]];
      Count(s[..|s| - 1], x) + (if s[|s| - 1] == x then 1 else 0)
  }

  lemma {:induction false} CountAppend<T>(a: seq<T>, b: seq<T>, x: T)
    ensures Count(a + b, x) == Count(a, x) + Count(b, x)
  {
    if b != [] {
      assert (a + b)[..|a + b| - 1] == a + b[..|b| - 1];
      CountAppend(a, b[..|b| - 1], x);
    } else {
      assert a + b == a;
    }
  }

  /** A value of a sequence without repetitions occurs in it exactly once. */
  lemma {:induction false} DistinctCountOne<T>(s: seq<T>, x: T)
    requires Distinct(s) && x in s
    ensures Count(s, x) == 1
  {
    var n := |s|;
    if s[n - 1] == x {
      assert x !in s[..n - 1];
    } else {
      DistinctCountOne(s[..n - 1], x);
    }
  }

  /** The values of `s`, each once, in the order of their first occurrence
      (`drop_duplicates`, `unique`). */
  function Dedup<T(==)>(s: seq<T>): (d: seq<T>)
    ensures Distinct(d)
    ensures |d| <= |s|
    ensures forall i :: 0 <= i < |d| ==> d[i] in s
    ensures forall k :: 0 <= k < |s| ==> s[k] in d
  {
    if s == [] then []
    else
      var p := Dedup(s[..|s| - 1]);
      assert s == s[..|s| - 1] + [s[|s| - 1]];
      if s[|s| - 1] in p then p else p + [s[|s| - 1]]
  }

  /** De-duplication keeps exactly the values of `s`. */
  lemma DedupSameValues<T>(s: seq<T>, x: T)
    ensures x in Dedup(s) <==> x in s
  {
    var d := Dedup(s);
    if x in d {
      var i :| 0 <= i < |d| && d[i] == x;
    }
    if x in s {
      var k :| 0 <= k < |s| && s[k] == x;
    }
  }

  /** The number of distinct values of `s` (`nunique`, `len(set(...))`). */
  function DistinctCount<T(==)>(s: seq<T>): (n: nat)
    ensures n <= |s|
    ensures n == 0 <==> s == []
  {
    var d := Dedup(s);
    assert s != [] ==> s[0] in d;
    |d|
  }

  /** Every element is the same value. */
  predicate AllSame<T(==)>(s: seq<T>)
  {
    forall i, j :: 0 <= i < |s| && 0 <= j < |s| ==> s[i] == s[j]
  }

  /** One distinct value exactly when the non-empty sequence is constant. */
  lemma SingleDistinctIffConstant<T>(s: seq<T>)
    requires s != []
    ensures DistinctCount(s) == 1 <==> AllSame(s)
  {
    var d := Dedup(s);
    if AllSame(s) {
      assert s[0] in d;
      DistinctCardinality(d);
      assert (set x | x in d) == {s[0]};
      assert |d| == 1;
    }
    if |d| == 1 {
      forall i, j | 0 <= i < |s| && 0 <= j < |s| ensures s[i] == s[j] {
        assert s[i] in d && s[j] in d;
      }
    }
  }

  /** A sequence without repetitions has as many elements as its set. */
  lemma {:induction false} DistinctCardinality<T>(d: seq<T>)
    requires Distinct(d)
    ensures |set x | x in d| == |d|
  {
    if d != [] {
      var n := |d|;
      var p := d[..n - 1];
      DistinctCardinality(p);
      assert (set x | x in d) == (set x | x in p) + {d[n - 1]};
      assert d[n - 1] !in (set x | x in p);
    }
  }

  /** `nunique` and `len(set(...))` agree. */
  lemma DistinctCountIsSetSize<T>(s: seq<T>)
    ensures DistinctCount(s) == |set x | x in s|
  {
    var d := Dedup(s);
    DistinctCardinality(d);
    assert (set x | x in d) == (set x | x in s);
  }

  /** The pairs (key, number of occurrences of key in `s`), one per key. */
  function CountsFor<T(==)>(s: seq<T>, keys: seq<T>): (t: seq<(T, nat)>)
    ensures |t| == |keys|
    ensures forall i :: 0 <= i < |t| ==> t[i].0 == keys[i] && t[i].1 == Count(s, keys[i])
  {
    if keys == [] then [] else [(keys[0], Count(s, keys[0]))] + CountsFor(s, keys[1..])
  }

  /** The sum of the counts of a table of counts. */
  function TotalCount<T>(t: seq<(T, nat)>): nat
  {
    if t == [] then 0 else t[0].1 + TotalCount(t[1..])
  }

  lemma {:induction false} TotalCountEmpty<T>(keys: seq<T>)
    ensures TotalCount(CountsFor([], keys)) == 0
  {
    if keys != [] {
      TotalCountEmpty(keys[1..]);
    }
  }

  lemma {:induction false} TotalCountSnoc<T>(s: seq<T>, y: T, keys: seq<T>)
    ensures TotalCount(CountsFor(s + [y], keys)) == TotalCount(CountsFor(s, keys)) + Count(keys, y)
  {
    if keys != [] {
      TotalCountSnoc(s, y, keys[1..]);
      assert (s + [y])[..|s + [y]| - 1] == s;
      CountAppend([keys[0]], keys[1..], y);
      assert [keys[0]] + keys[1..] == keys;
    }
  }

  /** Counting every value of `s` against a key list that holds each value
      of `s` exactly once accounts for every element of `s`. */
  lemma {:induction false} TotalCountCovers<T>(s: seq<T>, keys: seq<T>)
    requires Distinct(keys)
    requires forall x :: x in s ==> x in keys
    ensures TotalCount(CountsFor(s, keys)) == |s|
  {
    if s == [] {
      TotalCountEmpty(keys);
    } else {
      var n := |s|;
      var p := s[..n - 1];
      assert s == p + [s[n - 1]];
      TotalCountCovers(p, keys);
      TotalCountSnoc(p, s[n - 1], keys);
      DistinctCountOne(keys, s[n - 1]);
    }
  }

  /** `value_counts`: each distinct value of `s` once, in order of first
      occurrence, with its number of occurrences. */
  function Tally<T(==)>(s: seq<T>): (t: seq<(T, nat)>)
    ensures forall i, j :: 0 <= i < j < |t| ==> t[i].0 != t[j].0
    ensures forall i :: 0 <= i < |t| ==> t[i].0 in s
    ensures forall k :: 0 <= k < |s| ==> exists i :: 0 <= i < |t| && t[i].0 == s[k]
    ensures forall i :: 0 <= i < |t| ==> t[i].1 == Count(s, t[i].0) && t[i].1 >= 1
    ensures TotalCount(t) == |s|
  {
    var d := Dedup(s);
    var t := CountsFor(s, d);
    forall k | 0 <= k < |s| ensures exists i :: 0 <= i < |t| && t[i].0 == s[k] {
      var i :| 0 <= i < |d| && d[i] == s[k];
      assert t[i].0 == s[k];
    }
    TotalCountCovers(s, d);
    t
  }

  /** Column `c` of a table: the `c`-th entry of every row. */
  function Column<T>(data: seq<seq<T>>, c: nat): (col: seq<T>)
    requires forall r :: 0 <= r < |data| ==> c < |data[r]|
    ensures |col| == |data|
    ensures forall r :: 0 <= r < |data| ==> col[r] == data[r][c]
  {
    if data == [] then [] else [data[0][c]] + Column(data[1..], c)
  }

  /** All entries of a table, row after row. */
  function Flatten<T>(data: seq<seq<T>>): (flat: seq<T>)
    ensures forall r, c :: 0 <= r < |data| && 0 <= c < |data[r]| ==> data[r][c] in flat
  {
    if data == [] then []
    else
      var rest := Flatten(data[1..]);
      assert forall r, c :: 1 <= r < |data| && 0 <= c < |data[r]| ==> data[r][c] in rest by {
        forall r, c | 1 <= r < |data| && 0 <= c < |data[r]| ensures data[r][c] in rest {
          assert data[r] == data[1..][r - 1];
        }
      }
      data[0] + rest
  }
}
