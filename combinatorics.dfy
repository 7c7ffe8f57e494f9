/** Sequence helpers shared by the woker table builders: `Vec::retain`,
    `itertools::combinations`, flattening nested loops, and distinctness. */
module Combinatorics {

  predicate Distinct<T(==)>(s: seq<T>) {
    forall i, j :: 0 <= i < j < |s| ==> s[i] != s[j]
  }

  /** `v.retain(|k| k != x)`: every element other than x, in order. */
  function Without(s: seq<nat>, x: nat): (r: seq<nat>)
    ensures forall y :: y in r <==> y in s && y != x
  {
    if s == [] then []
    else if s[0] == x then Without(s[1..], x)
    else [s[0]] + Without(s[1..], x)
  }

  /** Removing elements keeps every remaining one below a bound. */
  lemma {:induction false} WithoutBelow(s: seq<nat>, x: nat, n: nat)
    requires forall i :: 0 <= i < |s| ==> s[i] < n
    ensures forall i :: 0 <= i < |Without(s, x)| ==> Without(s, x)[i] < n
  {
    if s != [] {
      WithoutBelow(s[1..], x, n);
    }
  }

  /** Removing an element keeps the others distinct. */
  lemma {:induction false} WithoutDistinct(s: seq<nat>, x: nat)
    requires Distinct(s)
    ensures Distinct(Without(s, x))
  {
    if s != [] {
      WithoutDistinct(s[1..], x);
      if s[0] != x {
        assert s[0] !in s[1..];
      }
    }
  }

  /** Removing an element that occurs once shortens the list by one. */
  lemma {:induction false} WithoutLength(s: seq<nat>, x: nat)
    requires Distinct(s) && x in s
    ensures |Without(s, x)| == |s| - 1
  {
    if s[0] != x {
      WithoutLength(s[1..], x);
    } else {
      WithoutAbsent(s[1..], x);
    }
  }

  /** Removing an absent element changes nothing. */
  lemma {:induction false} WithoutAbsent(s: seq<nat>, x: nat)
    requires x !in s
    ensures Without(s, x) == s
  {
    if s != [] {
      WithoutAbsent(s[1..], x);
    }
  }

  /** `itertools::combinations(k)`: the k-element sub-lists of `s`, in
      lexicographic order of their positions in `s`. */
  function Combinations<T>(s: seq<T>, k: nat): (r: seq<seq<T>>)
    decreases |s|
  {
    if k == 0 then [[]]
    else if |s| < k then []
    else Prepend(s[0], Combinations(s[1..], k - 1)) + Combinations(s[1..], k)
  }

  /** Every list of `cs` with `x` put in front. */
  function Prepend<T>(x: T, cs: seq<seq<T>>): (r: seq<seq<T>>)
    ensures |r| == |cs|
    ensures forall i :: 0 <= i < |cs| ==> r[i] == [x] + cs[i]
  {
    seq(|cs|, i requires 0 <= i < |cs| => [x] + cs[i])
  }

  /** Every combination has k elements, all taken from `s`. */
  lemma {:induction false} CombinationsShape<T>(s: seq<T>, k: nat)
    ensures forall c :: c in Combinations(s, k) ==> |c| == k && forall x :: x in c ==> x in s
    decreases |s|
  {
    if k > 0 && |s| >= k {
      CombinationsShape(s[1..], k - 1);
      CombinationsShape(s[1..], k);
      var firsts := Combinations(s[1..], k - 1);
      var heads := Prepend(s[0], firsts);
      assert Combinations(s, k) == heads + Combinations(s[1..], k);
      forall c | c in heads ensures |c| == k && forall x :: x in c ==> x in s {
        var j :| 0 <= j < |firsts| && heads[j] == c;
        var f := firsts[j];
        assert f in firsts && c == [s[0]] + f;
        forall x | x in c ensures x in s {
          if x != s[0] {
            assert x in f && x in s[1..];
          }
        }
      }
    }
  }

  /** Combinations of elements below a bound have their elements below it. */
  lemma CombinationsBelow(s: seq<nat>, k: nat, n: nat)
    requires forall i :: 0 <= i < |s| ==> s[i] < n
    ensures forall c :: c in Combinations(s, k) ==> |c| == k && forall i :: 0 <= i < |c| ==> c[i] < n
  {
    CombinationsShape(s, k);
    forall c, i | c in Combinations(s, k) && 0 <= i < |c| ensures c[i] < n {
      assert c[i] in c;
    }
  }

  /** Binomial coefficient by Pascal's rule. */
  function Binom(n: nat, k: nat): nat {
    if k == 0 then 1
    else if n == 0 then 0
    else Binom(n - 1, k - 1) + Binom(n - 1, k)
  }

  lemma {:induction false} BinomAbove(n: nat, k: nat)
    requires n < k
    ensures Binom(n, k) == 0
  {
    if n > 0 {
      BinomAbove(n - 1, k - 1);
      BinomAbove(n - 1, k);
    }
  }

  /** C(n, 1) = n. */
  lemma {:induction false} BinomOne(n: nat)
    ensures Binom(n, 1) == n
  {
    if n > 0 {
      BinomOne(n - 1);
    }
  }

  /** C(n, 2) = n(n - 1) / 2. */
  lemma {:induction false} BinomTwo(n: nat)
    ensures 2 * Binom(n, 2) == n * (n - 1)
  {
    if n > 0 {
      BinomOne(n - 1);
      BinomTwo(n - 1);
    }
  }

  /** C(n, 3) = n(n - 1)(n - 2) / 6. */
  lemma {:induction false} BinomThree(n: nat)
    ensures 6 * Binom(n, 3) == n * (n - 1) * (n - 2)
  {
    if n > 0 {
      var m := n - 1;
      BinomTwo(m);
      BinomThree(m);
      var p := m * (m - 1);
      assert 6 * Binom(n, 3) == 3 * p + p * (m - 2);
      assert 3 * p + p * (m - 2) == p * (m + 1);
      MulRotate(n, m, m - 1);
    }
  }

  /** A product of three factors, the first moved last. */
  lemma MulRotate(a: int, b: int, c: int)
    ensures a * b * c == b * c * a
  { }

  /** There are C(|s|, k) combinations. */
  lemma {:induction false} CombinationsCount<T>(s: seq<T>, k: nat)
    ensures |Combinations(s, k)| == Binom(|s|, k)
    decreases |s|
  {
    if k == 0 {
    } else if |s| < k {
      BinomAbove(|s|, k);
    } else {
      CombinationsCount(s[1..], k - 1);
      CombinationsCount(s[1..], k);
      CombinationsSplit(s, k);
    }
  }

  /** The k-combinations of a list are those with its first element and
      those without. */
  lemma CombinationsSplit<T>(s: seq<T>, k: nat)
    requires 0 < k <= |s|
    ensures |Combinations(s, k)| == |Combinations(s[1..], k - 1)| + |Combinations(s[1..], k)|
    ensures Binom(|s|, k) == Binom(|s[1..]|, k - 1) + Binom(|s[1..]|, k)
  {
    var heads := Prepend(s[0], Combinations(s[1..], k - 1));
    assert Combinations(s, k) == heads + Combinations(s[1..], k);
    BinomStep(|s|, k);
  }

  /** Pascal's rule. */
  lemma BinomStep(n: nat, k: nat)
    requires 0 < k <= n
    ensures Binom(n, k) == Binom(n - 1, k - 1) + Binom(n - 1, k)
  { }

  /** There are n(n - 1) / 2 pairs. */
  lemma CombinationsPairs<T>(s: seq<T>)
    ensures 2 * |Combinations(s, 2)| == |s| * (|s| - 1)
  {
    CombinationsCount(s, 2);
    BinomTwo(|s|);
  }

  /** There are n(n - 1)(n - 2) / 6 triples. */
  lemma CombinationsTriples<T>(s: seq<T>)
    ensures 6 * |Combinations(s, 3)| == |s| * (|s| - 1) * (|s| - 2)
  {
    CombinationsCount(s, 3);
    BinomThree(|s|);
  }

  /** The ranks the table builders loop over, highest first. */
  predicate Descending(s: seq<nat>) {
    forall i, j :: 0 <= i < j < |s| ==> s[i] > s[j]
  }

  /** Combinations of a descending list are descending, and no two are equal. */
  lemma {:induction false} CombinationsDescending(s: seq<nat>, k: nat)
    requires Descending(s)
    ensures forall c :: c in Combinations(s, k) ==> Descending(c)
    ensures Distinct(Combinations(s, k))
    decreases |s|
  {
    if k > 0 && |s| >= k {
      var tail := s[1..];
      CombinationsDescending(tail, k - 1);
      CombinationsDescending(tail, k);
      PrependDescending(s, k - 1);
      CombinationsShape(tail, k);
      var firsts := Prepend(s[0], Combinations(tail, k - 1));
      var rest := Combinations(tail, k);
      forall c | c in rest ensures forall c' :: c' in firsts ==> c != c' {
        assert c[0] in tail;
      }
      DistinctAppend(firsts, rest);
    }
  }

  /** Putting the head of `s` in front of the descending combinations of its tail. */
  lemma PrependDescending(s: seq<nat>, k: nat)
    requires Descending(s) && |s| > 0
    requires forall c :: c in Combinations(s[1..], k) ==> Descending(c)
    requires Distinct(Combinations(s[1..], k))
    ensures forall c :: c in Prepend(s[0], Combinations(s[1..], k)) ==> Descending(c) && c[0] == s[0]
    ensures Distinct(Prepend(s[0], Combinations(s[1..], k)))
  {
    var cs := Combinations(s[1..], k);
    CombinationsShape(s[1..], k);
    forall c | c in Prepend(s[0], cs) ensures Descending(c) && c[0] == s[0] {
      var i :| 0 <= i < |cs| && Prepend(s[0], cs)[i] == c;
      HeadAboveTail(s, cs[i]);
    }
    DistinctPrepend(s[0], cs);
  }

  lemma HeadAboveTail(s: seq<nat>, c: seq<nat>)
    requires Descending(s) && |s| > 0 && Descending(c)
    requires forall x :: x in c ==> x in s[1..]
    ensures Descending([s[0]] + c)
  {
    forall j | 0 < j < |[s[0]] + c| ensures s[0] > ([s[0]] + c)[j] {
      assert c[j - 1] in s[1..];
    }
  }

  lemma DistinctPrepend<T>(x: T, cs: seq<seq<T>>)
    requires Distinct(cs)
    ensures Distinct(Prepend(x, cs))
  {
    forall i, j | 0 <= i < j < |cs| ensures Prepend(x, cs)[i] != Prepend(x, cs)[j] {
      assert Prepend(x, cs)[i][1..] == cs[i];
      assert Prepend(x, cs)[j][1..] == cs[j];
    }
  }

  /** Two lists without repeats and without common elements concatenate without repeats. */
  lemma DistinctAppend<T>(a: seq<T>, b: seq<T>)
    requires Distinct(a) && Distinct(b)
    requires forall x, y :: x in a && y in b ==> x != y
    ensures Distinct(a + b)
  {
    forall i, j | 0 <= i < j < |a + b| ensures (a + b)[i] != (a + b)[j] {
      if j >= |a| && i < |a| {
        assert (a + b)[i] in a && (a + b)[j] in b;
      }
    }
  }

  /** The rows of a nested loop, one after another. */
  function Flatten<T>(rows: seq<seq<T>>): (r: seq<T>)
  {
    if rows == [] then [] else Flatten(rows[..|rows| - 1]) + rows[|rows| - 1]
  }

  /** Rows of equal length n flatten to |rows| * n elements. */
  lemma {:induction false} FlattenLength<T>(rows: seq<seq<T>>, n: nat)
    requires forall i :: 0 <= i < |rows| ==> |rows[i]| == n
    ensures |Flatten(rows)| == |rows| * n
  {
    if rows != [] {
      var m := |rows| - 1;
      var init := rows[..m];
      assert forall i :: 0 <= i < |init| ==> init[i] == rows[i];
      FlattenLength(init, n);
      assert |Flatten(rows)| == m * n + n;
      assert m * n + n == (m + 1) * n;
    }
  }

  /** One more row. */
  lemma FlattenSnoc<T>(rows: seq<seq<T>>, a: nat)
    requires a < |rows|
    ensures Flatten(rows[..a + 1]) == Flatten(rows[..a]) + rows[a]
  {
    assert rows[..a + 1][..a] == rows[..a];
  }

  /** Every element of the flattened rows comes from some row. */
  lemma {:induction false} FlattenMember<T>(rows: seq<seq<T>>, x: T) returns (a: nat)
    requires x in Flatten(rows)
    ensures a < |rows| && x in rows[a]
  {
    var init := rows[..|rows| - 1];
    if x in rows[|rows| - 1] {
      a := |rows| - 1;
    } else {
      a := FlattenMember(init, x);
      assert init[a] == rows[a];
    }
  }

  /** Rows without repeats and without common elements flatten without repeats. */
  lemma {:induction false} FlattenDistinct<T>(rows: seq<seq<T>>)
    requires forall a :: 0 <= a < |rows| ==> Distinct(rows[a])
    requires forall a, a', x :: 0 <= a < a' < |rows| && x in rows[a] ==> x !in rows[a']
    ensures Distinct(Flatten(rows))
  {
    if rows != [] {
      var init, last := rows[..|rows| - 1], rows[|rows| - 1];
      FlattenDistinct(init);
      forall x, y | x in Flatten(init) && y in last ensures x != y {
        var a := FlattenMember(init, x);
        assert x in rows[a];
      }
      DistinctAppend(Flatten(init), last);
    }
  }

  /** A strictly descending list has no repeats. */
  lemma DescendingDistinct(s: seq<nat>)
    requires Descending(s)
    ensures Distinct(s)
  {
  }

  /** Removing an element keeps a descending list descending. */
  lemma {:induction false} WithoutDescending(s: seq<nat>, x: nat)
    requires Descending(s)
    ensures Descending(Without(s, x))
  {
    if s != [] {
      WithoutDescending(s[1..], x);
      if s[0] != x {
        var rest := Without(s[1..], x);
        forall j | 0 <= j < |rest| ensures s[0] > rest[j] {
          assert rest[j] in s[1..];
        }
        assert Without(s, x) == [s[0]] + rest;
      }
    }
  }
}
