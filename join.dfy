/**
 * The two table operations the reconciliation takes from pandas, on
 * sequences of rows: `drop_duplicates(subset=key, keep='first')` together
 * with the `duplicated(subset=key, keep=False)` mask it is reported with,
 * and `merge(left, right, how='left')`.
 */
module Join {
  import opened Wrappers

  /** No two rows of `s` share a key. */
  predicate UniqueKeys<T, K(==)>(s: seq<T>, key: T -> K) {
    forall i, j | 0 <= i < j < |s| :: key(s[i]) != key(s[j])
  }

  /** No element of `s` occurs twice. */
  predicate Distinct<T(==)>(s: seq<T>) {
    UniqueKeys(s, (x: T) => x)
  }

  function KeySet<T, K(==)>(s: seq<T>, key: T -> K): set<K> {
    set i | 0 <= i < |s| :: key(s[i])
  }

  // ---------------------------------------------------------------------
  // De-duplication
  // ---------------------------------------------------------------------

  /** Row `i` is the first row of `s` with its key. */
  predicate IsFirstOf<T, K(==)>(s: seq<T>, key: T -> K, i: int)
    requires 0 <= i < |s|
  {
    forall j | 0 <= j < i :: key(s[j]) != key(s[i])
  }

  /** `drop_duplicates(keep='first')`: the rows that are first with their key, in input order. */
  function KeepFirst<T, K(==)>(s: seq<T>, key: T -> K): (r: seq<T>)
    ensures |r| <= |s|
    ensures forall x | x in r :: x in s
  {
    if s == [] then []
    else
      var n := |s| - 1;
      KeepFirst(s[..n], key) + (if IsFirstOf(s, key, n) then [s[n]] else [])
  }

  /** Number of rows of `s` with key `k`. */
  function Occurrences<T, K(==)>(s: seq<T>, key: T -> K, k: K): nat {
    if s == [] then 0
    else Occurrences(s[..|s| - 1], key, k) + (if key(s[|s| - 1]) == k then 1 else 0)
  }

  /** Number of the first `n` rows of `s` whose key occurs more than once in `s`. */
  function DuplicatedAmong<T, K(==)>(s: seq<T>, key: T -> K, n: nat): (r: nat)
    requires n <= |s|
    ensures r <= n
  {
    if n == 0 then 0
    else DuplicatedAmong(s, key, n - 1) + (if Occurrences(s, key, key(s[n - 1])) >= 2 then 1 else 0)
  }

  /** `duplicated(keep=False).sum()`: every row of a repeated key counts, the first included. */
  function DuplicatedCount<T, K(==)>(s: seq<T>, key: T -> K): (r: nat)
    ensures r <= |s|
  {
    DuplicatedAmong(s, key, |s|)
  }

  method DropDuplicates<T, K(==)>(s: seq<T>, key: T -> K) returns (kept: seq<T>)
    ensures kept == KeepFirst(s, key)
  {
    kept := [];
    var seen: set<K> := {};
    for i := 0 to |s|
      invariant kept == KeepFirst(s[..i], key)
      invariant seen == KeySet(s[..i], key)
    {
      assert s[..i + 1][..i] == s[..i];
      assert IsFirstOf(s[..i + 1], key, i) <==> key(s[i]) !in seen by {
        if key(s[i]) in seen {
          var j :| 0 <= j < i && key(s[..i][j]) == key(s[i]);
          assert key(s[..i + 1][j]) == key(s[..i + 1][i]);
        }
      }
      if key(s[i]) !in seen {
        kept := kept + [s[i]];
      }
      seen := seen + {key(s[i])};
      assert KeySet(s[..i + 1], key) == KeySet(s[..i], key) + {key(s[i])} by {
        forall x | x in KeySet(s[..i + 1], key) ensures x in KeySet(s[..i], key) + {key(s[i])} {
          var j :| 0 <= j < i + 1 && key(s[..i + 1][j]) == x;
          if j < i { assert key(s[..i][j]) == x; }
        }
        forall x | x in KeySet(s[..i], key) ensures x in KeySet(s[..i + 1], key) {
          var j :| 0 <= j < i && key(s[..i][j]) == x;
          assert key(s[..i + 1][j]) == x;
        }
        assert key(s[..i + 1][i]) == key(s[i]);
      }
    }
    assert s[..|s|] == s;
  }

  method CountDuplicated<T, K(==)>(s: seq<T>, key: T -> K) returns (count: nat)
    ensures count == DuplicatedCount(s, key)
  {
    count := 0;
    for i := 0 to |s|
      invariant count == DuplicatedAmong(s, key, i)
    {
      var k := key(s[i]);
      var occ := 0;
      for j := 0 to |s|
        invariant occ == Occurrences(s[..j], key, k)
      {
        assert s[..j + 1][..j] == s[..j];
        if key(s[j]) == k {
          occ := occ + 1;
        }
      }
      assert s[..|s|] == s;
      if occ >= 2 {
        count := count + 1;
      }
    }
  }

  lemma {:induction false} KeepFirstKeys<T, K>(s: seq<T>, key: T -> K)
    ensures KeySet(KeepFirst(s, key), key) == KeySet(s, key)
  {
    if s != [] {
      var n := |s| - 1;
      var p := s[..n];
      KeepFirstKeys(p, key);
      var tail := if IsFirstOf(s, key, n) then [s[n]] else [];
      var r := KeepFirst(p, key) + tail;
      assert KeySet(s, key) == KeySet(p, key) + {key(s[n])} by {
        forall x | x in KeySet(s, key) ensures x in KeySet(p, key) + {key(s[n])} {
          var j :| 0 <= j < |s| && key(s[j]) == x;
          if j < n { assert key(p[j]) == x; }
        }
        forall x | x in KeySet(p, key) ensures x in KeySet(s, key) {
          var j :| 0 <= j < n && key(p[j]) == x;
          assert key(s[j]) == x;
        }
      }
      assert KeySet(r, key) == KeySet(KeepFirst(p, key), key) + KeySet(tail, key) by {
        var q := KeepFirst(p, key);
        forall x | x in KeySet(r, key) ensures x in KeySet(q, key) + KeySet(tail, key) {
          var j :| 0 <= j < |r| && key(r[j]) == x;
          if j < |q| { assert r[j] == q[j]; } else { assert r[j] == tail[j - |q|]; }
        }
        forall x | x in KeySet(q, key) ensures x in KeySet(r, key) {
          var j :| 0 <= j < |q| && key(q[j]) == x;
          assert r[j] == q[j];
        }
        forall x | x in KeySet(tail, key) ensures x in KeySet(r, key) {
          var j :| 0 <= j < |tail| && key(tail[j]) == x;
          assert r[|q| + j] == tail[j];
        }
      }
      if !IsFirstOf(s, key, n) {
        var j :| 0 <= j < n && key(s[j]) == key(s[n]);
        assert key(p[j]) == key(s[n]);
      } else {
        assert KeySet(tail, key) == {key(s[n])} by {
          assert key(tail[0]) == key(s[n]);
        }
      }
    }
  }

  /** After `drop_duplicates`, the join key is unique. */
  lemma {:induction false} KeepFirstUnique<T, K>(s: seq<T>, key: T -> K)
    ensures UniqueKeys(KeepFirst(s, key), key)
  {
    if s != [] {
      var n := |s| - 1;
      var p := s[..n];
      KeepFirstUnique(p, key);
      if IsFirstOf(s, key, n) {
        KeepFirstKeys(p, key);
        var q := KeepFirst(p, key);
        var r := q + [s[n]];
        forall i, j | 0 <= i < j < |r| ensures key(r[i]) != key(r[j]) {
          if j == |q| {
            assert key(q[i]) in KeySet(p, key);
            var m :| 0 <= m < n && key(p[m]) == key(q[i]);
            assert key(s[m]) == key(q[i]);
          } else {
            assert r[i] == q[i] && r[j] == q[j];
          }
        }
      }
    }
  }

  /** `drop_duplicates` changes nothing when there is no duplicate key. */
  lemma {:induction false} KeepFirstOfUnique<T, K>(s: seq<T>, key: T -> K)
    requires UniqueKeys(s, key)
    ensures KeepFirst(s, key) == s
  {
    if s != [] {
      var n := |s| - 1;
      assert UniqueKeys(s[..n], key);
      KeepFirstOfUnique(s[..n], key);
      assert IsFirstOf(s, key, n);
      assert s[..n] + [s[n]] == s;
    }
  }

  lemma {:induction false} OccurrencesPrefix<T, K>(s: seq<T>, key: T -> K, i: nat, j: nat)
    requires i < j < |s| && key(s[i]) == key(s[j])
    ensures Occurrences(s, key, key(s[j])) >= 2
  {
    var n := |s| - 1;
    if j < n {
      OccurrencesPrefix(s[..n], key, i, j);
    } else {
      OccurrencesOne(s[..n], key, i);
    }
  }

  lemma {:induction false} OccurrencesOne<T, K>(s: seq<T>, key: T -> K, i: nat)
    requires i < |s|
    ensures Occurrences(s, key, key(s[i])) >= 1
  {
    var n := |s| - 1;
    if i < n {
      OccurrencesOne(s[..n], key, i);
    }
  }

  lemma {:induction false} OccurrencesUnique<T, K>(s: seq<T>, key: T -> K, k: K)
    requires UniqueKeys(s, key)
    ensures Occurrences(s, key, k) <= 1
  {
    if s != [] {
      var n := |s| - 1;
      assert UniqueKeys(s[..n], key);
      OccurrencesUnique(s[..n], key, k);
      if key(s[n]) == k && Occurrences(s[..n], key, k) == 1 {
        OccurrencesWitness(s[..n], key, k);
      }
    }
  }

  lemma {:induction false} OccurrencesWitness<T, K>(s: seq<T>, key: T -> K, k: K)
    requires Occurrences(s, key, k) >= 1
    ensures exists i | 0 <= i < |s| :: key(s[i]) == k
  {
    var n := |s| - 1;
    if key(s[n]) != k {
      OccurrencesWitness(s[..n], key, k);
      var i :| 0 <= i < n && key(s[..n][i]) == k;
      assert key(s[i]) == k;
    }
  }

  lemma {:induction false} DuplicatedAmongZero<T, K>(s: seq<T>, key: T -> K, n: nat)
    requires n <= |s|
    ensures DuplicatedAmong(s, key, n) == 0 <==>
      forall i | 0 <= i < n :: Occurrences(s, key, key(s[i])) < 2
  {
    if n > 0 {
      DuplicatedAmongZero(s, key, n - 1);
    }
  }

  /** The warning count is zero exactly when the join key is already unique. */
  lemma DuplicatedCountZero<T, K>(s: seq<T>, key: T -> K)
    ensures DuplicatedCount(s, key) == 0 <==> UniqueKeys(s, key)
  {
    DuplicatedAmongZero(s, key, |s|);
    if UniqueKeys(s, key) {
      forall i | 0 <= i < |s| ensures Occurrences(s, key, key(s[i])) < 2 {
        OccurrencesUnique(s, key, key(s[i]));
      }
    } else {
      var i, j :| 0 <= i < j < |s| && key(s[i]) == key(s[j]);
      OccurrencesPrefix(s, key, i, j);
    }
  }

  /** Rows `n..` of `s` that are not first with their key. */
  lemma {:induction false} DiscardedAmong<T, K>(s: seq<T>, key: T -> K, n: nat)
    requires n <= |s|
    ensures n - |KeepFirst(s[..n], key)| <= DuplicatedAmong(s, key, n)
  {
    if n > 0 {
      var p := s[..n];
      assert p[..n - 1] == s[..n - 1];
      DiscardedAmong(s, key, n - 1);
      if !IsFirstOf(p, key, n - 1) {
        var j :| 0 <= j < n - 1 && key(p[j]) == key(p[n - 1]);
        OccurrencesPrefix(s, key, j, n - 1);
      }
    }
  }

  /**
   * The warning counts at least as many rows as `drop_duplicates` discards:
   * it counts every row of a repeated key, the kept one included.
   */
  lemma DuplicatedCountBound<T, K>(s: seq<T>, key: T -> K)
    ensures |s| - |KeepFirst(s, key)| <= DuplicatedCount(s, key)
  {
    DiscardedAmong(s, key, |s|);
    assert s[..|s|] == s;
  }

  // ---------------------------------------------------------------------
  // Left join
  // ---------------------------------------------------------------------

  /** The rows of `right` with key `k`, in the order of `right`. */
  function Matching<R, K(==)>(right: seq<R>, rk: R -> K, k: K): seq<R> {
    if right == [] then []
    else
      var n := |right| - 1;
      Matching(right[..n], rk, k) + (if rk(right[n]) == k then [right[n]] else [])
  }

  /** The first row of `right` with key `k`, if there is one. */
  function Lookup<R, K(==)>(right: seq<R>, rk: R -> K, k: K): (r: Option<R>)
    ensures r.None? <==> forall j | 0 <= j < |right| :: rk(right[j]) != k
    ensures r.Some? ==> exists j | 0 <= j < |right| ::
      right[j] == r.value && rk(right[j]) == k && forall i | 0 <= i < j :: rk(right[i]) != k
  {
    if right == [] then None
    else if rk(right[0]) == k then Some(right[0])
    else
      var r := Lookup(right[1..], rk, k);
      assert r.Some? ==> exists j | 1 <= j < |right| ::
        right[j] == r.value && rk(right[j]) == k && forall i | 0 <= i < j :: rk(right[i]) != k
      by {
        if r.Some? {
          var j :| 0 <= j < |right[1..]| && right[1..][j] == r.value && rk(right[1..][j]) == k
            && forall i | 0 <= i < j :: rk(right[1..][i]) != k;
          assert forall i | 0 <= i < j + 1 :: rk(right[i]) != k by {
            forall i | 0 <= i < j + 1 ensures rk(right[i]) != k {
              if i > 0 { assert right[i] == right[1..][i - 1]; }
            }
          }
        }
      }
      r
  }

  /** The output rows of one left row: one per match, or one with no match. */
  function JoinRow<L, R, K(==), O>(l: L, right: seq<R>, lk: L -> K, rk: R -> K,
                                   combine: (L, Option<R>) -> O): seq<O>
  {
    var m := Matching(right, rk, lk(l));
    if m == [] then [combine(l, None)]
    else seq(|m|, j requires 0 <= j < |m| => combine(l, Some(m[j])))
  }

  /** Every output row of one left row is that row combined with a match or with none. */
  lemma JoinRowElements<L, R, K, O>(l: L, right: seq<R>, lk: L -> K, rk: R -> K,
                                    combine: (L, Option<R>) -> O, o: O) returns (m: Option<R>)
    requires o in JoinRow(l, right, lk, rk, combine)
    ensures o == combine(l, m)
  {
    var ms := Matching(right, rk, lk(l));
    if ms == [] {
      m := None;
    } else {
      var out := seq(|ms|, i requires 0 <= i < |ms| => combine(l, Some(ms[i])));
      assert JoinRow(l, right, lk, rk, combine) == out;
      var j :| 0 <= j < |ms| && o == out[j];
      m := Some(ms[j]);
    }
  }

  /** `pd.merge(left, right, how='left')`: left rows in order, each followed by its matches. */
  function LeftJoin<L, R, K(==), O>(left: seq<L>, right: seq<R>, lk: L -> K, rk: R -> K,
                                    combine: (L, Option<R>) -> O): (out: seq<O>)
    ensures |out| >= |left|
  {
    if left == [] then []
    else
      var n := |left| - 1;
      LeftJoin(left[..n], right, lk, rk, combine) + JoinRow(left[n], right, lk, rk, combine)
  }

  /** The lookup returns the row at the first index with the key. */
  lemma LookupAt<R, K>(right: seq<R>, rk: R -> K, k: K, j: nat)
    requires j < |right| && rk(right[j]) == k && forall i | 0 <= i < j :: rk(right[i]) != k
    ensures Lookup(right, rk, k) == Some(right[j])
  {
    var l := Lookup(right, rk, k);
    var j' :| 0 <= j' < |right| && right[j'] == l.value && rk(right[j']) == k
              && forall i | 0 <= i < j' :: rk(right[i]) != k;
    assert !(j' < j) && !(j < j');
  }

  /** A key found in a prefix is found at the same row in the whole sequence. */
  lemma LookupExtends<R, K>(right: seq<R>, rk: R -> K, k: K, n: nat)
    requires |right| == n + 1 && Lookup(right[..n], rk, k).Some?
    ensures Lookup(right, rk, k) == Lookup(right[..n], rk, k)
  {
    var prefix := right[..n];
    var j :| 0 <= j < n && prefix[j] == Lookup(prefix, rk, k).value && rk(prefix[j]) == k
             && forall i | 0 <= i < j :: rk(prefix[i]) != k;
    assert forall i | 0 <= i <= j :: right[i] == prefix[i];
    LookupAt(right, rk, k, j);
  }

  /** A key missing from a prefix is found only in the last row, if there. */
  lemma LookupLast<R, K>(right: seq<R>, rk: R -> K, k: K, n: nat)
    requires |right| == n + 1 && Lookup(right[..n], rk, k).None?
    ensures Lookup(right, rk, k) == if rk(right[n]) == k then Some(right[n]) else None
  {
    assert forall i | 0 <= i < n :: right[i] == right[..n][i];
    if rk(right[n]) == k {
      LookupAt(right, rk, k, n);
    }
  }

  /** The looked-up row is the first of the matches, as the join lists them. */
  lemma {:induction false} LookupIsFirstMatch<R, K>(right: seq<R>, rk: R -> K, k: K)
    ensures Lookup(right, rk, k) == if Matching(right, rk, k) == [] then None else Some(Matching(right, rk, k)[0])
  {
    if right != [] {
      var n := |right| - 1;
      var prefix := right[..n];
      var last := if rk(right[n]) == k then [right[n]] else [];
      LookupIsFirstMatch(prefix, rk, k);
      assert Matching(right, rk, k) == Matching(prefix, rk, k) + last;
      if Lookup(prefix, rk, k).Some? {
        LookupExtends(right, rk, k, n);
        assert Matching(right, rk, k)[0] == Matching(prefix, rk, k)[0];
      } else {
        LookupLast(right, rk, k, n);
        assert Matching(right, rk, k) == last;
      }
    }
  }

  /**
   * A left join loses no left row: each appears in the output, combined
   * with the first right row that has its key, or with none.
   */
  lemma {:induction false} LeftJoinCovers<L, R, K, O>(left: seq<L>, right: seq<R>, lk: L -> K, rk: R -> K,
                                                          combine: (L, Option<R>) -> O)
    ensures forall i | 0 <= i < |left| ::
              combine(left[i], Lookup(right, rk, lk(left[i]))) in LeftJoin(left, right, lk, rk, combine)
  {
    if left != [] {
      var n := |left| - 1;
      var prefix, row := LeftJoin(left[..n], right, lk, rk, combine), JoinRow(left[n], right, lk, rk, combine);
      var out := LeftJoin(left, right, lk, rk, combine);
      LeftJoinCovers(left[..n], right, lk, rk, combine);
      JoinRowStartsWithLookup(left[n], right, lk, rk, combine);
      assert out == prefix + row;
      assert out[|prefix|] == row[0];
      forall i | 0 <= i < |left|
        ensures combine(left[i], Lookup(right, rk, lk(left[i]))) in out
      {
        if i < n {
          assert left[i] == left[..n][i];
          var x := combine(left[i], Lookup(right, rk, lk(left[i])));
          assert x in prefix;
          var p :| 0 <= p < |prefix| && prefix[p] == x;
          assert out[p] == x;
        }
      }
    }
  }

  /** The first output row of a left row combines it with its lookup. */
  lemma JoinRowStartsWithLookup<L, R, K, O>(l: L, right: seq<R>, lk: L -> K, rk: R -> K,
                                            combine: (L, Option<R>) -> O)
    ensures |JoinRow(l, right, lk, rk, combine)| > 0
    ensures JoinRow(l, right, lk, rk, combine)[0] == combine(l, Lookup(right, rk, lk(l)))
  {
    LookupIsFirstMatch(right, rk, lk(l));
  }

  /** The right rows whose key is `k`, by one pass over `right`. */
  method MatchRows<R, K(==)>(right: seq<R>, rk: R -> K, k: K) returns (m: seq<R>)
    ensures m == Matching(right, rk, k)
  {
    m := [];
    for j := 0 to |right|
      invariant m == Matching(right[..j], rk, k)
    {
      assert right[..j + 1][..j] == right[..j];
      if rk(right[j]) == k {
        m := m + [right[j]];
      }
    }
    assert right[..|right|] == right;
  }

  /** The output rows of one left row, by one pass over its matches. */
  method JoinOne<L, R, K(==), O>(l: L, right: seq<R>, lk: L -> K, rk: R -> K,
                                 combine: (L, Option<R>) -> O) returns (rows: seq<O>)
    ensures rows == JoinRow(l, right, lk, rk, combine)
  {
    var m := MatchRows(right, rk, lk(l));
    if m == [] {
      rows := [combine(l, None)];
    } else {
      rows := [];
      for j := 0 to |m|
        invariant rows == seq(j, t requires 0 <= t < j => combine(l, Some(m[t])))
      {
        rows := rows + [combine(l, Some(m[j]))];
      }
    }
  }

  method LeftJoinRows<L, R, K(==), O>(left: seq<L>, right: seq<R>, lk: L -> K, rk: R -> K,
                                      combine: (L, Option<R>) -> O) returns (out: seq<O>)
    ensures out == LeftJoin(left, right, lk, rk, combine)
  {
    out := [];
    for i := 0 to |left|
      invariant out == LeftJoin(left[..i], right, lk, rk, combine)
    {
      var rows := JoinOne(left[i], right, lk, rk, combine);
      assert left[..i + 1][..i] == left[..i];
      out := out + rows;
    }
    assert left[..|left|] == left;
  }

  lemma {:induction false} MatchingNone<R, K>(right: seq<R>, rk: R -> K, k: K)
    requires forall j | 0 <= j < |right| :: rk(right[j]) != k
    ensures Matching(right, rk, k) == []
  {
    if right != [] {
      var n := |right| - 1;
      assert forall j | 0 <= j < n :: rk(right[..n][j]) != k by {
        forall j | 0 <= j < n ensures rk(right[..n][j]) != k {
          assert right[..n][j] == right[j];
        }
      }
      MatchingNone(right[..n], rk, k);
    }
  }

  lemma {:induction false} MatchingSingle<R, K>(right: seq<R>, rk: R -> K, j: nat)
    requires UniqueKeys(right, rk) && j < |right|
    ensures Matching(right, rk, rk(right[j])) == [right[j]]
  {
    var n := |right| - 1;
    var p := right[..n];
    var k := rk(right[j]);
    if j < n {
      assert UniqueKeys(p, rk);
      assert p[j] == right[j];
      MatchingSingle(p, rk, j);
      assert rk(right[n]) != k;
    } else {
      assert forall i | 0 <= i < n :: rk(p[i]) != k by {
        forall i | 0 <= i < n ensures rk(p[i]) != k {
          assert p[i] == right[i];
        }
      }
      MatchingNone(p, rk, k);
    }
  }

  lemma MatchingOfUnique<R, K>(right: seq<R>, rk: R -> K, k: K)
    requires UniqueKeys(right, rk)
    ensures Matching(right, rk, k) == match Lookup(right, rk, k) case None => [] case Some(r) => [r]
  {
    match Lookup(right, rk, k)
    case None =>
      MatchingNone(right, rk, k);
    case Some(r) =>
      var j :| 0 <= j < |right| && right[j] == r && rk(right[j]) == k;
      MatchingSingle(right, rk, j);
  }

  /**
   * With a unique key on the right, the left join keeps every left row once,
   * in order, paired with its match or with nothing.
   */
  lemma {:induction false} LeftJoinOfUnique<L, R, K, O>(left: seq<L>, right: seq<R>, lk: L -> K, rk: R -> K,
                                                            combine: (L, Option<R>) -> O)
    requires UniqueKeys(right, rk)
    ensures |LeftJoin(left, right, lk, rk, combine)| == |left|
    ensures forall i | 0 <= i < |left| ::
      LeftJoin(left, right, lk, rk, combine)[i] == combine(left[i], Lookup(right, rk, lk(left[i])))
  {
    if left != [] {
      var n := |left| - 1;
      var out := LeftJoin(left, right, lk, rk, combine);
      var p := LeftJoin(left[..n], right, lk, rk, combine);
      var row := JoinRow(left[n], right, lk, rk, combine);
      LeftJoinOfUnique(left[..n], right, lk, rk, combine);
      assert row == [combine(left[n], Lookup(right, rk, lk(left[n])))] by {
        MatchingOfUnique(right, rk, lk(left[n]));
      }
      assert out == p + row;
      forall i | 0 <= i < |left|
        ensures out[i] == combine(left[i], Lookup(right, rk, lk(left[i])))
      {
        if i < n {
          assert out[i] == p[i];
          assert left[..n][i] == left[i];
        }
      }
    }
  }
}
