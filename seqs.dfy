/**
 * Relational building blocks over in-memory tables (sequences of rows):
 * selection, LEFT JOIN padding, cross products, grouping keys, ORDER BY
 * and LIMIT, with the facts about them that the report queries rely on.
 */
module Seqs {
  import opened Optional

  // ---------------------------------------------------------------- selection

  /** `WHERE sel(row, arg)`: the rows, in table order, that the condition accepts. */
  function Where<T(!new), P>(xs: seq<T>, sel: (T, P) -> bool, arg: P): (r: seq<T>)
    ensures |r| <= |xs|
    ensures forall x :: x in r <==> x in xs && sel(x, arg)
    ensures multiset(r) <= multiset(xs)
  {
    if xs == [] then []
    else
      var rest := Where(xs[1..], sel, arg);
      assert xs == [xs[0]] + xs[1..];
      if sel(xs[0], arg) then [xs[0]] + rest else rest
  }

  /** A condition no row meets selects nothing. */
  lemma {:induction false} WhereNone<T(!new), P>(xs: seq<T>, sel: (T, P) -> bool, arg: P)
    requires forall x :: x in xs ==> !sel(x, arg)
    ensures Where(xs, sel, arg) == []
  {
    if xs != [] {
      WhereNone(xs[1..], sel, arg);
    }
  }

  /** Selecting from two tables one after the other. */
  lemma {:induction false} WhereAppend<T(!new), P>(xs: seq<T>, ys: seq<T>, sel: (T, P) -> bool, arg: P)
    ensures Where(xs + ys, sel, arg) == Where(xs, sel, arg) + Where(ys, sel, arg)
  {
    if xs == [] {
      assert xs + ys == ys;
    } else {
      assert (xs + ys)[1..] == xs[1..] + ys;
      WhereAppend(xs[1..], ys, sel, arg);
    }
  }

  /** A condition every row meets selects the whole table. */
  lemma {:induction false} WhereAll<T(!new), P>(xs: seq<T>, sel: (T, P) -> bool, arg: P)
    requires forall x :: x in xs ==> sel(x, arg)
    ensures Where(xs, sel, arg) == xs
  {
    if xs != [] {
      WhereAll(xs[1..], sel, arg);
    }
  }

  /** Selecting inside a selection that already admits every selected row changes nothing. */
  lemma {:induction false} WhereAbsorb<T(!new), P, Q>(xs: seq<T>, sel: (T, P) -> bool, arg: P, outer: (T, Q) -> bool, outerArg: Q)
    requires forall x :: x in xs && sel(x, arg) ==> outer(x, outerArg)
    ensures Where(Where(xs, outer, outerArg), sel, arg) == Where(xs, sel, arg)
  {
    if xs != [] {
      WhereAbsorb(xs[1..], sel, arg, outer, outerArg);
    }
  }

  /** A selection grows by one row for each accepted row appended to the table. */
  lemma {:induction false} WhereCons<T(!new), P>(x: T, xs: seq<T>, sel: (T, P) -> bool, arg: P)
    ensures |Where([x] + xs, sel, arg)| == |Where(xs, sel, arg)| + (if sel(x, arg) then 1 else 0)
  {
    assert ([x] + xs)[1..] == xs;
  }

  /** A weaker condition selects at least as many rows. */
  lemma {:induction false} WhereMonotone<T(!new), P, Q>(xs: seq<T>, sel: (T, P) -> bool, arg: P, wider: (T, Q) -> bool, widerArg: Q)
    requires forall x :: x in xs && sel(x, arg) ==> wider(x, widerArg)
    ensures |Where(xs, sel, arg)| <= |Where(xs, wider, widerArg)|
  {
    if xs != [] {
      WhereMonotone(xs[1..], sel, arg, wider, widerArg);
    }
  }

  /** Every subset is no larger than its superset. */
  lemma SubsetSize(a: set<int>, b: set<int>)
    requires a <= b
    ensures |a| <= |b|
  {
    assert b == a + (b - a);
    assert a * (b - a) == {};
  }

  /** A key that no two rows of the table share: a primary key. */
  predicate DistinctBy<T, K(==)>(xs: seq<T>, key: T -> K)
  {
    forall i, j :: 0 <= i < j < |xs| ==> key(xs[i]) != key(xs[j])
  }

  /** The rows after the first keep a primary key, and none of them repeats the first row's key. */
  lemma DistinctTail<T, K>(xs: seq<T>, key: T -> K)
    requires xs != [] && DistinctBy(xs, key)
    ensures DistinctBy(xs[1..], key)
    ensures forall y :: y in xs[1..] ==> key(y) != key(xs[0])
  {
    var rest := xs[1..];
    forall i, j | 0 <= i < j < |rest| ensures key(rest[i]) != key(rest[j]) {
      assert rest[i] == xs[i + 1] && rest[j] == xs[j + 1];
    }
    forall y | y in rest ensures key(y) != key(xs[0]) {
      var j :| 0 <= j < |rest| && rest[j] == y;
      assert xs[j + 1] == y;
    }
  }

  /** Deleting or filtering rows cannot make two surviving rows share a key. */
  lemma {:induction false} WhereKeepsDistinct<T(!new), P, K>(xs: seq<T>, sel: (T, P) -> bool, arg: P, key: T -> K)
    requires DistinctBy(xs, key)
    ensures DistinctBy(Where(xs, sel, arg), key)
  {
    if xs != [] {
      DistinctTail(xs, key);
      WhereKeepsDistinct(xs[1..], sel, arg, key);
    }
  }

  // ------------------------------------------------------- joins and products

  /** The right-hand side of a LEFT JOIN: the matching rows, or one NULL row when none match. */
  function Padded<T(!new)>(xs: seq<T>): (r: seq<Option<T>>)
    ensures |r| == if xs == [] then 1 else |xs|
    ensures forall x :: Some(x) in r <==> x in xs
    ensures xs == [] <==> None in r
  {
    if xs == [] then [None]
    else
      var r := seq(|xs|, i requires 0 <= i < |xs| => Some(xs[i]));
      assert forall x :: x in xs ==> Some(x) in r by {
        forall x | x in xs ensures Some(x) in r {
          var i :| 0 <= i < |xs| && xs[i] == x;
          assert r[i] == Some(x);
        }
      }
      r
  }

  /** `x` paired with every row of `ys`, in order. */
  function Pairs<A, B>(x: A, ys: seq<B>): (r: seq<(A, B)>)
    ensures |r| == |ys|
    ensures forall i :: 0 <= i < |ys| ==> r[i] == (x, ys[i])
  {
    if ys == [] then [] else [(x, ys[0])] + Pairs(x, ys[1..])
  }

  /** The cross product: every row of `xs` with every row of `ys`, `xs` in the outer loop. */
  function Cross<A, B>(xs: seq<A>, ys: seq<B>): (r: seq<(A, B)>)
    ensures |r| == |xs| * |ys|
  {
    if xs == [] then [] else Pairs(xs[0], ys) + Cross(xs[1..], ys)
  }

  /** Row-by-row first components. */
  function Firsts<A, B>(ps: seq<(A, B)>): (r: seq<A>)
    ensures |r| == |ps|
  {
    if ps == [] then [] else [ps[0].0] + Firsts(ps[1..])
  }

  /** Row-by-row second components. */
  function Seconds<A, B>(ps: seq<(A, B)>): (r: seq<B>)
    ensures |r| == |ps|
  {
    if ps == [] then [] else [ps[0].1] + Seconds(ps[1..])
  }

  /** `k` copies of `x`. */
  function Copies<T>(x: T, k: nat): (r: seq<T>)
    ensures |r| == k
  {
    if k == 0 then [] else [x] + Copies(x, k - 1)
  }

  /** Every row of `xs` repeated `k` times in place: a column of the left operand of a cross product. */
  function Stretch<T>(xs: seq<T>, k: nat): (r: seq<T>)
    ensures |r| == |xs| * k
  {
    if xs == [] then [] else Copies(xs[0], k) + Stretch(xs[1..], k)
  }

  /** `k` copies of the whole of `ys`: a column of the right operand of a product. */
  function Repeat<T>(ys: seq<T>, k: nat): (r: seq<T>)
    ensures |r| == |ys| * k
  {
    if k == 0 then [] else ys + Repeat(ys, k - 1)
  }

  lemma {:induction false} FirstsAppend<A, B>(ps: seq<(A, B)>, qs: seq<(A, B)>)
    ensures Firsts(ps + qs) == Firsts(ps) + Firsts(qs)
  {
    if ps == [] {
      assert ps + qs == qs;
    } else {
      var rest := ps[1..] + qs;
      assert (ps + qs)[0] == ps[0] && (ps + qs)[1..] == rest;
      assert Firsts(ps + qs) == [ps[0].0] + Firsts(rest);
      FirstsAppend(ps[1..], qs);
    }
  }

  lemma {:induction false} SecondsAppend<A, B>(ps: seq<(A, B)>, qs: seq<(A, B)>)
    ensures Seconds(ps + qs) == Seconds(ps) + Seconds(qs)
  {
    if ps == [] {
      assert ps + qs == qs;
    } else {
      var rest := ps[1..] + qs;
      assert (ps + qs)[0] == ps[0] && (ps + qs)[1..] == rest;
      assert Seconds(ps + qs) == [ps[0].1] + Seconds(rest);
      SecondsAppend(ps[1..], qs);
    }
  }

  /** The first column of a product is the left table, each row repeated once per right row. */
  lemma {:induction false} FirstsOfCross<A, B>(xs: seq<A>, ys: seq<B>)
    ensures Firsts(Cross(xs, ys)) == Stretch(xs, |ys|)
  {
    if xs != [] {
      FirstsOfCross(xs[1..], ys);
      FirstsAppend(Pairs(xs[0], ys), Cross(xs[1..], ys));
      FirstsOfPairs(xs[0], ys);
    }
  }

  lemma {:induction false} FirstsOfPairs<A, B>(x: A, ys: seq<B>)
    ensures Firsts(Pairs(x, ys)) == Copies(x, |ys|)
  {
    if ys != [] {
      FirstsOfPairs(x, ys[1..]);
    }
  }

  lemma {:induction false} SecondsOfPairs<A, B>(x: A, ys: seq<B>)
    ensures Seconds(Pairs(x, ys)) == ys
  {
    if ys != [] {
      SecondsOfPairs(x, ys[1..]);
      assert [ys[0]] + ys[1..] == ys;
    }
  }

  /** The second column of a product is the right table, repeated once per left row. */
  lemma {:induction false} SecondsOfCross<A, B>(xs: seq<A>, ys: seq<B>)
    ensures Seconds(Cross(xs, ys)) == Repeat(ys, |xs|)
  {
    if xs != [] {
      SecondsOfCross(xs[1..], ys);
      SecondsAppend(Pairs(xs[0], ys), Cross(xs[1..], ys));
      SecondsOfPairs(xs[0], ys);
    }
  }

  lemma {:induction false} FirstsOfRepeat<A, B>(ps: seq<(A, B)>, k: nat)
    ensures Firsts(Repeat(ps, k)) == Repeat(Firsts(ps), k)
  {
    if k > 0 {
      FirstsOfRepeat(ps, k - 1);
      FirstsAppend(ps, Repeat(ps, k - 1));
    }
  }

  lemma {:induction false} SecondsOfRepeat<A, B>(ps: seq<(A, B)>, k: nat)
    ensures Seconds(Repeat(ps, k)) == Repeat(Seconds(ps), k)
  {
    if k > 0 {
      SecondsOfRepeat(ps, k - 1);
      SecondsAppend(ps, Repeat(ps, k - 1));
    }
  }

  lemma {:induction false} InCopies<T>(x: T, k: nat)
    ensures forall y :: y in Copies(x, k) <==> k > 0 && y == x
  {
    if k > 0 {
      InCopies(x, k - 1);
    }
  }

  /** Stretching keeps exactly the rows of the table, as long as each is kept at least once. */
  lemma {:induction false} InStretch<T>(xs: seq<T>, k: nat)
    ensures forall y :: y in Stretch(xs, k) <==> k > 0 && y in xs
  {
    if xs != [] {
      InStretch(xs[1..], k);
      InCopies(xs[0], k);
      assert xs == [xs[0]] + xs[1..];
    }
  }

  /** Repeating keeps exactly the rows of the table, as long as it is repeated at least once. */
  lemma {:induction false} InRepeat<T>(ys: seq<T>, k: nat)
    ensures forall y :: y in Repeat(ys, k) <==> k > 0 && y in ys
  {
    if k > 0 {
      InRepeat(ys, k - 1);
    }
  }

  // ------------------------------------------------------------------ LIMIT

  /** SQLite's `LIMIT n`: the first `n` rows; a negative limit means no limit. */
  function Limit<T>(xs: seq<T>, n: int): (r: seq<T>)
    ensures n < 0 ==> r == xs
    ensures n >= 0 ==> |r| == if n < |xs| then n else |xs|
    ensures r == xs[..|r|]
  {
    if n < 0 || n >= |xs| then xs else xs[..n]
  }

  // --------------------------------------------------------------- ORDER BY

  /**
   * The sort key of an `ORDER BY a DESC, b DESC` clause. The second key may
   * be NULL, which SQLite orders below every number.
   */
  datatype Rank = Rank(primary: int, secondary: Option<int>)

  predicate SecondaryLe(a: Option<int>, b: Option<int>)
  {
    a.None? || (b.Some? && a.value <= b.value)
  }

  /** `a` may come after `b` in descending order. */
  predicate RankLe(a: Rank, b: Rank)
  {
    a.primary < b.primary || (a.primary == b.primary && SecondaryLe(a.secondary, b.secondary))
  }

  lemma RankLeTotal(a: Rank, b: Rank)
    ensures RankLe(a, b) || RankLe(b, a)
  {
  }

  lemma RankLeTransitive(a: Rank, b: Rank, c: Rank)
    requires RankLe(a, b) && RankLe(b, c)
    ensures RankLe(a, c)
  {
  }

  /** Rows in descending order of their rank: no row outranks one before it. */
  predicate Descending<T>(xs: seq<T>, rank: T -> Rank)
  {
    forall i, j :: 0 <= i < j < |xs| ==> RankLe(rank(xs[j]), rank(xs[i]))
  }

  /** Every row ranks at or below `bound`. */
  predicate Bounded<T>(xs: seq<T>, rank: T -> Rank, bound: Rank)
  {
    forall i :: 0 <= i < |xs| ==> RankLe(rank(xs[i]), bound)
  }

  function Insert<T>(x: T, xs: seq<T>, rank: T -> Rank): (r: seq<T>)
    ensures multiset(r) == multiset(xs) + multiset{x}
  {
    if xs == [] then [x]
    else if RankLe(rank(xs[0]), rank(x)) then [x] + xs
    else
      assert xs == [xs[0]] + xs[1..];
      [xs[0]] + Insert(x, xs[1..], rank)
  }

  lemma {:induction false} InsertBounded<T>(x: T, xs: seq<T>, rank: T -> Rank, bound: Rank)
    requires Bounded(xs, rank, bound) && RankLe(rank(x), bound)
    ensures Bounded(Insert(x, xs, rank), rank, bound)
  {
    if xs != [] && !RankLe(rank(xs[0]), rank(x)) {
      InsertBounded(x, xs[1..], rank, bound);
    }
  }

  lemma {:induction false} InsertDescending<T>(x: T, xs: seq<T>, rank: T -> Rank)
    requires Descending(xs, rank)
    ensures Descending(Insert(x, xs, rank), rank)
  {
    if xs == [] {
    } else if RankLe(rank(xs[0]), rank(x)) {
      forall j | 0 <= j < |xs| ensures RankLe(rank(xs[j]), rank(x)) {
        if j > 0 { RankLeTransitive(rank(xs[j]), rank(xs[0]), rank(x)); }
      }
    } else {
      var rest := Insert(x, xs[1..], rank);
      InsertDescending(x, xs[1..], rank);
      RankLeTotal(rank(xs[0]), rank(x));
      InsertBounded(x, xs[1..], rank, rank(xs[0]));
      var r := [xs[0]] + rest;
      forall i, j | 0 <= i < j < |r| ensures RankLe(rank(r[j]), rank(r[i])) {
        if i > 0 {
          assert r[i] == rest[i - 1] && r[j] == rest[j - 1];
        }
      }
    }
  }

  /** `ORDER BY` on `rank`, descending: a descending permutation of the rows. */
  function SortDesc<T>(xs: seq<T>, rank: T -> Rank): (r: seq<T>)
    ensures multiset(r) == multiset(xs)
    ensures Descending(r, rank)
  {
    if xs == [] then []
    else
      var sorted := SortDesc(xs[1..], rank);
      InsertDescending(xs[0], sorted, rank);
      assert xs == [xs[0]] + xs[1..];
      Insert(xs[0], sorted, rank)
  }

  /** `ORDER BY rank DESC LIMIT n`: the `n` highest-ranked rows, in descending order. */
  function Top<T>(xs: seq<T>, rank: T -> Rank, n: int): (r: seq<T>)
    ensures Descending(r, rank)
    ensures multiset(r) <= multiset(xs)
    ensures n >= 0 ==> |r| == if n < |xs| then n else |xs|
    ensures n < 0 || n >= |xs| ==> multiset(r) == multiset(xs)
  {
    var sorted := SortDesc(xs, rank);
    var r := Limit(sorted, n);
    assert sorted == r + sorted[|r|..];
    assert multiset(sorted) == multiset(r) + multiset(sorted[|r|..]);
    r
  }

  /** Every row that the limit cuts off ranks at or below every row it keeps. */
  lemma TopDominates<T>(xs: seq<T>, rank: T -> Rank, n: int)
    ensures forall x, y :: x in multiset(xs) - multiset(Top(xs, rank, n)) && y in Top(xs, rank, n) ==> RankLe(rank(x), rank(y))
  {
    var sorted := SortDesc(xs, rank);
    var r := Top(xs, rank, n);
    assert r == Limit(sorted, n);
    var m := |r|;
    assert r == sorted[..m];
    CutMultiset(sorted, m);
    DescendingCut(sorted, rank, m);
  }

  /** Taking a prefix away leaves the multiset of the rest. */
  lemma CutMultiset<T>(xs: seq<T>, m: nat)
    requires m <= |xs|
    ensures multiset(xs) - multiset(xs[..m]) == multiset(xs[m..])
  {
    assert xs == xs[..m] + xs[m..];
  }

  /** In a descending sequence, everything after a cut ranks at or below everything before it. */
  lemma DescendingCut<T>(sorted: seq<T>, rank: T -> Rank, m: nat)
    requires Descending(sorted, rank) && m <= |sorted|
    ensures forall x, y :: x in multiset(sorted[m..]) && y in sorted[..m] ==> RankLe(rank(x), rank(y))
  {
    forall x, y | x in multiset(sorted[m..]) && y in sorted[..m] ensures RankLe(rank(x), rank(y)) {
      assert x in sorted[m..];
      var j :| m <= j < |sorted| && sorted[j] == x;
      var i :| 0 <= i < m && sorted[i] == y;
    }
  }

  /** A row value occurs at most once in a table with a primary key. */
  lemma {:induction false} DistinctByOnce<T, K>(xs: seq<T>, key: T -> K, x: T)
    requires DistinctBy(xs, key)
    ensures multiset(xs)[x] <= 1
  {
    if xs != [] {
      DistinctTail(xs, key);
      DistinctByOnce(xs[1..], key, x);
      assert xs == [xs[0]] + xs[1..];
      if xs[0] == x {
        assert x !in xs[1..];
      }
    }
  }

  /** Rows drawn without repetition from a table with a primary key keep that key distinct. */
  lemma DistinctBySubMultiset<T, K>(xs: seq<T>, ys: seq<T>, key: T -> K)
    requires DistinctBy(xs, key)
    requires multiset(ys) <= multiset(xs)
    ensures DistinctBy(ys, key)
  {
    forall i, j | 0 <= i < j < |ys| ensures key(ys[i]) != key(ys[j]) {
      assert ys[i] in multiset(xs) && ys[j] in multiset(xs);
      if ys[i] == ys[j] {
        assert ys == ys[..j] + ys[j..];
        assert ys[i] in ys[..j] && ys[j] in ys[j..];
        assert multiset(ys)[ys[i]] == multiset(ys[..j])[ys[i]] + multiset(ys[j..])[ys[i]];
        DistinctByOnce(xs, key, ys[i]);
      } else {
        var a :| 0 <= a < |xs| && xs[a] == ys[i];
        var b :| 0 <= b < |xs| && xs[b] == ys[j];
        assert a != b;
      }
    }
  }

  // --------------------------------------------------------------- GROUP BY

  predicate Distinct<K(==)>(ks: seq<K>)
  {
    forall i, j :: 0 <= i < j < |ks| ==> ks[i] != ks[j]
  }

  /** The `GROUP BY key` groups of a table: each key value once, in order of first appearance. */
  function DistinctKeys<T, K(==)>(xs: seq<T>, key: T -> K): (ks: seq<K>)
    ensures Distinct(ks)
    ensures forall x :: x in xs ==> key(x) in ks
    ensures forall k :: k in ks ==> exists x :: x in xs && key(x) == k
    decreases |xs|
  {
    if xs == [] then []
    else
      var init := xs[..|xs| - 1];
      var last := xs[|xs| - 1];
      assert xs == init + [last];
      var ks := DistinctKeys(init, key);
      if key(last) in ks then ks else ks + [key(last)]
  }

  predicate StrictlyAscending(ds: seq<int>)
  {
    forall i, j :: 0 <= i < j < |ds| ==> ds[i] < ds[j]
  }

  function InsertAscending(d: int, ds: seq<int>): (r: seq<int>)
    requires StrictlyAscending(ds)
    ensures StrictlyAscending(r)
    ensures forall e :: e in r <==> e == d || e in ds
  {
    if ds == [] || d < ds[0] then [d] + ds
    else if d == ds[0] then ds
    else
      var rest := InsertAscending(d, ds[1..]);
      assert ds == [ds[0]] + ds[1..];
      assert forall j :: 0 <= j < |rest| ==> ds[0] < rest[j] by {
        forall j | 0 <= j < |rest| ensures ds[0] < rest[j] {
          assert rest[j] in rest;
        }
      }
      [ds[0]] + rest
  }

  /** `GROUP BY key ORDER BY key ASC` for an integer key: each key value once, ascending. */
  function AscendingKeys<T>(xs: seq<T>, key: T -> int): (ds: seq<int>)
    ensures StrictlyAscending(ds)
    ensures forall x :: x in xs ==> key(x) in ds
    ensures forall d :: d in ds ==> exists x :: x in xs && key(x) == d
  {
    if xs == [] then []
    else
      assert xs == [xs[0]] + xs[1..];
      InsertAscending(key(xs[0]), AscendingKeys(xs[1..], key))
  }

  /** The sizes of the selections `sel(_, k)`, added up over the keys `ks`. */
  function SizesOver<T(!new), K>(xs: seq<T>, sel: (T, K) -> bool, ks: seq<K>): nat
  {
    if ks == [] then 0 else |Where(xs, sel, ks[0])| + SizesOver(xs, sel, ks[1..])
  }

  /** How many of the keys `ks` a row belongs to. */
  function Hits<T, K>(x: T, sel: (T, K) -> bool, ks: seq<K>): nat
  {
    if ks == [] then 0 else (if sel(x, ks[0]) then 1 else 0) + Hits(x, sel, ks[1..])
  }

  lemma {:induction false} SizesOverCons<T(!new), K>(x: T, xs: seq<T>, sel: (T, K) -> bool, ks: seq<K>)
    ensures SizesOver([x] + xs, sel, ks) == SizesOver(xs, sel, ks) + Hits(x, sel, ks)
  {
    if ks != [] {
      SizesOverCons(x, xs, sel, ks[1..]);
      WhereCons(x, xs, sel, ks[0]);
    }
  }

  lemma {:induction false} HitsOfGroupKey<T, K>(x: T, key: T -> K, sel: (T, K) -> bool, ks: seq<K>)
    requires forall k :: sel(x, k) == (key(x) == k)
    requires Distinct(ks)
    ensures Hits(x, sel, ks) == if key(x) in ks then 1 else 0
  {
    if ks != [] {
      HitsOfGroupKey(x, key, sel, ks[1..]);
      if key(x) == ks[0] {
        assert key(x) !in ks[1..];
      }
    }
  }

  /**
   * Grouping partitions the table: when every row's key is among the
   * distinct keys `ks`, the group sizes add up to the number of rows.
   */
  lemma {:induction false} GroupSizesSum<T(!new), K>(xs: seq<T>, key: T -> K, sel: (T, K) -> bool, ks: seq<K>)
    requires forall x, k :: sel(x, k) == (key(x) == k)
    requires Distinct(ks)
    requires forall x :: x in xs ==> key(x) in ks
    ensures SizesOver(xs, sel, ks) == |xs|
  {
    if xs == [] {
      EmptySizes(sel, ks);
    } else {
      assert xs == [xs[0]] + xs[1..];
      GroupSizesSum(xs[1..], key, sel, ks);
      SizesOverCons(xs[0], xs[1..], sel, ks);
      HitsOfGroupKey(xs[0], key, sel, ks);
    }
  }

  lemma {:induction false} EmptySizes<T(!new), K>(sel: (T, K) -> bool, ks: seq<K>)
    ensures SizesOver([], sel, ks) == 0
  {
    if ks != [] {
      EmptySizes(sel, ks[1..]);
    }
  }
}
