/**
 * The collection operations the views are built from: `Array.prototype.filter`,
 * `d3.groups` (grouping by a key, keys in order of first occurrence, members in
 * input order), a stable sort of groups by descending size, and `d3.max`.
 */
module Grouping {
  import opened Wrappers

  /** One entry of `d3.groups`: a key and the elements that have it. */
  datatype Group<K, T> = Group(key: K, members: seq<T>)

  function Size<K, T>(g: Group<K, T>): nat {
    |g.members|
  }

  /** `xs.filter(p)`: the elements satisfying `p`, in their original order. */
  function Filter<T(!new)>(xs: seq<T>, p: T -> bool): (r: seq<T>)
    ensures |r| <= |xs|
    ensures forall x :: x in r <==> x in xs && p(x)
  {
    if xs == [] then []
    else
      var init := Filter(xs[..|xs| - 1], p);
      assert xs == xs[..|xs| - 1] + [xs[|xs| - 1]];
      if p(xs[|xs| - 1]) then init + [xs[|xs| - 1]] else init
  }

  /** Filtering distributes over concatenation, so it preserves relative order. */
  lemma {:induction false} FilterConcat<T(!new)>(a: seq<T>, b: seq<T>, p: T -> bool)
    ensures Filter(a + b, p) == Filter(a, p) + Filter(b, p)
    decreases |b|
  {
    if b == [] {
      assert a + b == a;
    } else {
      var b' := b[..|b| - 1];
      assert (a + b)[..|a + b| - 1] == a + b';
      FilterConcat(a, b', p);
    }
  }

  /** Filtering twice with the same predicate is filtering once. */
  lemma {:induction false} FilterIdempotent<T(!new)>(xs: seq<T>, p: T -> bool)
    ensures Filter(Filter(xs, p), p) == Filter(xs, p)
  {
    if xs != [] {
      var init := xs[..|xs| - 1];
      FilterIdempotent(init, p);
      if p(xs[|xs| - 1]) {
        FilterConcat(Filter(init, p), [xs[|xs| - 1]], p);
        assert Filter([xs[|xs| - 1]], p) == [xs[|xs| - 1]] by {
          assert [xs[|xs| - 1]][..0] == [];
        }
      }
    }
  }

  predicate Distinct<K(==)>(ks: seq<K>) {
    forall i, j :: 0 <= i < j < |ks| ==> ks[i] != ks[j]
  }

  /** The distinct keys of `xs`, in the order of their first occurrence. */
  function Keys<T(!new), K(==,!new)>(xs: seq<T>, key: T -> K): (ks: seq<K>)
    ensures Distinct(ks)
    ensures forall k :: k in ks <==> exists i :: 0 <= i < |xs| && key(xs[i]) == k
  {
    if xs == [] then []
    else
      var init := xs[..|xs| - 1];
      var ks := Keys(init, key);
      assert forall i :: 0 <= i < |init| ==> init[i] == xs[i];
      if key(xs[|xs| - 1]) in ks then ks else ks + [key(xs[|xs| - 1])]
  }

  /**
   * The keys come in order of first occurrence: wherever the key at a later
   * position of `Keys` occurs in `xs`, the key at an earlier position has
   * already occurred before it.
   */
  lemma {:induction false} KeysInFirstOccurrenceOrder<T(!new), K(!new)>(xs: seq<T>, key: T -> K, i: nat, j: nat, n: nat)
    requires i < j < |Keys(xs, key)|
    requires n < |xs| && key(xs[n]) == Keys(xs, key)[j]
    ensures exists m :: 0 <= m < n && key(xs[m]) == Keys(xs, key)[i]
  {
    var init := xs[..|xs| - 1];
    var ks, ks' := Keys(xs, key), Keys(init, key);
    assert forall t :: 0 <= t < |init| ==> init[t] == xs[t];
    assert ks == ks' || ks == ks' + [key(xs[|xs| - 1])];
    if n == |xs| - 1 {
      assert ks[i] == ks'[i];
      assert ks'[i] in ks';
      var m :| 0 <= m < |init| && key(init[m]) == ks'[i];
      assert key(xs[m]) == ks[i];
    } else {
      assert key(init[n]) in ks';
      assert j < |ks'|;
      KeysInFirstOccurrenceOrder(init, key, i, j, n);
      var m :| 0 <= m < n && key(init[m]) == ks'[i];
      assert key(xs[m]) == ks[i];
    }
  }

  /** The elements of `xs` whose key is `k`, in their original order. */
  function WithKey<T(!new), K(==,!new)>(xs: seq<T>, key: T -> K, k: K): (r: seq<T>)
    ensures forall x :: x in r <==> x in xs && key(x) == k
  {
    if xs == [] then []
    else
      var init := WithKey(xs[..|xs| - 1], key, k);
      assert xs == xs[..|xs| - 1] + [xs[|xs| - 1]];
      if key(xs[|xs| - 1]) == k then init + [xs[|xs| - 1]] else init
  }

  /** One group per key of `ks`, each holding the elements of `xs` with that key. */
  function GroupsFor<T(!new), K(==,!new)>(xs: seq<T>, key: T -> K, ks: seq<K>): (gs: seq<Group<K, T>>)
    ensures |gs| == |ks|
    ensures forall i :: 0 <= i < |gs| ==> gs[i] == Group(ks[i], WithKey(xs, key, ks[i]))
  {
    if ks == [] then []
    else GroupsFor(xs, key, ks[..|ks| - 1]) + [Group(ks[|ks| - 1], WithKey(xs, key, ks[|ks| - 1]))]
  }

  /** The total number of elements held by the groups. */
  function TotalSize<K, T>(gs: seq<Group<K, T>>): nat {
    if gs == [] then 0 else TotalSize(gs[..|gs| - 1]) + Size(gs[|gs| - 1])
  }

  predicate DistinctKeys<K(==), T>(gs: seq<Group<K, T>>) {
    forall i, j :: 0 <= i < j < |gs| ==> gs[i].key != gs[j].key
  }

  /**
   * `d3.groups(xs, key)`: one group per distinct key, in order of first
   * occurrence; the groups partition `xs`.
   */
  function GroupBy<T(!new), K(==,!new)>(xs: seq<T>, key: T -> K): (gs: seq<Group<K, T>>)
    ensures DistinctKeys(gs)
    ensures forall i :: 0 <= i < |gs| ==> gs[i].members == WithKey(xs, key, gs[i].key)
    ensures forall i :: 0 <= i < |gs| ==> Size(gs[i]) > 0
    ensures TotalSize(gs) == |xs|
  {
    var ks := Keys(xs, key);
    var gs := GroupsFor(xs, key, ks);
    GroupSizesSum(xs, key);
    forall i | 0 <= i < |gs| ensures Size(gs[i]) > 0 {
      assert ks[i] in ks;
      var n :| 0 <= n < |xs| && key(xs[n]) == ks[i];
      assert xs[n] in gs[i].members;
    }
    gs
  }

  /** Every element of the input lands in the group of its key. */
  lemma ElementHasGroup<T(!new), K(!new)>(xs: seq<T>, key: T -> K, x: T)
    requires x in xs
    ensures exists i :: 0 <= i < |GroupBy(xs, key)| && GroupBy(xs, key)[i].key == key(x)
                        && x in GroupBy(xs, key)[i].members
  {
    var ks := Keys(xs, key);
    var gs := GroupBy(xs, key);
    assert gs == GroupsFor(xs, key, ks);
    var n :| 0 <= n < |xs| && xs[n] == x;
    assert key(xs[n]) in ks;
    var i :| 0 <= i < |ks| && ks[i] == key(x);
    assert gs[i] == Group(ks[i], WithKey(xs, key, ks[i]));
    assert x in gs[i].members;
  }

  /** An element of the input belongs to exactly one group. */
  lemma GroupOfElementUnique<T(!new), K(!new)>(xs: seq<T>, key: T -> K, x: T, i: nat, j: nat)
    requires i < |GroupBy(xs, key)| && j < |GroupBy(xs, key)|
    requires x in GroupBy(xs, key)[i].members && x in GroupBy(xs, key)[j].members
    ensures i == j
  {
    var gs := GroupBy(xs, key);
    assert key(x) == gs[i].key && key(x) == gs[j].key;
  }

  /** Appending an element adds one to exactly the group of its key. */
  lemma {:induction false} AppendGrowsOneGroup<T(!new), K(!new)>(xs: seq<T>, x: T, key: T -> K, ks: seq<K>)
    requires Distinct(ks)
    ensures TotalSize(GroupsFor(xs + [x], key, ks))
         == TotalSize(GroupsFor(xs, key, ks)) + (if key(x) in ks then 1 else 0)
    decreases |ks|
  {
    if ks != [] {
      var init := ks[..|ks| - 1];
      var k := ks[|ks| - 1];
      assert ks == init + [k];
      assert Distinct(init);
      AppendGrowsOneGroup(xs, x, key, init);
      var ys := xs + [x];
      GroupsForSnoc(ys, key, init, k);
      GroupsForSnoc(xs, key, init, k);
      TotalSizeSnoc(GroupsFor(ys, key, init), Group(k, WithKey(ys, key, k)));
      TotalSizeSnoc(GroupsFor(xs, key, init), Group(k, WithKey(xs, key, k)));
      WithKeySnoc(xs, x, key, k);
      assert key(x) == k ==> key(x) !in init;
      assert key(x) in ks <==> key(x) in init || key(x) == k;
    }
  }

  lemma GroupsForSnoc<T(!new), K(!new)>(xs: seq<T>, key: T -> K, ks: seq<K>, k: K)
    ensures GroupsFor(xs, key, ks + [k]) == GroupsFor(xs, key, ks) + [Group(k, WithKey(xs, key, k))]
  {
    assert (ks + [k])[..|ks|] == ks;
  }

  lemma TotalSizeSnoc<K, T>(gs: seq<Group<K, T>>, g: Group<K, T>)
    ensures TotalSize(gs + [g]) == TotalSize(gs) + Size(g)
  {
    assert (gs + [g])[..|gs|] == gs;
  }

  lemma WithKeySnoc<T(!new), K(!new)>(xs: seq<T>, x: T, key: T -> K, k: K)
    ensures WithKey(xs + [x], key, k) == WithKey(xs, key, k) + (if key(x) == k then [x] else [])
  {
    assert (xs + [x])[..|xs|] == xs;
  }

  /** A key that no element has selects nothing. */
  lemma {:induction false} WithKeyAbsent<T(!new), K(!new)>(xs: seq<T>, key: T -> K, k: K)
    requires k !in Keys(xs, key)
    ensures WithKey(xs, key, k) == []
  {
    if xs != [] {
      var init := xs[..|xs| - 1];
      assert k !in Keys(init, key);
      WithKeyAbsent(init, key, k);
    }
  }

  /** The groups of `d3.groups` hold every element exactly once. */
  lemma {:induction false} GroupSizesSum<T(!new), K(!new)>(xs: seq<T>, key: T -> K)
    ensures TotalSize(GroupsFor(xs, key, Keys(xs, key))) == |xs|
  {
    if xs != [] {
      var init := xs[..|xs| - 1];
      var x := xs[|xs| - 1];
      assert xs == init + [x];
      var ks := Keys(init, key);
      GroupSizesSum(init, key);
      AppendGrowsOneGroup(init, x, key, ks);
      if key(x) !in ks {
        var ks' := ks + [key(x)];
        assert Keys(xs, key) == ks';
        var gs := GroupsFor(xs, key, ks);
        var g := Group(key(x), WithKey(xs, key, key(x)));
        assert ks'[..|ks|] == ks;
        assert GroupsFor(xs, key, ks') == gs + [g];
        assert (gs + [g])[..|gs|] == gs;
        assert TotalSize(gs + [g]) == TotalSize(gs) + Size(g);
        WithKeyAbsent(init, key, key(x));
        assert WithKey(xs, key, key(x)) == [x];
      } else {
        assert Keys(xs, key) == ks;
      }
    }
  }

  /** Sizes never increase from one group to the next. */
  predicate NonIncreasing<K, T>(gs: seq<Group<K, T>>) {
    forall i, j :: 0 <= i < j < |gs| ==> Size(gs[i]) >= Size(gs[j])
  }

  /** The groups of size exactly `n`, in their order in `gs`. */
  function WithSize<K, T>(gs: seq<Group<K, T>>, n: nat): seq<Group<K, T>> {
    if gs == [] then []
    else
      var init := WithSize(gs[..|gs| - 1], n);
      if Size(gs[|gs| - 1]) == n then init + [gs[|gs| - 1]] else init
  }

  lemma {:induction false} WithSizeConcat<K, T>(a: seq<Group<K, T>>, b: seq<Group<K, T>>, n: nat)
    ensures WithSize(a + b, n) == WithSize(a, n) + WithSize(b, n)
    decreases |b|
  {
    if b == [] {
      assert a + b == a;
    } else {
      var b' := b[..|b| - 1];
      assert (a + b)[..|a + b| - 1] == a + b';
      WithSizeConcat(a, b', n);
    }
  }

  lemma {:induction false} WithSizeNone<K, T>(gs: seq<Group<K, T>>, n: nat)
    requires forall i :: 0 <= i < |gs| ==> Size(gs[i]) != n
    ensures WithSize(gs, n) == []
  {
    if gs != [] {
      WithSizeNone(gs[..|gs| - 1], n);
    }
  }

  /** Inserts `g` after every group at least as large, before every smaller one. */
  function InsertBySize<K, T>(s: seq<Group<K, T>>, g: Group<K, T>): (r: seq<Group<K, T>>)
    requires NonIncreasing(s)
    ensures NonIncreasing(r)
    ensures multiset(r) == multiset(s) + multiset{g}
  {
    if s == [] then [g]
    else if Size(s[0]) < Size(g) then
      PrependLarger(g, s);
      [g] + s
    else
      NonIncreasingTail(s);
      var rest := InsertBySize(s[1..], g);
      PrependHead(s, g, rest);
      [s[0]] + rest
  }

  lemma PrependLarger<K, T>(g: Group<K, T>, s: seq<Group<K, T>>)
    requires NonIncreasing(s) && s != [] && Size(s[0]) < Size(g)
    ensures NonIncreasing([g] + s)
    ensures multiset([g] + s) == multiset(s) + multiset{g}
  {
    var r := [g] + s;
    forall i, j | 0 <= i < j < |r| ensures Size(r[i]) >= Size(r[j]) {
      if i == 0 {
        assert r[j] == s[j - 1];
      } else {
        assert r[i] == s[i - 1] && r[j] == s[j - 1];
      }
    }
  }

  lemma PrependHead<K, T>(s: seq<Group<K, T>>, g: Group<K, T>, rest: seq<Group<K, T>>)
    requires NonIncreasing(s) && s != [] && Size(s[0]) >= Size(g)
    requires NonIncreasing(rest) && multiset(rest) == multiset(s[1..]) + multiset{g}
    ensures NonIncreasing([s[0]] + rest)
    ensures multiset([s[0]] + rest) == multiset(s) + multiset{g}
  {
    var r := [s[0]] + rest;
    forall j | 0 <= j < |rest| ensures Size(s[0]) >= Size(rest[j]) {
      assert rest[j] in multiset(rest);
      if rest[j] != g {
        assert rest[j] in multiset(s[1..]);
        var k :| 0 <= k < |s[1..]| && s[1..][k] == rest[j];
        assert s[k + 1] == rest[j];
      }
    }
    forall i, j | 0 <= i < j < |r| ensures Size(r[i]) >= Size(r[j]) {
      assert r[j] == rest[j - 1];
      if i > 0 {
        assert r[i] == rest[i - 1];
      }
    }
    assert s == [s[0]] + s[1..];
  }

  /** `g` lands after every group of its own size: insertion is stable. */
  lemma {:induction false} InsertBySizeStable<K, T>(s: seq<Group<K, T>>, g: Group<K, T>, n: nat)
    requires NonIncreasing(s)
    ensures WithSize(InsertBySize(s, g), n) == WithSize(s, n) + (if Size(g) == n then [g] else [])
    decreases |s|
  {
    if s == [] {
      WithSizeSingle(g, n);
    } else if Size(s[0]) < Size(g) {
      PrependLargerStable(s, g, n);
    } else {
      NonIncreasingTail(s);
      var rest := InsertBySize(s[1..], g);
      InsertBySizeStable(s[1..], g, n);
      PrependSame(s[0], s[1..], rest, n, if Size(g) == n then [g] else []);
      assert s == [s[0]] + s[1..];
    }
  }

  lemma WithSizeSingle<K, T>(g: Group<K, T>, n: nat)
    ensures WithSize([g], n) == if Size(g) == n then [g] else []
  {
    assert [g][..0] == [];
  }

  lemma NonIncreasingTail<K, T>(s: seq<Group<K, T>>)
    requires NonIncreasing(s) && s != []
    ensures NonIncreasing(s[1..])
  {
    forall i, j | 0 <= i < j < |s[1..]| ensures Size(s[1..][i]) >= Size(s[1..][j]) {
      assert s[1..][i] == s[i + 1] && s[1..][j] == s[j + 1];
    }
  }

  lemma PrependLargerStable<K, T>(s: seq<Group<K, T>>, g: Group<K, T>, n: nat)
    requires NonIncreasing(s) && s != [] && Size(s[0]) < Size(g)
    ensures WithSize([g] + s, n) == WithSize(s, n) + (if Size(g) == n then [g] else [])
  {
    WithSizeSingle(g, n);
    WithSizeConcat([g], s, n);
    if Size(g) == n {
      assert forall i :: 0 <= i < |s| ==> Size(s[i]) <= Size(s[0]);
      WithSizeNone(s, n);
    }
  }

  lemma PrependSame<K, T>(h: Group<K, T>, s: seq<Group<K, T>>, t: seq<Group<K, T>>, n: nat, extra: seq<Group<K, T>>)
    requires WithSize(t, n) == WithSize(s, n) + extra
    ensures WithSize([h] + t, n) == WithSize([h] + s, n) + extra
  {
    WithSizeConcat([h], t, n);
    WithSizeConcat([h], s, n);
  }

  /**
   * The array sort of the views, `(g1, g2) => g2.length - g1.length`: groups by
   * non-increasing size; the sort is stable, so equal sizes keep their order.
   */
  function SortBySizeDesc<K, T>(gs: seq<Group<K, T>>): (r: seq<Group<K, T>>)
    ensures NonIncreasing(r)
    ensures multiset(r) == multiset(gs)
    ensures forall n: nat :: WithSize(r, n) == WithSize(gs, n)
  {
    if gs == [] then []
    else
      var init := gs[..|gs| - 1];
      assert gs == init + [gs[|gs| - 1]];
      var r := InsertBySize(SortBySizeDesc(init), gs[|gs| - 1]);
      assert forall n: nat :: WithSize(r, n) == WithSize(gs, n) by {
        forall n: nat ensures WithSize(r, n) == WithSize(gs, n) {
          InsertBySizeStable(SortBySizeDesc(init), gs[|gs| - 1], n);
        }
      }
      r
  }

  lemma {:induction false} TotalSizeCons<K, T>(g: Group<K, T>, t: seq<Group<K, T>>)
    ensures TotalSize([g] + t) == Size(g) + TotalSize(t)
    decreases |t|
  {
    if t != [] {
      var t' := t[..|t| - 1];
      assert ([g] + t)[..|t|] == [g] + t';
      TotalSizeCons(g, t');
    } else {
      assert [g][..0] == [];
    }
  }

  lemma {:induction false} InsertBySizeTotal<K, T>(s: seq<Group<K, T>>, g: Group<K, T>)
    requires NonIncreasing(s)
    ensures TotalSize(InsertBySize(s, g)) == TotalSize(s) + Size(g)
    decreases |s|
  {
    if s == [] {
      TotalSizeCons(g, s);
    } else if Size(s[0]) < Size(g) {
      TotalSizeCons(g, s);
    } else {
      var rest := InsertBySize(s[1..], g);
      InsertBySizeTotal(s[1..], g);
      TotalSizeCons(s[0], rest);
      TotalSizeCons(s[0], s[1..]);
      assert s == [s[0]] + s[1..];
    }
  }

  lemma {:induction false} InsertBySizeDistinct<K, T>(s: seq<Group<K, T>>, g: Group<K, T>)
    requires NonIncreasing(s) && DistinctKeys(s)
    requires forall i :: 0 <= i < |s| ==> s[i].key != g.key
    ensures DistinctKeys(InsertBySize(s, g))
    decreases |s|
  {
    if s != [] && Size(s[0]) >= Size(g) {
      NonIncreasingTail(s);
      assert DistinctKeys(s[1..]) by {
        forall i, j | 0 <= i < j < |s[1..]| ensures s[1..][i].key != s[1..][j].key {
          assert s[1..][i] == s[i + 1] && s[1..][j] == s[j + 1];
        }
      }
      var rest := InsertBySize(s[1..], g);
      InsertBySizeDistinct(s[1..], g);
      var r := [s[0]] + rest;
      forall j | 0 <= j < |rest| ensures rest[j].key != s[0].key {
        assert rest[j] in multiset(rest);
        if rest[j] != g {
          assert rest[j] in multiset(s[1..]);
          var k :| 0 <= k < |s[1..]| && s[1..][k] == rest[j];
          assert s[k + 1] == rest[j];
        }
      }
    }
  }

  /** Sorting keeps the total size. */
  lemma {:induction false} SortBySizeDescTotal<K, T>(gs: seq<Group<K, T>>)
    ensures TotalSize(SortBySizeDesc(gs)) == TotalSize(gs)
  {
    if gs != [] {
      var init := gs[..|gs| - 1];
      var g := gs[|gs| - 1];
      assert gs == init + [g];
      SortBySizeDescTotal(init);
      InsertBySizeTotal(SortBySizeDesc(init), g);
      TotalSizeSnoc(init, g);
    }
  }

  /** Sorting keeps keys distinct. */
  lemma {:induction false} SortBySizeDescDistinct<K, T>(gs: seq<Group<K, T>>)
    requires DistinctKeys(gs)
    ensures DistinctKeys(SortBySizeDesc(gs))
  {
    if gs != [] {
      var init := gs[..|gs| - 1];
      var g := gs[|gs| - 1];
      assert DistinctKeys(init);
      SortBySizeDescDistinct(init);
      var sorted := SortBySizeDesc(init);
      forall i | 0 <= i < |sorted| ensures sorted[i].key != g.key {
        assert sorted[i] in multiset(init);
        var k :| 0 <= k < |init| && init[k] == sorted[i];
        assert gs[k] == init[k];
      }
      InsertBySizeDistinct(sorted, g);
    }
  }

  /**
   * `d3.groups(xs, key).sort((a, b) => b[1].length - a[1].length)`: the groups
   * of `xs` by `key`, largest first, groups of equal size in order of first
   * occurrence.
   */
  function GroupBySizeDesc<T(!new), K(==,!new)>(xs: seq<T>, key: T -> K): (gs: seq<Group<K, T>>)
    ensures NonIncreasing(gs) && DistinctKeys(gs)
    ensures TotalSize(gs) == |xs|
    ensures forall i :: 0 <= i < |gs| ==> Size(gs[i]) > 0 && gs[i].members == WithKey(xs, key, gs[i].key)
    ensures forall x :: x in xs ==> key(x) in KeySet(gs)
    ensures forall n: nat :: WithSize(gs, n) == WithSize(GroupBy(xs, key), n)
  {
    var groups := GroupBy(xs, key);
    SortBySizeDescTotal(groups);
    SortBySizeDescDistinct(groups);
    SortedGroupsAreGroups(xs, key);
    ElementsHaveGroups(xs, key);
    SortKeepsKeySet(groups);
    SortBySizeDesc(groups)
  }

  lemma SortedGroupsAreGroups<T(!new), K(!new)>(xs: seq<T>, key: T -> K)
    ensures forall i :: 0 <= i < |SortBySizeDesc(GroupBy(xs, key))| ==>
              SortBySizeDesc(GroupBy(xs, key))[i] in GroupBy(xs, key)
  {
    var groups := GroupBy(xs, key);
    var gs := SortBySizeDesc(groups);
    forall i | 0 <= i < |gs| ensures gs[i] in groups {
      assert gs[i] in multiset(gs);
    }
  }

  /** The keys that have a group. */
  function KeySet<K(==), T>(gs: seq<Group<K, T>>): set<K> {
    set i | 0 <= i < |gs| :: gs[i].key
  }

  lemma ElementsHaveGroups<T(!new), K(!new)>(xs: seq<T>, key: T -> K)
    ensures forall x :: x in xs ==> key(x) in KeySet(GroupBy(xs, key))
  {
    forall x | x in xs ensures key(x) in KeySet(GroupBy(xs, key)) {
      ElementHasGroup(xs, key, x);
    }
  }

  lemma SortKeepsKeySet<K, T>(groups: seq<Group<K, T>>)
    ensures KeySet(SortBySizeDesc(groups)) == KeySet(groups)
  {
    var gs := SortBySizeDesc(groups);
    forall k | k in KeySet(gs) ensures k in KeySet(groups) {
      var i :| 0 <= i < |gs| && gs[i].key == k;
      assert gs[i] in multiset(gs);
      var j :| 0 <= j < |groups| && groups[j] == gs[i];
    }
    forall k | k in KeySet(groups) ensures k in KeySet(gs) {
      var j :| 0 <= j < |groups| && groups[j].key == k;
      assert groups[j] in multiset(groups);
      var i :| 0 <= i < |gs| && gs[i] == groups[j];
    }
  }

  /** The keys of the groups, in order. */
  function GroupKeys<K, T>(gs: seq<Group<K, T>>): seq<K> {
    seq(|gs|, i requires 0 <= i < |gs| => gs[i].key)
  }

  /** `d3.max(xs)`: the largest element, or `undefined` (None) for no elements. */
  function MaxOf(xs: seq<nat>): (m: Option<nat>)
    ensures m.None? <==> xs == []
    ensures m.Some? ==> m.value in xs && forall i :: 0 <= i < |xs| ==> xs[i] <= m.value
  {
    if xs == [] then None
    else
      var init := xs[..|xs| - 1];
      assert xs == init + [xs[|xs| - 1]];
      match MaxOf(init)
      case None => Some(xs[|xs| - 1])
      case Some(m) => Some(if xs[|xs| - 1] > m then xs[|xs| - 1] else m)
  }

  /** The sizes of the groups, in order. */
  function Sizes<K, T>(gs: seq<Group<K, T>>): seq<nat> {
    seq(|gs|, i requires 0 <= i < |gs| => Size(gs[i]))
  }
}
