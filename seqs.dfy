/** The array operations the two pages compose: `filter`, `flatMap`,
    `[...new Set(xs)]`, `sort` with a comparator, and the membership toggle
    `xs.includes(x) ? xs.filter(v => v !== x) : [...xs, x]` that both pages
    write out several times. */
module Seqs {
  import opened Js

  // ------------------------------------------------------- subsequences

  /** `a` is `b` with some elements left out, the rest in their order. */
  predicate Subsequence<T(==,!new)>(a: seq<T>, b: seq<T>)
    decreases |b|
  {
    if a == [] then true
    else if b == [] then false
    else (a[0] == b[0] && Subsequence(a[1..], b[1..])) || Subsequence(a, b[1..])
  }

  // -------------------------------------------------------------- filter

  /** `xs.filter(p)`; the predicate may be partial, as long as it is defined on
      every element it is asked about. */
  function Filter<T(==,!new)>(xs: seq<T>, p: T --> bool): (r: seq<T>)
    requires forall x | x in xs :: p.requires(x)
    ensures |r| <= |xs|
    ensures Subsequence(r, xs)
    ensures forall x :: x in r <==> x in xs && p(x)
    ensures forall x {:trigger multiset(r)[x]} | x in xs :: multiset(r)[x] == if p(x) then multiset(xs)[x] else 0
    decreases |xs|
  {
    if xs == [] then []
    else
      var rest := Filter(xs[1..], p);
      assert xs == [xs[0]] + xs[1..];
      assert forall x :: x in xs <==> x == xs[0] || x in xs[1..];
      if p(xs[0]) then [xs[0]] + rest else rest
  }

  /** A predicate that holds everywhere filters nothing out. */
  lemma {:induction false} FilterKeepsAll<T(!new)>(xs: seq<T>, p: T --> bool)
    requires forall x | x in xs :: p.requires(x) && p(x)
    ensures Filter(xs, p) == xs
    decreases |xs|
  {
    if xs != [] {
      assert forall x | x in xs[1..] :: x in xs;
      FilterKeepsAll(xs[1..], p);
    }
  }

  /** Filtering distributes over concatenation. */
  lemma {:induction false} FilterAppend<T(!new)>(xs: seq<T>, ys: seq<T>, p: T --> bool)
    requires forall x | x in xs + ys :: p.requires(x)
    ensures Filter(xs + ys, p) == Filter(xs, p) + Filter(ys, p)
    decreases |xs|
  {
    if xs == [] {
      assert xs + ys == ys;
    } else {
      assert (xs + ys)[1..] == xs[1..] + ys;
      assert forall x | x in xs[1..] + ys :: x in xs + ys;
      FilterAppend(xs[1..], ys, p);
    }
  }

  /** `xs.filter(v => v !== x)`. */
  function Without<T(==,!new)>(xs: seq<T>, x: T): (r: seq<T>)
    ensures x !in r
    ensures forall y :: y != x ==> (y in r <==> y in xs)
    ensures Subsequence(r, xs)
  {
    Filter(xs, y => y != x)
  }

  lemma WithoutAbsent<T(!new)>(xs: seq<T>, x: T)
    requires x !in xs
    ensures Without(xs, x) == xs
  {
    FilterKeepsAll(xs, y => y != x);
  }

  // ---------------------------------------------------------- membership

  /** `xs.includes(x) ? xs.filter(v => v !== x) : [...xs, x]`: flips whether
      `x` is present and leaves the membership of every other value alone. */
  function Toggle<T(==,!new)>(xs: seq<T>, x: T): (r: seq<T>)
    ensures x in r <==> x !in xs
    ensures forall y :: y != x ==> (y in r <==> y in xs)
    ensures x !in xs ==> r == xs + [x]
    ensures x in xs ==> Subsequence(r, xs)
  {
    if x in xs then Without(xs, x) else xs + [x]
  }

  /** Toggling the same value twice restores every membership; when the value
      was absent it restores the very sequence. */
  lemma ToggleTwice<T(!new)>(xs: seq<T>, x: T)
    ensures forall y :: y in Toggle(Toggle(xs, x), x) <==> y in xs
    ensures x !in xs ==> Toggle(Toggle(xs, x), x) == xs
  {
    if x !in xs {
      var p := y => y != x;
      FilterAppend(xs, [x], p);
      WithoutAbsent(xs, x);
      assert Filter([x], p) == [];
    }
  }

  // ---------------------------------------------------- sets and flatMap

  /** No value occurs twice. */
  predicate Distinct<T(==,!new)>(s: seq<T>) {
    forall i, j :: 0 <= i < j < |s| ==> s[i] != s[j]
  }

  /** A sequence is duplicate-free iff every value has multiplicity at most one. */
  lemma {:induction false} DistinctMultiset<T(!new)>(s: seq<T>)
    ensures Distinct(s) <==> forall v :: multiset(s)[v] <= 1
    decreases |s|
  {
    if s != [] {
      var t := s[1..];
      assert s == [s[0]] + t;
      DistinctMultiset(t);
      assert multiset(s) == multiset{s[0]} + multiset(t);
      if Distinct(s) {
        assert Distinct(t) by {
          forall i, j | 0 <= i < j < |t| ensures t[i] != t[j] { assert s[i + 1] != s[j + 1]; }
        }
        assert s[0] !in t by {
          forall j | 0 <= j < |t| ensures t[j] != s[0] { assert s[0] != s[j + 1]; }
        }
      } else {
        var i, j :| 0 <= i < j < |s| && s[i] == s[j];
        if i == 0 {
          assert s[0] in t by { assert t[j - 1] == s[j]; }
          assert multiset(s)[s[0]] >= 2;
        } else {
          assert !Distinct(t) by { assert t[i - 1] == t[j - 1]; }
          var v :| multiset(t)[v] > 1;
          assert multiset(s)[v] > 1;
        }
      }
    }
  }

  /** Permuting a duplicate-free sequence keeps it duplicate-free. */
  lemma DistinctPermutation<T(!new)>(a: seq<T>, b: seq<T>)
    requires Distinct(a) && multiset(a) == multiset(b)
    ensures Distinct(b)
  {
    DistinctMultiset(a);
    DistinctMultiset(b);
  }

  /** `[...new Set(xs)]`: every value of `xs`, once. */
  function Dedup<T(==,!new)>(xs: seq<T>): (r: seq<T>)
    ensures Distinct(r)
    ensures forall v :: v in r <==> v in xs
    decreases |xs|
  {
    if xs == [] then []
    else
      var init := xs[..|xs| - 1];
      var last := xs[|xs| - 1];
      assert xs == init + [last];
      if last in init then Dedup(init) else Dedup(init) + [last]
  }

  /** `xs.flatMap(f)`. */
  function FlatMap<T(!new), U(==,!new)>(xs: seq<T>, f: T -> seq<U>): (r: seq<U>)
    ensures forall u :: u in r <==> exists x :: x in xs && u in f(x)
    decreases |xs|
  {
    if xs == [] then []
    else
      var rest := FlatMap(xs[1..], f);
      assert forall x :: x in xs <==> x == xs[0] || x in xs[1..];
      f(xs[0]) + rest
  }

  // --------------------------------------------------------------- sort

  /** Ordered by `key`, ties allowed. */
  predicate SortedBy<T>(s: seq<T>, key: T -> SortKey) {
    forall i, j :: 0 <= i < j < |s| ==> KeyLe(key(s[i]), key(s[j]))
  }

  /** Places `x` in front of the first element it does not sort after, so
      that it stays ahead of the equal keys that followed it in the input. */
  function Insert<T(==,!new)>(x: T, s: seq<T>, key: T -> SortKey): (r: seq<T>)
    requires SortedBy(s, key)
    ensures SortedBy(r, key)
    ensures multiset(r) == multiset(s) + multiset{x}
    decreases |s|
  {
    if s == [] then [x]
    else if KeyLe(key(x), key(s[0])) then
      assert forall j :: 0 <= j < |s| ==> KeyLe(key(x), key(s[j])) by {
        forall j | 0 <= j < |s| ensures KeyLe(key(x), key(s[j])) {
          if j > 0 { KeyLeTrans(key(x), key(s[0]), key(s[j])); }
        }
      }
      [x] + s
    else
      var rest := Insert(x, s[1..], key);
      assert s == [s[0]] + s[1..];
      KeyLeTotal(key(x), key(s[0]));
      HeadLeAll(s, x, rest, key);
      [s[0]] + rest
  }

  /** The head of a sorted sequence sorts no later than anything in its
      tail with `x` added, when it sorts no later than `x` itself. */
  lemma {:induction false} HeadLeAll<T(!new)>(s: seq<T>, x: T, rest: seq<T>, key: T -> SortKey)
    requires SortedBy(s, key) && s != [] && KeyLe(key(s[0]), key(x))
    requires multiset(rest) == multiset(s[1..]) + multiset{x}
    ensures forall j :: 0 <= j < |rest| ==> KeyLe(key(s[0]), key(rest[j]))
  {
    forall j | 0 <= j < |rest| ensures KeyLe(key(s[0]), key(rest[j])) {
      assert rest[j] in multiset(rest);
      if rest[j] != x {
        assert rest[j] in multiset(s[1..]);
        var k :| 0 <= k < |s[1..]| && s[1..][k] == rest[j];
        assert s[k + 1] == rest[j];
      }
    }
  }

  /** The elements whose key is `k`: the ones a stable sort must keep in
      their input order. */
  function KeyIs<T>(key: T -> SortKey, k: SortKey): T -> bool {
    x => key(x) == k
  }

  /** Filtering a sequence with a known first element. */
  lemma {:induction false} FilterCons<T(!new)>(a: T, t: seq<T>, p: T -> bool)
    ensures Filter([a] + t, p) == (if p(a) then [a] else []) + Filter(t, p)
  {
    assert ([a] + t)[1..] == t;
  }

  /** The sequence algebra of one insertion step: with one of `f0` and `fx`
      empty, `f0 + (fx + t)` is `fx + (f0 + t)`. */
  lemma {:induction false} Regroup<T>(a: seq<T>, q: seq<T>, t: seq<T>, s: seq<T>, f0: seq<T>, fx: seq<T>)
    requires a == f0 + q && q == fx + t && s == f0 + t
    requires f0 == [] || fx == []
    ensures a == fx + s
  {
    if f0 == [] {
      assert a == q && s == t;
    } else {
      assert q == t && a == s;
    }
  }

  /** Inserting `x` puts it ahead of every element with its own key and
      leaves the order among the others as it was. */
  lemma {:induction false} InsertStable<T(!new)>(x: T, s: seq<T>, key: T -> SortKey, k: SortKey)
    requires SortedBy(s, key)
    ensures Filter(Insert(x, s, key), KeyIs(key, k)) == (if key(x) == k then [x] else []) + Filter(s, KeyIs(key, k))
    decreases |s|
  {
    if s == [] || KeyLe(key(x), key(s[0])) {
      assert Insert(x, s, key) == [x] + s;
      FilterCons(x, s, KeyIs(key, k));
    } else {
      assert SortedBy(s[1..], key);
      InsertStable(x, s[1..], key, k);
      InsertPastHead(x, s, key, k);
    }
  }

  /** An element that sorts after the head is inserted into the tail. */
  lemma {:induction false} InsertPast<T(!new)>(x: T, s: seq<T>, key: T -> SortKey)
    requires SortedBy(s, key) && s != [] && !KeyLe(key(x), key(s[0]))
    ensures Insert(x, s, key) == [s[0]] + Insert(x, s[1..], key)
  {
  }

  /** The inductive step of `InsertStable`: `x` goes past the head of `s`,
      whose key therefore differs from its own. */
  lemma {:induction false} InsertPastHead<T(!new)>(x: T, s: seq<T>, key: T -> SortKey, k: SortKey)
    requires SortedBy(s, key) && s != [] && !KeyLe(key(x), key(s[0]))
    requires Filter(Insert(x, s[1..], key), KeyIs(key, k)) == (if key(x) == k then [x] else []) + Filter(s[1..], KeyIs(key, k))
    ensures Filter(Insert(x, s, key), KeyIs(key, k)) == (if key(x) == k then [x] else []) + Filter(s, KeyIs(key, k))
  {
    KeyLeRefl(key(x));
    var p := KeyIs(key, k);
    var t := s[1..];
    var q := Insert(x, t, key);
    InsertPast(x, s, key);
    var fx := if key(x) == k then [x] else [];
    var f0 := if key(s[0]) == k then [s[0]] else [];
    assert f0 == [] || fx == [];
    FilterCons(s[0], q, p);
    assert s == [s[0]] + t;
    FilterCons(s[0], t, p);
    Regroup(Filter(Insert(x, s, key), p), Filter(q, p), Filter(t, p), Filter(s, p), f0, fx);
  }

  /** `[...xs].sort(cmp)` for a comparator that orders by `key`: an insertion
      sort. The result is ordered, a permutation of the input, and stable:
      the elements sharing a key keep their input order. */
  function SortByKey<T(==,!new)>(xs: seq<T>, key: T -> SortKey): (r: seq<T>)
    ensures |r| == |xs|
    ensures SortedBy(r, key)
    ensures multiset(r) == multiset(xs)
    ensures forall k :: Filter(r, KeyIs(key, k)) == Filter(xs, KeyIs(key, k))
    decreases |xs|
  {
    if xs == [] then []
    else
      assert xs == [xs[0]] + xs[1..];
      var sorted := SortByKey(xs[1..], key);
      var r := Insert(xs[0], sorted, key);
      assert |r| == |multiset(r)|;
      assert forall k :: Filter(r, KeyIs(key, k)) == Filter(xs, KeyIs(key, k)) by {
        forall k ensures Filter(r, KeyIs(key, k)) == Filter(xs, KeyIs(key, k)) {
          InsertStable(xs[0], sorted, key, k);
        }
      }
      r
  }

  /** Sorting a sequence changes which values it holds in no way. */
  lemma SortKeepsMembers<T(!new)>(xs: seq<T>, key: T -> SortKey, v: T)
    ensures v in SortByKey(xs, key) <==> v in xs
  {
    var r := SortByKey(xs, key);
    assert v in r <==> v in multiset(r);
    assert v in xs <==> v in multiset(xs);
  }
}
