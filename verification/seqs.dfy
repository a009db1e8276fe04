/**
 * Sequence operations the store uses: `Array.prototype.filter`, `find`/`findIndex`,
 * `includes` + `push`, and the in-place update of the record `find` returned.
 */
module Seqs {
  import opened Wrappers

  /** No element occurs twice. */
  ghost predicate Distinct<T(!new)>(s: seq<T>) {
    forall x :: multiset(s)[x] <= 1
  }

  /** `s.filter(keep)`: the elements that satisfy `keep`, in their original order. */
  function Filter<T(==,!new)>(s: seq<T>, keep: T -> bool): (r: seq<T>)
    ensures |r| <= |s|
    ensures forall x :: x in r <==> x in s && keep(x)
  {
    if s == [] then []
    else
      var rest := Filter(s[1..], keep);
      assert s == [s[0]] + s[1..];
      if keep(s[0]) then [s[0]] + rest else rest
  }

  /** Filtering distributes over concatenation: the kept elements stay in their order. */
  lemma {:induction false} FilterConcat<T(!new)>(a: seq<T>, b: seq<T>, keep: T -> bool)
    ensures Filter(a + b, keep) == Filter(a, keep) + Filter(b, keep)
  {
    if a == [] {
      assert a + b == b;
    } else {
      assert (a + b)[0] == a[0] && (a + b)[1..] == a[1..] + b;
      FilterConcat(a[1..], b, keep);
      if keep(a[0]) {
        assert [a[0]] + (Filter(a[1..], keep) + Filter(b, keep)) == ([a[0]] + Filter(a[1..], keep)) + Filter(b, keep);
      }
    }
  }

  /** A filter that keeps every element is the identity. */
  lemma {:induction false} FilterKeepsAll<T(!new)>(s: seq<T>, keep: T -> bool)
    requires forall x :: x in s ==> keep(x)
    ensures Filter(s, keep) == s
  {
    if s != [] {
      FilterKeepsAll(s[1..], keep);
    }
  }

  /** A kept value occurs as often as before; a dropped one not at all. */
  lemma {:induction false} FilterCount<T(!new)>(s: seq<T>, keep: T -> bool)
    ensures forall x :: multiset(Filter(s, keep))[x] == if keep(x) then multiset(s)[x] else 0
  {
    if s != [] {
      FilterCount(s[1..], keep);
      assert s == [s[0]] + s[1..];
    }
  }

  /** Filtering preserves distinctness. */
  lemma FilterDistinct<T(!new)>(s: seq<T>, keep: T -> bool)
    requires Distinct(s)
    ensures Distinct(Filter(s, keep))
  {
    FilterCount(s, keep);
  }

  /** A one-element sequence is kept whole or dropped whole. */
  lemma FilterSingleton<T(!new)>(y: T, keep: T -> bool)
    ensures Filter([y], keep) == if keep(y) then [y] else []
  {
    assert [y][1..] == [];
  }

  /** The predicate `y => y !== x`. */
  function Other<T(==)>(x: T): T -> bool {
    y => y != x
  }

  /** `s.filter(y => y !== x)`. */
  function RemoveAll<T(==,!new)>(s: seq<T>, x: T): (r: seq<T>)
    ensures x !in r
    ensures forall y :: y != x ==> multiset(r)[y] == multiset(s)[y]
    ensures Distinct(s) ==> Distinct(r)
  {
    FilterCount(s, Other(x));
    Filter(s, Other(x))
  }

  /**
   * Removal keeps the survivors in their order: it distributes over concatenation,
   * drops a lone `x` and keeps any other lone element (which together fix the
   * result of every input).
   */
  lemma RemoveAllKeepsOrder<T(!new)>(a: seq<T>, b: seq<T>, x: T, y: T)
    ensures RemoveAll(a + b, x) == RemoveAll(a, x) + RemoveAll(b, x)
    ensures RemoveAll([y], x) == if y == x then [] else [y]
  {
    FilterConcat(a, b, Other(x));
    FilterSingleton(y, Other(x));
  }

  /** `if (!s.includes(x)) s.push(x)`. */
  function AppendIfAbsent<T(==,!new)>(s: seq<T>, x: T): (r: seq<T>)
    ensures x in r
    ensures forall y :: y != x ==> multiset(r)[y] == multiset(s)[y]
    ensures multiset(r)[x] == if x in s then multiset(s)[x] else 1
    ensures Distinct(s) ==> Distinct(r)
    ensures |s| <= |r| && r[..|s|] == s
  {
    if x in s then s else s + [x]
  }

  /** `s.findIndex(e => key(e) === k)`, with -1 written as None. */
  function FirstIndex<T, K(==)>(s: seq<T>, key: T -> K, k: K): (r: Option<nat>)
    ensures r.None? <==> forall j :: 0 <= j < |s| ==> key(s[j]) != k
    ensures r.Some? ==> r.value < |s| && key(s[r.value]) == k
    ensures r.Some? ==> forall j :: 0 <= j < r.value ==> key(s[j]) != k
  {
    if s == [] then None
    else if key(s[0]) == k then Some(0)
    else match FirstIndex(s[1..], key, k)
      case None => None
      case Some(j) => Some(j + 1)
  }

  /** `s.find(e => key(e) === k)`. */
  function Find<T, K(==)>(s: seq<T>, key: T -> K, k: K): (r: Option<T>)
    ensures r.Some? <==> exists j :: 0 <= j < |s| && key(s[j]) == k
    ensures r.Some? ==> r.value in s && key(r.value) == k
  {
    match FirstIndex(s, key, k)
    case None => None
    case Some(i) => Some(s[i])
  }

  /**
   * `const e = s.find(e => key(e) === k); if (e) mutate(e)`: only the first
   * element with key `k` is replaced by `f` of it; without one, nothing changes.
   */
  function UpdateFirst<T, K(==)>(s: seq<T>, key: T -> K, k: K, f: T -> T): (r: seq<T>)
    ensures |r| == |s|
    ensures FirstIndex(s, key, k).None? ==> r == s
    ensures FirstIndex(s, key, k).Some? ==>
      var i := FirstIndex(s, key, k).value;
      r[i] == f(s[i]) && forall j :: 0 <= j < |s| && j != i ==> r[j] == s[j]
  {
    match FirstIndex(s, key, k)
    case None => s
    case Some(i) => s[i := f(s[i])]
  }

  /** An update that keeps keys leaves the position of every key where it was. */
  lemma UpdateFirstKeepsIndex<T, K>(s: seq<T>, key: T -> K, k: K, f: T -> T, k2: K)
    requires forall x :: key(f(x)) == key(x)
    ensures FirstIndex(UpdateFirst(s, key, k, f), key, k2) == FirstIndex(s, key, k2)
  {
    var r := UpdateFirst(s, key, k, f);
    assert forall j :: 0 <= j < |s| ==> key(r[j]) == key(s[j]);
    FirstIndexSameKeys(s, r, key, k2);
  }

  /** `find` only looks at the keys. */
  lemma {:induction false} FirstIndexSameKeys<T, K>(s: seq<T>, t: seq<T>, key: T -> K, k: K)
    requires |s| == |t|
    requires forall j :: 0 <= j < |s| ==> key(s[j]) == key(t[j])
    ensures FirstIndex(s, key, k) == FirstIndex(t, key, k)
  {
    if s != [] && key(s[0]) != k {
      FirstIndexSameKeys(s[1..], t[1..], key, k);
    }
  }

  /** Two updates of the first match whose changes undo each other restore the sequence. */
  lemma UpdateFirstInvolution<T, K>(s: seq<T>, key: T -> K, k: K, f: T -> T)
    requires forall x :: key(f(x)) == key(x)
    requires forall x :: key(x) == k ==> f(f(x)) == x
    ensures UpdateFirst(UpdateFirst(s, key, k, f), key, k, f) == s
  {
    UpdateFirstKeepsIndex(s, key, k, f, k);
  }

  /** `s.indexOf(x)`: the first position of `x`, or -1. */
  function IndexOf<T(==)>(s: seq<T>, x: T): (r: int)
    ensures -1 <= r < |s|
    ensures r == -1 <==> x !in s
    ensures r >= 0 ==> s[r] == x && x !in s[..r]
  {
    if s == [] then -1
    else if s[0] == x then 0
    else
      var j := IndexOf(s[1..], x);
      assert s[1..][..(if j < 0 then 0 else j)] == s[1..1 + (if j < 0 then 0 else j)];
      if j < 0 then -1 else j + 1
  }

  /** Without repeats, elements at different positions differ. */
  lemma DistinctPairwise<T(!new)>(s: seq<T>, p: int, q: int)
    requires Distinct(s) && 0 <= p < q < |s|
    ensures s[p] != s[q]
  {
    assert s == s[..q] + s[q..];
    assert s[p] == s[..q][p] && s[q] == s[q..][0];
    assert multiset(s)[s[q]] == multiset(s[..q])[s[q]] + multiset(s[q..])[s[q]];
  }

  /** The first occurrence of an element is where `indexOf` finds it. */
  lemma IndexOfFirst<T>(s: seq<T>, i: int)
    requires 0 <= i < |s| && s[i] !in s[..i]
    ensures IndexOf(s, s[i]) == i
  {
    var r := IndexOf(s, s[i]);
    assert forall p :: 0 <= p < i ==> s[..i][p] == s[p];
    assert forall p :: 0 <= p < r ==> s[..r][p] == s[p];
  }

  /** In a sequence without repeats, the index of the element at `i` is `i`. */
  lemma IndexOfDistinct<T>(s: seq<T>, i: int)
    requires 0 <= i < |s|
    requires forall p, q :: 0 <= p < q < |s| ==> s[p] != s[q]
    ensures IndexOf(s, s[i]) == i
  {
    var j := IndexOf(s, s[i]);
    assert forall p :: 0 <= p < j ==> s[..j][p] == s[p];
  }

  /** The start index `Array.prototype.slice` uses for an integer argument `k` on length `n`. */
  function SliceIndex(k: int, n: nat): (r: nat)
    ensures r <= n
    ensures 0 <= k <= n ==> r == k
  {
    if k < 0 then (if n + k < 0 then 0 else n + k)
    else if k > n then n
    else k
  }

  /** `s.slice(0, k)` and `s.slice(k)` for any integer `k` put back together give `s`. */
  lemma SliceSplit<T>(s: seq<T>, k: int)
    ensures s[..SliceIndex(k, |s|)] + s[SliceIndex(k, |s|)..] == s
  {
  }
}
