/**
 * Keyboard navigation of the tab list (src/components/Tabs/index.tsx). A tab is
 * known here by its id; the ids are in display order. `HandleKeyDown` returns the
 * id the component passes to `onTabChange`, if it calls it.
 */
module Tabs {
  import opened Wrappers
  import opened Seqs

  /** The tab shown as active: the first one with the active id, or the first tab when none has it. */
  function ActiveTabIndex<Id(==)>(ids: seq<Id>, active: Id): (r: nat)
    ensures |ids| > 0 ==> r < |ids|
    ensures active in ids ==> ids[r] == active && active !in ids[..r]
    ensures active !in ids ==> r == 0
  {
    var k := IndexOf(ids, active);
    if k < 0 then 0 else k
  }

  /** The key that moves to the next tab, in either case. */
  predicate IsNextKey(key: string) {
    key == "l" || key == "L"
  }

  /** The key that moves to the previous tab, in either case. */
  predicate IsPreviousKey(key: string) {
    key == "h" || key == "H"
  }

  /**
   * `handleKeyDown`: with two tabs or more, "l" selects the tab after the active one
   * and "h" the one before it, wrapping around at either end; any other key, or a
   * list of at most one tab, changes nothing.
   */
  function HandleKeyDown<Id(==)>(ids: seq<Id>, active: Id, key: string): (r: Option<Id>)
    ensures r.Some? <==> |ids| >= 2 && (IsNextKey(key) || IsPreviousKey(key))
    ensures r.Some? && IsNextKey(key) ==>
      var i := ActiveTabIndex(ids, active);
      r.value == if i < |ids| - 1 then ids[i + 1] else ids[0]
    ensures r.Some? && IsPreviousKey(key) ==>
      var i := ActiveTabIndex(ids, active);
      r.value == if i > 0 then ids[i - 1] else ids[|ids| - 1]
  {
    var length := |ids|;
    if length <= 1 then None
    else
      var activeTabIndex := ActiveTabIndex(ids, active);
      var nextIndex := NextIndex(activeTabIndex, length, key);
      if nextIndex != activeTabIndex then Some(ids[nextIndex]) else None
  }

  /** `nextIndex`: one step forward for "l", one step back for "h", modulo the number of tabs. */
  function NextIndex(activeTabIndex: nat, length: nat, key: string): (r: nat)
    requires 2 <= length && activeTabIndex < length
    ensures r < length
    ensures IsNextKey(key) ==> r == if activeTabIndex < length - 1 then activeTabIndex + 1 else 0
    ensures IsPreviousKey(key) ==> r == if activeTabIndex > 0 then activeTabIndex - 1 else length - 1
    ensures !IsNextKey(key) && !IsPreviousKey(key) ==> r == activeTabIndex
  {
    ModWrap(activeTabIndex + 1, length);
    ModWrap(activeTabIndex - 1 + length, length);
    if IsNextKey(key) then (activeTabIndex + 1) % length
    else if IsPreviousKey(key) then (activeTabIndex - 1 + length) % length
    else activeTabIndex
  }

  /** With distinct ids, "l" then "h" (or "h" then "l") comes back to the active tab. */
  lemma NextThenPrevious<Id(!new)>(ids: seq<Id>, active: Id, forward: string, back: string)
    requires Distinct(ids)
    requires active in ids && |ids| >= 2
    requires (IsNextKey(forward) && IsPreviousKey(back)) || (IsPreviousKey(forward) && IsNextKey(back))
    ensures HandleKeyDown(ids, active, forward).Some?
    ensures HandleKeyDown(ids, HandleKeyDown(ids, active, forward).value, back) == Some(active)
  {
    var i := ActiveTabIndex(ids, active);
    var next := HandleKeyDown(ids, active, forward).value;
    var j := if IsNextKey(forward) then (if i < |ids| - 1 then i + 1 else 0)
             else (if i > 0 then i - 1 else |ids| - 1);
    assert next == ids[j];
    DistinctIndex(ids, j);
  }

  /** The active id after pressing `key` `k` times, the parent applying each change. */
  function PressRepeatedly<Id(==)>(ids: seq<Id>, active: Id, key: string, k: nat): Id {
    if k == 0 then active
    else PressRepeatedly(ids, HandleKeyDown(ids, active, key).GetOr(active), key, k - 1)
  }

  /**
   * With distinct ids, `k` presses of "l" (at most one per tab) from the tab at `i`
   * advance the active tab `k` places, wrapping past the last tab to the first.
   */
  lemma {:induction false} PressNextRepeatedly<Id(!new)>(ids: seq<Id>, i: int, key: string, k: nat)
    requires Distinct(ids)
    requires 0 <= i < |ids| && |ids| >= 2 && IsNextKey(key) && k <= |ids|
    ensures PressRepeatedly(ids, ids[i], key, k) == ids[if i + k < |ids| then i + k else i + k - |ids|]
    decreases k
  {
    if k > 0 {
      var n, next := |ids|, if i < |ids| - 1 then i + 1 else 0;
      NextFrom(ids, i, key);
      PressNextRepeatedly(ids, next, key, k - 1);
      assert (if next + (k - 1) < n then next + (k - 1) else next + (k - 1) - n) == (if i + k < n then i + k else i + k - n);
    }
  }

  /** From the tab at `j`, with distinct ids, "l" selects the tab at `j + 1`, or the first after the last. */
  lemma NextFrom<Id(!new)>(ids: seq<Id>, j: int, key: string)
    requires Distinct(ids)
    requires 0 <= j < |ids| && |ids| >= 2 && IsNextKey(key)
    ensures HandleKeyDown(ids, ids[j], key) == Some(if j < |ids| - 1 then ids[j + 1] else ids[0])
  {
    DistinctIndex(ids, j);
  }

  /** Without repeats, the tab at `j` is found at `j`. */
  lemma DistinctIndex<Id(!new)>(ids: seq<Id>, j: int)
    requires Distinct(ids) && 0 <= j < |ids|
    ensures ActiveTabIndex(ids, ids[j]) == j
  {
    forall p, q | 0 <= p < q < |ids|
      ensures ids[p] != ids[q]
    {
      DistinctPairwise(ids, p, q);
    }
    IndexOfDistinct(ids, j);
  }

  /** Pressing "l" once per tab cycles back to the active tab. */
  lemma FullCycle<Id(!new)>(ids: seq<Id>, active: Id, key: string)
    requires Distinct(ids)
    requires active in ids && |ids| >= 2 && IsNextKey(key)
    ensures PressRepeatedly(ids, active, key, |ids|) == active
  {
    var i := ActiveTabIndex(ids, active);
    PressNextRepeatedly(ids, i, key, |ids|);
  }

  /** The remainder is the only `r` in `[0, n)` with `x == q * n + r`. */
  lemma ModUnique(x: int, q: int, r: int, n: int)
    requires n > 0 && 0 <= r < n && x == q * n + r
    ensures x % n == r
  {
    var d := q - x / n;
    MulSub(q, x / n, n);
    assert d * n == x % n - r;
    if d > 0 {
      MulAtLeast(d, n);
    } else if d < 0 {
      MulAtLeast(-d, n);
    }
  }

  lemma MulSub(a: int, b: int, n: int)
    ensures a * n - b * n == (a - b) * n
  {
  }

  lemma MulAtLeast(d: int, n: int)
    requires d >= 1 && n > 0
    ensures d * n >= n && (-d) * n <= -n
  {
  }

  /** Reduction of a value in `[0, 2n)` modulo `n`. */
  lemma ModWrap(a: int, n: int)
    requires n > 0 && 0 <= a < 2 * n
    ensures a % n == if a < n then a else a - n
  {
    if a < n {
      ModUnique(a, 0, a, n);
    } else {
      ModUnique(a, 1, a - n, n);
    }
  }
}
