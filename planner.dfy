/**
 * The search-order planner of macro_loop (macro.py:445-453): the operator's
 * selection is stably sorted by canonical shelf index (unknown names sort
 * last, with key 99), and once the shelf position is known the sorted list is
 * rotated to start at the first pack at or after the last clicked index.
 */
module Planner {
  import opened Catalog

  /** Non-decreasing by sort key. */
  ghost predicate SortedByKey(key: string -> nat, s: seq<string>)
  {
    forall i, j :: 0 <= i < j < |s| ==> key(s[i]) <= key(s[j])
  }

  /** The elements of s whose sort key is k, in their order in s. */
  function WithKey(key: string -> nat, s: seq<string>, k: nat): (r: seq<string>)
    ensures |r| <= |s|
  {
    if |s| == 0 then []
    else (if key(s[0]) == k then [s[0]] else []) + WithKey(key, s[1..], k)
  }

  /** Inserts x in front of the first element whose key is not smaller than x's. */
  function Insert(key: string -> nat, x: string, s: seq<string>): (r: seq<string>)
    ensures |r| == |s| + 1
    ensures multiset(r) == multiset(s) + multiset{x}
  {
    if |s| == 0 || key(x) <= key(s[0]) then [x] + s
    else
      assert s == [s[0]] + s[1..];
      [s[0]] + Insert(key, x, s[1..])
  }

  lemma {:induction false} InsertSorted(key: string -> nat, x: string, s: seq<string>)
    requires SortedByKey(key, s)
    ensures SortedByKey(key, Insert(key, x, s))
  {
    if |s| > 0 && key(x) > key(s[0]) {
      InsertSorted(key, x, s[1..]);
      var t := Insert(key, x, s[1..]);
      assert Insert(key, x, s) == [s[0]] + t;
      forall j | 0 <= j < |t| ensures key(s[0]) <= key(t[j]) {
        assert t[j] in multiset(t);
        assert t[j] == x || t[j] in multiset(s[1..]);
        if t[j] != x {
          var m :| 0 <= m < |s[1..]| && s[1..][m] == t[j];
          assert s[m + 1] == t[j];
        }
      }
    }
  }

  /**
   * sorted(selected_packs, key=lambda x: temp_pack_order.get(x, 99)): a stable
   * sort by canonical shelf index, unknown names last (macro.py:445-446).
   */
  function SortByKey(key: string -> nat, s: seq<string>): (r: seq<string>)
    ensures |r| == |s|
    ensures multiset(r) == multiset(s)
    ensures SortedByKey(key, r)
  {
    if |s| == 0 then []
    else
      var t := SortByKey(key, s[1..]);
      InsertSorted(key, s[0], t);
      assert s == [s[0]] + s[1..];
      Insert(key, s[0], t)
  }

  lemma {:induction false} InsertWithKey(key: string -> nat, x: string, s: seq<string>, k: nat)
    requires SortedByKey(key, s)
    ensures WithKey(key, Insert(key, x, s), k) == WithKey(key, [x] + s, k)
  {
    if |s| > 0 && key(x) > key(s[0]) {
      InsertWithKey(key, x, s[1..], k);
      assert ([s[0]] + Insert(key, x, s[1..]))[1..] == Insert(key, x, s[1..]);
      assert ([x] + s[1..])[1..] == s[1..];
      assert ([x] + s)[1..] == s;
      assert ([s[0]] + ([x] + s[1..]))[1..] == [x] + s[1..];
    }
  }

  /** Stability: for every key, the packs with that key keep their selection order. */
  lemma {:induction false} SortByKeyStable(key: string -> nat, s: seq<string>, k: nat)
    ensures WithKey(key, SortByKey(key, s), k) == WithKey(key, s, k)
  {
    if |s| > 0 {
      SortByKeyStable(key, s[1..], k);
      InsertWithKey(key, s[0], SortByKey(key, s[1..]), k);
      assert ([s[0]] + SortByKey(key, s[1..]))[1..] == SortByKey(key, s[1..]);
      assert ([s[0]] + s[1..]) == s;
    }
  }

  /** The first position whose pack has a key at or after last, or |s| when there is none. */
  function FirstAtOrAfter(key: string -> nat, s: seq<string>, last: nat): (i: nat)
    ensures i <= |s|
    ensures i < |s| ==> key(s[i]) >= last
    ensures forall j :: 0 <= j < i ==> key(s[j]) < last
  {
    if |s| == 0 then 0
    else if key(s[0]) >= last then 0
    else 1 + FirstAtOrAfter(key, s[1..], last)
  }

  /** start_index of macro_loop (macro.py:447-452). */
  function StartIndex(key: string -> nat, sorted: seq<string>, initialSearch: bool, last: nat): (i: nat)
    ensures i <= |sorted| && (i == 0 || i < |sorted|)
  {
    if initialSearch then 0
    else
      var f := FirstAtOrAfter(key, sorted, last);
      if f < |sorted| then f else 0
  }

  /** packs_to_buy[k:] + packs_to_buy[:k] (macro.py:453). */
  function Rotate(s: seq<string>, k: nat): (r: seq<string>)
    requires k <= |s|
    ensures |r| == |s|
    ensures forall i :: 0 <= i < |s| - k ==> r[i] == s[k + i]
    ensures forall i :: |s| - k <= i < |s| ==> r[i] == s[i - (|s| - k)]
  {
    s[k..] + s[..k]
  }

  /** The order in which one cycle searches the selected packs (macro.py:445-453). */
  function PlanOrder(key: string -> nat, selected: seq<string>, initialSearch: bool, last: nat): (r: seq<string>)
    ensures |r| == |selected|
  {
    var sorted := SortByKey(key, selected);
    Rotate(sorted, StartIndex(key, sorted, initialSearch, last))
  }

  /** A rotation is a permutation. */
  lemma RotatePermutation(s: seq<string>, k: nat)
    requires k <= |s|
    ensures |Rotate(s, k)| == |s|
    ensures multiset(Rotate(s, k)) == multiset(s)
  {
    assert s == s[..k] + s[k..];
  }

  /** The planned order is a permutation of the selection (macro.py:445-446, 453). */
  lemma PlanIsPermutation(key: string -> nat, selected: seq<string>, initialSearch: bool, last: nat)
    ensures |PlanOrder(key, selected, initialSearch, last)| == |selected|
    ensures multiset(PlanOrder(key, selected, initialSearch, last)) == multiset(selected)
  {
    var sorted := SortByKey(key, selected);
    RotatePermutation(sorted, StartIndex(key, sorted, initialSearch, last));
  }

  /** On the first search of a session the order is the sorted selection itself. */
  lemma PlanInitial(key: string -> nat, selected: seq<string>, last: nat)
    ensures PlanOrder(key, selected, true, last) == SortByKey(key, selected)
  {
    var sorted := SortByKey(key, selected);
    assert sorted[0..] + sorted[..0] == sorted;
  }

  /**
   * Once the shelf position is known, the order starts at the first sorted
   * pack whose index is at or after last and wraps the packs before it to
   * the end; when no pack qualifies there is no rotation (macro.py:447-453).
   */
  lemma PlanRotation(key: string -> nat, selected: seq<string>, last: nat)
    ensures var sorted := SortByKey(key, selected);
            var f := FirstAtOrAfter(key, sorted, last);
            && (f < |sorted| ==> PlanOrder(key, selected, false, last) == sorted[f..] + sorted[..f])
            && (f < |sorted| ==> key(PlanOrder(key, selected, false, last)[0]) >= last)
            && (forall j :: 0 <= j < f ==> key(sorted[j]) < last)
            && (f == |sorted| ==> PlanOrder(key, selected, false, last) == sorted)
  {
    var sorted := SortByKey(key, selected);
    assert sorted[0..] + sorted[..0] == sorted;
  }

  /** Sorting a list that is already in key order leaves it as it is. */
  lemma {:induction false} SortOfSorted(key: string -> nat, s: seq<string>)
    requires SortedByKey(key, s)
    ensures SortByKey(key, s) == s
  {
    if |s| > 0 {
      assert SortedByKey(key, s[1..]) by {
        forall i, j | 0 <= i < j < |s[1..]| ensures key(s[1..][i]) <= key(s[1..][j]) {
          assert s[1..][i] == s[i + 1] && s[1..][j] == s[j + 1];
        }
      }
      SortOfSorted(key, s[1..]);
      assert s == [s[0]] + s[1..];
    }
  }

  /** In a list whose keys are its positions, the first pack at or after last is at position last. */
  lemma FirstAtOrAfterOfPositions(key: string -> nat, s: seq<string>, last: nat)
    requires forall i :: 0 <= i < |s| ==> key(s[i]) == i
    requires last < |s|
    ensures FirstAtOrAfter(key, s, last) == last
  {
    assert key(s[last]) == last;
  }

  /**
   * A list whose keys are its positions is planned by rotation at last: the
   * search starts at position last and wraps the packs before it to the end.
   */
  lemma PositionsRotation(key: string -> nat, s: seq<string>, last: nat)
    requires forall i :: 0 <= i < |s| ==> key(s[i]) == i
    requires last < |s|
    ensures PlanOrder(key, s, false, last) == s[last..] + s[..last]
  {
    assert SortedByKey(key, s);
    SortOfSorted(key, s);
    FirstAtOrAfterOfPositions(key, s, last);
  }

  /** The example of a first run: the selection [Pirate, Dragon] is searched as [Dragon, Pirate]. */
  lemma FirstRunExample()
    ensures PlanOrder(SortKey, [PackFullNames[2], PackFullNames[0]], true, 0) == [PackFullNames[0], PackFullNames[2]]
  {
    SortKeyOfCanonical(0);
    SortKeyOfCanonical(2);
    PlanInitial(SortKey, [PackFullNames[2], PackFullNames[0]], 0);
    var s := [PackFullNames[2], PackFullNames[0]];
    assert s[1..] == [PackFullNames[0]];
    assert SortByKey(SortKey, s[1..]) == [PackFullNames[0]];
  }

  /**
   * With the whole shelf selected in shelf order and LastPackClicked at k,
   * the search starts at pack k and wraps the packs before it to the end.
   */
  lemma FullShelfRotation(k: nat)
    requires k < |PackFullNames|
    ensures PlanOrder(SortKey, PackFullNames, false, k) == PackFullNames[k..] + PackFullNames[..k]
  {
    forall i | 0 <= i < |PackFullNames| ensures SortKey(PackFullNames[i]) == i {
      SortKeyOfCanonical(i);
    }
    PositionsRotation(SortKey, PackFullNames, k);
  }
}
