/** The tree an outline denotes, read off the sequence of heading levels in
    document order (position 0 is the root, at level 0). These definitions are
    independent of the parsing loop; the parser is proved to build exactly
    this tree. */
module Outline {
  import opened Wrappers

  /** Levels of a parse: the root at level 0, every heading at level 1 or more. */
  predicate Rooted(levels: seq<int>) {
    |levels| >= 1 && levels[0] == 0 && forall k | 1 <= k < |levels| :: levels[k] >= 1
  }

  /** The last position before `bound` whose level is below `level`. */
  function Nearest(levels: seq<int>, level: int, bound: nat): (j: nat)
    requires 0 < bound <= |levels| && levels[0] < level
    ensures j < bound
    decreases bound
  {
    if levels[bound - 1] < level then bound - 1 else Nearest(levels, level, bound - 1)
  }

  /** `Nearest` finds a position below `level` with nothing below `level`
      after it. */
  lemma {:induction false} NearestSpec(levels: seq<int>, level: int, bound: nat)
    requires 0 < bound <= |levels| && levels[0] < level
    ensures levels[Nearest(levels, level, bound)] < level
    ensures forall m | Nearest(levels, level, bound) < m < bound :: levels[m] >= level
    decreases bound
  {
    if levels[bound - 1] >= level {
      NearestSpec(levels, level, bound - 1);
    }
  }

  /** No position between the one `Nearest` finds and `bound` is below
      `level`. */
  lemma {:induction false} NearestIsLast(levels: seq<int>, level: int, bound: nat, j: nat)
    requires 0 < bound <= |levels| && levels[0] < level && j < bound && levels[j] < level
    ensures j <= Nearest(levels, level, bound)
    decreases bound
  {
    if levels[bound - 1] >= level {
      NearestIsLast(levels, level, bound - 1, j);
    }
  }

  /** The parent of heading `k`: the nearest earlier node of a smaller level. */
  function Parent(levels: seq<int>, k: nat): (p: nat)
    requires Rooted(levels) && 0 < k < |levels|
    ensures p < k
  {
    Nearest(levels, levels[k], k)
  }

  /** The parent of a heading has a smaller level, and no node between the two
      does: it is the nearest such node. */
  lemma ParentIsNearest(levels: seq<int>, k: nat)
    requires Rooted(levels) && 0 < k < |levels|
    ensures levels[Parent(levels, k)] < levels[k]
    ensures forall m | Parent(levels, k) < m < k :: levels[m] >= levels[k]
  {
    NearestSpec(levels, levels[k], k);
  }

  /** Node `j` is still open: no later node has a level at or below its own, so
      a later heading may still become its child. */
  ghost predicate Open(levels: seq<int>, j: nat) {
    forall m | j < m < |levels| :: levels[m] > levels[j]
  }

  /** The children of `p` among positions `lo` to `hi - 1`, in document order. */
  function ChildrenIn(levels: seq<int>, p: nat, lo: nat, hi: nat): seq<nat>
    requires Rooted(levels) && 1 <= lo && hi <= |levels|
    decreases hi
  {
    if hi <= lo then []
    else ChildrenIn(levels, p, lo, hi - 1) + (if Parent(levels, hi - 1) == p then [hi - 1] else [])
  }

  /** Every node `ChildrenIn` lists lies in range and has parent `p`, and the
      list increases. */
  lemma {:induction false} ChildrenInSound(levels: seq<int>, p: nat, lo: nat, hi: nat)
    requires Rooted(levels) && 1 <= lo && hi <= |levels|
    ensures forall i | 0 <= i < |ChildrenIn(levels, p, lo, hi)| ::
      var c := ChildrenIn(levels, p, lo, hi)[i]; lo <= c < hi && Parent(levels, c) == p
    ensures forall i, j | 0 <= i < j < |ChildrenIn(levels, p, lo, hi)| ::
      ChildrenIn(levels, p, lo, hi)[i] < ChildrenIn(levels, p, lo, hi)[j]
    decreases hi
  {
    if hi > lo {
      ChildrenInSound(levels, p, lo, hi - 1);
    }
  }

  /** Every node in range whose parent is `p` is listed. */
  lemma {:induction false} ChildrenInComplete(levels: seq<int>, p: nat, lo: nat, hi: nat, k: nat)
    requires Rooted(levels) && 1 <= lo <= k < hi <= |levels| && Parent(levels, k) == p
    ensures k in ChildrenIn(levels, p, lo, hi)
    decreases hi
  {
    if k < hi - 1 {
      ChildrenInComplete(levels, p, lo, hi - 1, k);
    }
  }

  /** All children of `p`, in document order. */
  function Children(levels: seq<int>, p: nat): seq<nat>
    requires Rooted(levels)
  {
    ChildrenIn(levels, p, 1, |levels|)
  }

  /** Number of first-level headings before position `m`. */
  function BranchCount(levels: seq<int>, m: nat): nat
    requires m <= |levels|
  {
    if m == 0 then 0 else BranchCount(levels, m - 1) + (if levels[m - 1] == 1 then 1 else 0)
  }

  /** The ancestor stack of the parser after the nodes `levels` describe: it
      holds, from the bottom, exactly the open nodes, the root first and the
      newest node on top. */
  ghost predicate IsStack(levels: seq<int>, stack: seq<nat>) {
    |stack| >= 1 && stack[0] == 0 && stack[|stack| - 1] == |levels| - 1
    && (forall i | 0 <= i < |stack| :: stack[i] < |levels|)
    && (forall i, j | 0 <= i < j < |stack| :: stack[i] < stack[j])
    && (forall j | 0 <= j < |levels| :: j in stack <==> Open(levels, j))
  }

  /** Levels strictly increase from the bottom of the stack to its top. */
  lemma StackLevelsIncrease(levels: seq<int>, stack: seq<nat>)
    requires IsStack(levels, stack)
    ensures forall i, j | 0 <= i < j < |stack| :: levels[stack[i]] < levels[stack[j]]
  {
    forall i, j | 0 <= i < j < |stack|
      ensures levels[stack[i]] < levels[stack[j]]
    {
      assert stack[i] in stack;
    }
  }

  /** Adding a node leaves the parents of earlier nodes alone. */
  lemma ParentStable(levels: seq<int>, level: int, k: nat)
    requires Rooted(levels) && Rooted(levels + [level]) && 0 < k < |levels|
    ensures Parent(levels + [level], k) == Parent(levels, k)
  {
    var ext := levels + [level];
    var p, q := Parent(levels, k), Parent(ext, k);
    ParentIsNearest(levels, k);
    ParentIsNearest(ext, k);
    assert ext[p] == levels[p] && ext[q] == levels[q];
  }

  /** Adding a node leaves the children lists of earlier nodes alone, up to the
      old end. */
  lemma {:induction false} ChildrenInStable(levels: seq<int>, level: int, p: nat, lo: nat, hi: nat)
    requires Rooted(levels) && Rooted(levels + [level]) && 1 <= lo && hi <= |levels|
    ensures ChildrenIn(levels + [level], p, lo, hi) == ChildrenIn(levels, p, lo, hi)
    decreases hi
  {
    if hi > lo {
      ChildrenInStable(levels, level, p, lo, hi - 1);
      ParentStable(levels, level, hi - 1);
    }
  }

  /** A node has no children among the nodes that come before it. */
  lemma {:induction false} NoEarlierChildren(levels: seq<int>, p: nat, lo: nat, hi: nat)
    requires Rooted(levels) && 1 <= lo && hi <= |levels| && hi <= p + 1
    ensures ChildrenIn(levels, p, lo, hi) == []
    decreases hi
  {
    if hi > lo {
      NoEarlierChildren(levels, p, lo, hi - 1);
    }
  }

  /** A new node of level `level` closes exactly the open nodes at or above
      its level. */
  lemma OpenExtend(levels: seq<int>, level: int, j: nat)
    requires j < |levels|
    ensures Open(levels + [level], j) <==> Open(levels, j) && levels[j] < level
  {
    var ext := levels + [level];
    assert ext[|levels|] == level;
    if Open(levels, j) && levels[j] < level {
      forall m | j < m < |ext|
        ensures ext[m] > ext[j]
      {
        if m < |levels| {
          assert ext[m] == levels[m];
        }
      }
    }
    if Open(ext, j) {
      assert ext[|levels|] > ext[j];
      forall m | j < m < |levels|
        ensures levels[m] > levels[j]
      {
        assert ext[m] > ext[j];
      }
    }
  }

  /** The children lists once a node is added: the new node has none, its
      parent gains it at the end, every other node keeps its list. */
  lemma ChildrenExtend(levels: seq<int>, level: int, p: nat)
    requires Rooted(levels) && Rooted(levels + [level]) && p <= |levels|
    ensures p == |levels| ==> Children(levels + [level], p) == []
    ensures p < |levels| ==>
              Children(levels + [level], p)
              == Children(levels, p) + (if Parent(levels + [level], |levels|) == p then [|levels|] else [])
  {
    var ext := levels + [level];
    assert Children(ext, p) == ChildrenIn(ext, p, 1, |levels|) + (if Parent(ext, |levels|) == p then [|levels|] else []);
    if p == |levels| {
      NoEarlierChildren(ext, p, 1, |levels|);
    } else {
      ChildrenInStable(levels, level, p, 1, |levels|);
    }
  }

  /** Adding a node does not change the count before any earlier position. */
  lemma {:induction false} BranchCountStable(levels: seq<int>, level: int, m: nat)
    requires m <= |levels|
    ensures BranchCount(levels + [level], m) == BranchCount(levels, m)
    decreases m
  {
    if m > 0 {
      BranchCountStable(levels, level, m - 1);
      assert (levels + [level])[m - 1] == levels[m - 1];
    }
  }

  /** A node added at the end counts if it is at the first level. */
  lemma BranchCountSnoc(levels: seq<int>, level: int)
    ensures BranchCount(levels + [level], |levels| + 1) == BranchCount(levels, |levels|) + (if level == 1 then 1 else 0)
  {
    BranchCountStable(levels, level, |levels|);
    assert (levels + [level])[|levels|] == level;
  }

  /** The count never decreases along the document. */
  lemma {:induction false} BranchCountMonotone(levels: seq<int>, m: nat, n: nat)
    requires m <= n <= |levels|
    ensures BranchCount(levels, m) <= BranchCount(levels, n)
    decreases n
  {
    if m < n {
      BranchCountMonotone(levels, m, n - 1);
    }
  }

  /** Between two positions with no first-level node the count stays put,
      and a first-level node adds exactly one. */
  lemma {:induction false} BranchCountFlat(levels: seq<int>, m: nat, n: nat)
    requires m <= n <= |levels|
    requires forall k | m <= k < n :: levels[k] != 1
    ensures BranchCount(levels, n) == BranchCount(levels, m)
    decreases n
  {
    if m < n {
      BranchCountFlat(levels, m, n - 1);
    }
  }

  /** The latest first-level node before position `m`, if any. */
  function LastBranch(levels: seq<int>, m: nat): (r: Option<nat>)
    requires m <= |levels|
    ensures r.Some? ==> r.value < m && levels[r.value] == 1
    decreases m
  {
    if m == 0 then None
    else if levels[m - 1] == 1 then Some(m - 1)
    else LastBranch(levels, m - 1)
  }

  /** No first-level node lies after the one `LastBranch` finds, and none at
      all when it finds none; the count of first-level nodes says which. */
  lemma {:induction false} LastBranchSpec(levels: seq<int>, m: nat)
    requires m <= |levels|
    ensures LastBranch(levels, m).None? <==> BranchCount(levels, m) == 0
    ensures LastBranch(levels, m).None? ==> forall q | 0 <= q < m :: levels[q] != 1
    ensures LastBranch(levels, m).Some? ==>
              var j := LastBranch(levels, m).value;
              && (forall q | j < q < m :: levels[q] != 1)
              && BranchCount(levels, m) == BranchCount(levels, j) + 1
    decreases m
  {
    if m > 0 && levels[m - 1] != 1 {
      LastBranchSpec(levels, m - 1);
    }
  }
}
