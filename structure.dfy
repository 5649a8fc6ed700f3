/** The shape of what the parser builds: after any number of lines the arena
    holds one node per heading after the root, each node's children are
    exactly the later headings whose nearest open ancestor it is, in document
    order, and the stack holds the open nodes. */
module Structure {
  import opened Wrappers
  import opened Text
  import opened Patterns
  import opened Nodes
  import opened Outline
  import opened Parser
  import opened Document

  /** The loop state `st` is the tree `levels` denotes: node `k` sits at
      position `k` with level `levels[k]`, its children are the children of
      `k` in the outline, the stack is the ancestor stack, and `level` is the
      level of the newest heading (-1 before the first). */
  ghost predicate TreeOf(levels: seq<int>, st: Snapshot) {
    Rooted(levels) && |st.nodes| == |levels|
    && (forall k | 0 <= k < |levels| :: st.nodes[k].level == levels[k] && st.nodes[k].id == k)
    && IsStack(levels, st.stack)
    && (forall p | 0 <= p < |levels| :: st.nodes[p].children == Children(levels, p))
    && st.level == (if |levels| == 1 then -1 else levels[|levels| - 1])
  }

  lemma InitialTree(rootColor: string)
    ensures TreeOf([0], Initial(rootColor))
  {
    assert Children([0], 0) == [];
  }

  /** A metadata line leaves the tree alone. */
  lemma MetaKeepsTree(levels: seq<int>, st: Snapshot, line: string)
    requires Shaped(st) && TreeOf(levels, st)
    ensures TreeOf(levels, ApplyMeta(st, line))
  {
  }

  /** The stack entries kept for a heading of level `depth` are a bottom
      segment of the stack: those whose level is below `depth`. */
  lemma KeptBelow(levels: seq<int>, st: Snapshot, depth: int)
    requires Shaped(st) && TreeOf(levels, st) && depth >= 1
    ensures |OpenAncestors(st, depth)| <= |st.stack|
    ensures OpenAncestors(st, depth) == st.stack[..|OpenAncestors(st, depth)|]
    ensures forall j | 0 <= j < |levels| :: j in OpenAncestors(st, depth) <==> j in st.stack && levels[j] < depth
  {
    StackLevelsIncrease(levels, st.stack);
    if depth <= st.level {
      KeepBelowSpec(st.nodes, st.stack, depth);
      KeepBelowIsPrefix(st.nodes, st.stack, depth);
    } else {
      assert st.stack[..|st.stack|] == st.stack;
      forall j | 0 <= j < |levels| && j in st.stack
        ensures levels[j] < depth
      {
        var t :| 0 <= t < |st.stack| && st.stack[t] == j;
        if |levels| > 1 && t < |st.stack| - 1 {
          assert levels[st.stack[t]] < levels[st.stack[|st.stack| - 1]];
        }
      }
    }
  }

  /** After a heading of level `depth` the stack is the kept entries with the
      new node on top, and that is the ancestor stack of the grown outline. */
  lemma NewStack(levels: seq<int>, st: Snapshot, depth: int)
    requires Shaped(st) && TreeOf(levels, st) && depth >= 1
    ensures IsStack(levels + [depth], OpenAncestors(st, depth) + [|levels|])
  {
    var ext := levels + [depth];
    var kept := OpenAncestors(st, depth);
    var stack := kept + [|levels|];
    KeptBelow(levels, st, depth);
    forall i, j | 0 <= i < j < |stack|
      ensures stack[i] < stack[j]
    {
      assert stack[i] == st.stack[i];
      if j < |kept| {
        assert stack[j] == st.stack[j];
      }
    }
    forall j | 0 <= j < |ext|
      ensures j in stack <==> Open(ext, j)
    {
      if j < |levels| {
        OpenExtend(levels, depth, j);
        assert j in stack <==> j in kept;
      } else {
        assert stack[|stack| - 1] == j;
      }
    }
  }

  /** The node on top of the kept stack is the new node's parent in the
      outline: the nearest earlier node of a smaller level. */
  lemma NewParent(levels: seq<int>, st: Snapshot, depth: int)
    requires Shaped(st) && TreeOf(levels, st) && depth >= 1
    ensures Rooted(levels + [depth])
    ensures Parent(levels + [depth], |levels|) == OpenAncestors(st, depth)[|OpenAncestors(st, depth)| - 1]
  {
    var ext := levels + [depth];
    var kept := OpenAncestors(st, depth);
    var n := |levels|;
    KeptBelow(levels, st, depth);
    var q := Parent(ext, n);
    ParentIsNearest(ext, n);
    assert ext[q] == levels[q];
    forall m | q < m < n
      ensures levels[m] > levels[q]
    {
      assert ext[m] == levels[m];
    }
    assert Open(levels, q);
    var t :| 0 <= t < |kept| && kept[t] == q;
    var top := |kept| - 1;
    assert kept[top] in kept;
    assert ext[kept[top]] == levels[kept[top]];
    NearestIsLast(ext, depth, n, kept[top]);
  }

  /** `r` is `st` after a heading of level `depth`: one more node, of that
      level and with its position as id, no children and on top of the kept
      stack, and the parent's children end with it. */
  ghost predicate Grown(levels: seq<int>, st: Snapshot, depth: int, r: Snapshot)
    requires Shaped(st) && depth >= 1
  {
    var kept := OpenAncestors(st, depth);
    && |r.nodes| == |levels| + 1 && |st.nodes| == |levels|
    && r.nodes[|levels|].level == depth && r.nodes[|levels|].id == |levels|
    && r.nodes[|levels|].children == []
    && (forall k | 0 <= k < |levels| :: r.nodes[k].level == st.nodes[k].level && r.nodes[k].id == st.nodes[k].id)
    && (forall k | 0 <= k < |levels| ::
          r.nodes[k].children == st.nodes[k].children + (if k == kept[|kept| - 1] then [|levels|] else []))
    && r.stack == kept + [|levels|] && r.level == depth
  }

  /** What a heading line does to the arena and the stack. */
  lemma HeadingNodes(levels: seq<int>, st: Snapshot, line: string, drawn: string)
    requires Shaped(st) && |st.nodes| == |levels| && MatchHeading(line).Some?
    ensures Grown(levels, st, MatchHeading(line).value.0, ApplyHeading(st, line, drawn))
  {
  }

  /** Growing the arena as a heading does grows the tree by that heading. */
  lemma GrowTree(levels: seq<int>, st: Snapshot, depth: int, r: Snapshot)
    requires Shaped(st) && TreeOf(levels, st) && depth >= 1 && Grown(levels, st, depth, r)
    ensures TreeOf(levels + [depth], r)
  {
    var ext := levels + [depth];
    NewStack(levels, st, depth);
    NewParent(levels, st, depth);
    forall p | 0 <= p < |ext|
      ensures r.nodes[p].children == Children(ext, p)
    {
      ChildrenExtend(levels, depth, p);
    }
    forall k | 0 <= k < |ext|
      ensures r.nodes[k].level == ext[k] && r.nodes[k].id == k
    {
    }
  }

  /** A heading line adds a node at the end of the outline. */
  lemma HeadingGrowsTree(levels: seq<int>, st: Snapshot, line: string, drawn: string)
    requires Shaped(st) && TreeOf(levels, st) && MatchHeading(line).Some?
    ensures TreeOf(levels + [MatchHeading(line).value.0], ApplyHeading(st, line, drawn))
  {
    HeadingNodes(levels, st, line, drawn);
    GrowTree(levels, st, MatchHeading(line).value.0, ApplyHeading(st, line, drawn));
  }

  /** One line grows the tree by its heading, if it has one. */
  lemma TreeStep(levels: seq<int>, st: Snapshot, line: string, drawn: string, levels': seq<int>)
    requires Shaped(st) && TreeOf(levels, st)
    requires levels' == if HeadingOf(line).Some? then levels + [HeadingOf(line).value.0] else levels
    ensures TreeOf(levels', Step(st, line, drawn))
  {
    StepUnfold(st, line, drawn);
    var s := Strip(line);
    if s != [] {
      MetaKeepsTree(levels, st, s);
      if MatchHeading(s).Some? {
        HeadingGrowsTree(levels, ApplyMeta(st, s), s, drawn);
      }
    }
  }

  /** Reading line `i` grows the tree after the first `i` lines into the
      tree after the first `i + 1`. */
  lemma TreeNext(lines: seq<string>, i: nat, colors: seq<string>)
    requires i < |lines| && Branches(lines, i + 1) < |colors|
    requires Branches(lines, i) < |colors| && TreeOf(Levels(lines, i), RunTo(lines, i, colors))
    ensures TreeOf(Levels(lines, i + 1), RunTo(lines, i + 1, colors))
  {
    RunToNext(lines, i, colors);
    HeadingsNext(lines, i);
    TreeStep(Levels(lines, i), RunTo(lines, i, colors), lines[i], colors[Branches(lines, i + 1)], Levels(lines, i + 1));
  }

  /** The tree after the first `i` lines is the outline of their headings. */
  lemma {:induction false} TreeRun(lines: seq<string>, i: nat, colors: seq<string>)
    requires i <= |lines| && Branches(lines, i) < |colors|
    ensures TreeOf(Levels(lines, i), RunTo(lines, i, colors))
  {
    if i == 0 {
      InitialTree(colors[0]);
      assert Levels(lines, 0) == [0];
    } else {
      BranchesNext(lines, i - 1);
      TreeRun(lines, i - 1, colors);
      TreeNext(lines, i - 1, colors);
    }
  }
}
