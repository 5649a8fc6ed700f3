/** What one pass over a document produces, stated against the document
    itself: the node per heading, where each node hangs, the sides and the
    colours of the branches. `colors` are the colours the picker handed out,
    the root's first; `Parse` ends in `Run(lines, colors)` for the colours it
    drew, which it also proves free of immediate repeats. */
module Outcome {
  import opened Wrappers
  import opened Colors
  import opened Nodes
  import opened Outline
  import opened Parser
  import opened Document
  import opened Structure
  import opened Appearance
  import Export

  /** The tree and the looks of the final state, together. */
  lemma Built(lines: seq<string>, colors: seq<string>)
    requires Branches(lines, |lines|) < |colors|
    ensures TreeOf(Levels(lines, |lines|), Run(lines, colors))
    ensures Dressed(Headings(lines, |lines|), Levels(lines, |lines|), colors, Run(lines, colors))
    ensures |Levels(lines, |lines|)| == 1 + |Headings(lines, |lines|)|
  {
    TreeRun(lines, |lines|, colors);
    DressedRun(lines, |lines|, colors);
  }

  /** One node per heading after the root, in document order: node `k` has
      the text and the level of the k-th heading and `k` as its identifier. */
  lemma NodePerHeading(lines: seq<string>, colors: seq<string>)
    requires Branches(lines, |lines|) < |colors|
    ensures var nodes, hs := Run(lines, colors).nodes, Headings(lines, |lines|);
      && |nodes| == |hs| + 1
      && nodes[0].level == 0 && nodes[0].id == 0
      && forall k | 1 <= k < |nodes| ::
           nodes[k].topic == hs[k - 1].1 && nodes[k].level == hs[k - 1].0 && nodes[k].id == k
  {
    Built(lines, colors);
    LevelsOfHeadings(lines, |lines|);
    var nodes, hs := Run(lines, colors).nodes, Headings(lines, |lines|);
    forall k | 1 <= k < |nodes|
      ensures nodes[k].topic == hs[k - 1].1 && nodes[k].level == hs[k - 1].0 && nodes[k].id == k
    {
      assert Looks(Levels(lines, |lines|), colors, k, hs[k - 1], nodes[k]);
    }
  }

  /** Heading `k` hangs under exactly one node: the nearest earlier node of a
      smaller level. */
  lemma AttachedToNearest(lines: seq<string>, colors: seq<string>, k: nat)
    requires Branches(lines, |lines|) < |colors| && 1 <= k < |Run(lines, colors).nodes|
    ensures var nodes := Run(lines, colors).nodes;
      exists p | 0 <= p < k ::
        && nodes[p].level < nodes[k].level
        && (forall m | p < m < k :: nodes[m].level >= nodes[k].level)
        && k in nodes[p].children
        && forall q | 0 <= q < |nodes| && q != p :: k !in nodes[q].children
  {
    TreeRun(lines, |lines|, colors);
    var levels, nodes := Levels(lines, |lines|), Run(lines, colors).nodes;
    var p := Parent(levels, k);
    ParentIsNearest(levels, k);
    ChildrenInComplete(levels, p, 1, |levels|, k);
    forall q | 0 <= q < |nodes| && q != p
      ensures k !in nodes[q].children
    {
      ChildrenInSound(levels, q, 1, |levels|);
    }
    assert nodes[p].level < nodes[k].level && k in nodes[p].children;
  }

  /** The children of every node are listed in document order, and each of
      them comes after it. */
  lemma ChildrenInDocumentOrder(lines: seq<string>, colors: seq<string>, p: nat)
    requires Branches(lines, |lines|) < |colors| && p < |Run(lines, colors).nodes|
    ensures var children := Run(lines, colors).nodes[p].children;
      && (forall i | 0 <= i < |children| :: p < children[i] < |Run(lines, colors).nodes|)
      && (forall i, j | 0 <= i < j < |children| :: children[i] < children[j])
  {
    TreeRun(lines, |lines|, colors);
    var levels := Levels(lines, |lines|);
    ChildrenInSound(levels, p, 1, |levels|);
  }

  /** The ancestor stack at the end holds the root at the bottom, the newest
      node on top and levels that increase upwards. */
  lemma StackShape(lines: seq<string>, colors: seq<string>)
    requires Branches(lines, |lines|) < |colors|
    ensures var st := Run(lines, colors);
      && |st.stack| >= 1 && st.stack[0] == 0 && st.stack[|st.stack| - 1] == |st.nodes| - 1
      && (forall i | 0 <= i < |st.stack| :: st.stack[i] < |st.nodes|)
      && forall i, j | 0 <= i < j < |st.stack| :: st.nodes[st.stack[i]].level < st.nodes[st.stack[j]].level
  {
    TreeRun(lines, |lines|, colors);
    var levels, st := Levels(lines, |lines|), Run(lines, colors);
    StackLevelsIncrease(levels, st.stack);
  }

  /** First-level headings alternate between the right and the left side,
      starting on the right; every other node is on the right. */
  lemma Sides(lines: seq<string>, colors: seq<string>, k: nat)
    requires Branches(lines, |lines|) < |colors| && k < |Levels(lines, |lines|)|
    ensures var nodes := Run(lines, colors).nodes; var levels := Levels(lines, |lines|);
      && |nodes| == |levels|
      && nodes[k].direction
      == if levels[k] == 1 && BranchCount(levels, k) % 2 == 1 then "left" else "right"
  {
    DressedRun(lines, |lines|, colors);
    var hs, levels, nodes := Headings(lines, |lines|), Levels(lines, |lines|), Run(lines, colors).nodes;
    if k > 0 {
      assert Looks(levels, colors, k, hs[k - 1], nodes[k]);
    }
  }

  /** The colours of node `k` of any state that shows the headings. */
  lemma DressedBackground(hs: seq<(nat, string)>, levels: seq<int>, colors: seq<string>, st: Snapshot, k: nat)
    requires Dressed(hs, levels, colors, st) && levels[0] == 0 && 1 <= k < |levels|
    ensures BranchCount(levels, k) + (if levels[k] == 1 then 1 else 0) < |colors|
    ensures st.nodes[k].foreground == Some("#ffffff")
    ensures levels[k] == 1 ==> st.nodes[k].background == Some(colors[BranchCount(levels, k) + 1])
    ensures levels[k] != 1 ==>
              st.nodes[k].background
              == match LastBranch(levels, k) case None => None case Some(j) => st.nodes[j].background
  {
    assert Looks(levels, colors, k, hs[k - 1], st.nodes[k]);
    LastBranchSpec(levels, k);
    if levels[k] != 1 {
      match LastBranch(levels, k)
      case None =>
      case Some(j) =>
        assert Looks(levels, colors, j, hs[j - 1], st.nodes[j]);
    }
  }

  /** Every node has the white foreground. A first-level heading has a colour
      drawn for it alone; a deeper one has the colour of the latest
      first-level node before it, or none before the first. */
  lemma Backgrounds(lines: seq<string>, colors: seq<string>, k: nat)
    requires Branches(lines, |lines|) < |colors| && 1 <= k < |Levels(lines, |lines|)|
    ensures var nodes := Run(lines, colors).nodes; var levels := Levels(lines, |lines|);
      && |nodes| == |levels| && BranchCount(levels, k) + (if levels[k] == 1 then 1 else 0) < |colors|
      && nodes[k].foreground == Some("#ffffff")
      && (levels[k] == 1 ==> nodes[k].background == Some(colors[BranchCount(levels, k) + 1]))
      && (levels[k] != 1 ==>
            nodes[k].background
            == match LastBranch(levels, k) case None => None case Some(j) => nodes[j].background)
  {
    DressedRun(lines, |lines|, colors);
    DressedBackground(Headings(lines, |lines|), Levels(lines, |lines|), colors, Run(lines, colors), k);
  }

  /** The root keeps the colour drawn first and the white foreground, and is
      not flagged as the root. */
  lemma RootLooks(lines: seq<string>, colors: seq<string>)
    requires Branches(lines, |lines|) < |colors|
    ensures var root := Run(lines, colors).nodes[0];
      && root.background == Some(colors[0]) && root.foreground == Some(Foreground)
      && !root.isroot && root.expended && root.direction == "right" && root.level == 0
  {
    DressedRun(lines, |lines|, colors);
  }

  /** The branch colours of any state that shows the headings, when the
      colours come from the picker. */
  lemma BranchNeighbours(hs: seq<(nat, string)>, levels: seq<int>, colors: seq<string>, st: Snapshot,
                         last: Option<string>, k: nat)
    requires Dressed(hs, levels, colors, st) && NoImmediateRepeat(last, colors)
    requires levels[0] == 0 && 1 <= k < |levels| && levels[k] == 1
    ensures st.nodes[k].background.Some? && st.nodes[k].background.value in Palette
    ensures st.nodes[k].background
            != match LastBranch(levels, k) case None => st.nodes[0].background case Some(j) => st.nodes[j].background
  {
    var b := BranchCount(levels, k);
    DressedBackground(hs, levels, colors, st, k);
    LastBranchSpec(levels, k);
    NoImmediateRepeatAt(last, colors);
    match LastBranch(levels, k)
    case Some(j) =>
      DressedBackground(hs, levels, colors, st, j);
      assert colors[b + 1] != colors[b];
    case None =>
      assert colors[1] != colors[0];
  }

  /** With colours from the picker, every background is a palette colour and
      two first-level branches in a row never share one; the first branch
      differs from the root. */
  lemma NeighbourBranchesDiffer(lines: seq<string>, colors: seq<string>, last: Option<string>, k: nat)
    requires Branches(lines, |lines|) < |colors| && NoImmediateRepeat(last, colors)
    requires k < |Levels(lines, |lines|)| && Levels(lines, |lines|)[k] == 1
    ensures var nodes, levels := Run(lines, colors).nodes, Levels(lines, |lines|);
      && |nodes| == |levels|
      && nodes[k].background.Some? && nodes[k].background.value in Palette
      && nodes[k].background
         != match LastBranch(levels, k) case None => nodes[0].background case Some(j) => nodes[j].background
  {
    DressedRun(lines, |lines|, colors);
    BranchNeighbours(Headings(lines, |lines|), Levels(lines, |lines|), colors, Run(lines, colors), last, k);
  }

  /** Every child comes after its parent, so the parsed tree can be exported
      from its root. */
  lemma RunExportable(lines: seq<string>, colors: seq<string>)
    requires Branches(lines, |lines|) < |colors|
    ensures Export.Forward(Run(lines, colors).nodes)
  {
    var nodes := Run(lines, colors).nodes;
    forall k | 0 <= k < |nodes|
      ensures forall i | 0 <= i < |nodes[k].children| :: k < nodes[k].children[i] < |nodes|
    {
      ChildrenInDocumentOrder(lines, colors, k);
    }
  }
}
