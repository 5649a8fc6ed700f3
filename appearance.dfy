/** How the nodes the parser creates look: their topics, the side each
    first-level branch is drawn on, and their colours. `colors[0]` is the
    root's colour and `colors[b]` the colour drawn for the b-th first-level
    heading. */
module Appearance {
  import opened Wrappers
  import opened Text
  import opened Patterns
  import opened Colors
  import opened Nodes
  import opened Outline
  import opened Parser
  import opened Document
  import opened Structure

  /** The background in force at position `m`: none before the first
      first-level heading, the colour drawn for the latest one after it. */
  function BranchColor(levels: seq<int>, colors: seq<string>, m: nat): (c: Option<string>)
    requires m <= |levels| && BranchCount(levels, m) < |colors|
    ensures c.None? <==> BranchCount(levels, m) == 0
  {
    if BranchCount(levels, m) == 0 then None else Some(colors[BranchCount(levels, m)])
  }

  /** Node `k` of the outline `levels` shows heading `h`: its text, the shared
      foreground, and, for a first-level heading, the next side and a colour
      of its own; a deeper heading keeps the default side and the branch
      colour in force. */
  ghost predicate Looks(levels: seq<int>, colors: seq<string>, k: nat, h: (nat, string), node: Node)
    requires k < |levels|
  {
    && node.topic == h.1 && node.foreground == Some(Foreground) && !node.isroot && node.expended
    && if levels[k] == 1 then
         BranchCount(levels, k) + 1 < |colors|
         && node.direction == Directions[BranchCount(levels, k) % 2]
         && node.background == Some(colors[BranchCount(levels, k) + 1])
       else
         BranchCount(levels, k) < |colors|
         && node.direction == "right" && node.background == BranchColor(levels, colors, k)
  }

  /** The loop state `st` shows the headings `hs`, whose outline is `levels`,
      with the colours `colors`; the next first-level heading goes to the side
      after the last one's, and the branch colour in force is the latest. */
  ghost predicate Dressed(hs: seq<(nat, string)>, levels: seq<int>, colors: seq<string>, st: Snapshot) {
    |st.nodes| == |levels| == |hs| + 1 && BranchCount(levels, |levels|) < |colors|
    && st.nodes[0].background == Some(colors[0]) && st.nodes[0].foreground == Some(Foreground)
    && !st.nodes[0].isroot && st.nodes[0].expended && st.nodes[0].direction == "right"
    && (forall k {:trigger st.nodes[k]} | 1 <= k < |levels| :: Looks(levels, colors, k, hs[k - 1], st.nodes[k]))
    && st.direction == BranchCount(levels, |levels|) % 2
    && st.background == BranchColor(levels, colors, |levels|)
  }

  /** Everything about a node but its children. */
  predicate SameLooks(a: Node, b: Node) {
    a.topic == b.topic && a.direction == b.direction && a.background == b.background
    && a.foreground == b.foreground && a.isroot == b.isroot && a.expended == b.expended
  }

  lemma InitialDressed(rootColor: string)
    ensures Dressed([], [0], [rootColor], Initial(rootColor))
  {
  }

  /** A metadata line changes at most the root's topic. */
  lemma MetaKeepsLooks(st: Snapshot, line: string)
    requires Shaped(st)
    ensures |ApplyMeta(st, line).nodes| == |st.nodes|
    ensures forall k | 1 <= k < |st.nodes| :: ApplyMeta(st, line).nodes[k] == st.nodes[k]
    ensures SameLooks(ApplyMeta(st, line).nodes[0], st.nodes[0].(topic := ApplyMeta(st, line).nodes[0].topic))
    ensures ApplyMeta(st, line).direction == st.direction && ApplyMeta(st, line).background == st.background
  {
  }

  /** What a heading line does to the looks of the nodes: earlier nodes keep
      theirs, the new node is built from the heading, the state and `drawn`. */
  lemma HeadingLooks(st: Snapshot, line: string, drawn: string)
    requires Shaped(st) && MatchHeading(line).Some?
    ensures var r := ApplyHeading(st, line, drawn);
      var (depth, text) := MatchHeading(line).value;
      && |r.nodes| == |st.nodes| + 1
      && (forall k | 0 <= k < |st.nodes| :: SameLooks(r.nodes[k], st.nodes[k]))
      && var node := r.nodes[|st.nodes|];
      && node.topic == text && node.foreground == Some(Foreground) && !node.isroot && node.expended
      && node.direction == (if depth == 1 then Directions[st.direction] else "right")
      && node.background == (if depth == 1 then Some(drawn) else st.background)
      && r.direction == (if depth == 1 then 1 - st.direction else st.direction)
      && r.background == (if depth == 1 then Some(drawn) else st.background)
  {
  }

  /** An earlier node keeps its looks when a node is added after it. */
  lemma LooksStable(levels: seq<int>, level: int, colors: seq<string>, k: nat, h: (nat, string), a: Node, b: Node)
    requires 1 <= k < |levels| && Looks(levels, colors, k, h, a) && SameLooks(b, a)
    ensures Looks(levels + [level], colors, k, h, b)
  {
    BranchCountStable(levels, level, k);
    assert (levels + [level])[k] == levels[k];
  }

  /** Adding a node after them leaves the looks of the earlier nodes
      correct. */
  lemma OldLooks(levels: seq<int>, level: int, colors: seq<string>, hs: seq<(nat, string)>, h: (nat, string),
                 a: seq<Node>, b: seq<Node>)
    requires |levels| == |a| == |hs| + 1 && |b| == |a| + 1
    requires forall k | 1 <= k < |levels| :: Looks(levels, colors, k, hs[k - 1], a[k])
    requires forall k | 0 <= k < |a| :: SameLooks(b[k], a[k])
    ensures forall k | 1 <= k < |levels| :: Looks(levels + [level], colors, k, (hs + [h])[k - 1], b[k])
  {
    forall k | 1 <= k < |levels|
      ensures Looks(levels + [level], colors, k, (hs + [h])[k - 1], b[k])
    {
      assert (hs + [h])[k - 1] == hs[k - 1];
      LooksStable(levels, level, colors, k, hs[k - 1], a[k], b[k]);
    }
  }

  /** The node a heading adds looks as the heading should. */
  lemma NewLooks(levels: seq<int>, colors: seq<string>, direction: nat, background: Option<string>,
                 h: (nat, string), drawn: string, node: Node)
    requires h.0 >= 1 && direction < |Directions|
    requires BranchCount(levels + [h.0], |levels| + 1) < |colors|
    requires BranchCount(levels, |levels|) < |colors|
    requires direction == BranchCount(levels, |levels|) % 2 && background == BranchColor(levels, colors, |levels|)
    requires h.0 == 1 ==> drawn == colors[BranchCount(levels + [h.0], |levels| + 1)]
    requires node.topic == h.1 && node.foreground == Some(Foreground) && !node.isroot && node.expended
    requires node.direction == (if h.0 == 1 then Directions[direction] else "right")
    requires node.background == (if h.0 == 1 then Some(drawn) else background)
    ensures Looks(levels + [h.0], colors, |levels|, h, node)
    ensures BranchColor(levels + [h.0], colors, |levels| + 1) == (if h.0 == 1 then Some(drawn) else background)
    ensures BranchCount(levels + [h.0], |levels| + 1) % 2 == (if h.0 == 1 then 1 - direction else direction)
  {
    BranchCountStable(levels, h.0, |levels|);
    BranchCountSnoc(levels, h.0);
    assert (levels + [h.0])[|levels|] == h.0;
  }

  /** A metadata line keeps the looks of every node. */
  lemma MetaDressed(hs: seq<(nat, string)>, levels: seq<int>, colors: seq<string>, st: Snapshot, line: string)
    requires Shaped(st) && Dressed(hs, levels, colors, st)
    ensures Dressed(hs, levels, colors, ApplyMeta(st, line))
  {
    var mid := ApplyMeta(st, line);
    MetaKeepsLooks(st, line);
    forall k | 1 <= k < |levels|
      ensures Looks(levels, colors, k, hs[k - 1], mid.nodes[k])
    {
      assert mid.nodes[k] == st.nodes[k];
    }
  }

  /** A heading line adds a node that looks as the heading should. */
  lemma HeadingDressed(hs: seq<(nat, string)>, levels: seq<int>, colors: seq<string>, st: Snapshot,
                       line: string, drawn: string)
    requires Shaped(st) && Dressed(hs, levels, colors, st) && MatchHeading(line).Some?
    requires BranchCount(levels + [MatchHeading(line).value.0], |levels| + 1) < |colors|
    requires MatchHeading(line).value.0 == 1 ==>
               drawn == colors[BranchCount(levels + [MatchHeading(line).value.0], |levels| + 1)]
    ensures Dressed(hs + [MatchHeading(line).value], levels + [MatchHeading(line).value.0], colors,
                    ApplyHeading(st, line, drawn))
  {
    var h := MatchHeading(line).value;
    var r := ApplyHeading(st, line, drawn);
    HeadingLooks(st, line, drawn);
    OldLooks(levels, h.0, colors, hs, h, st.nodes, r.nodes);
    NewLooks(levels, colors, st.direction, st.background, h, drawn, r.nodes[|levels|]);
    assert (hs + [h])[|levels| - 1] == h;
    assert SameLooks(r.nodes[0], st.nodes[0]);
    assert forall k {:trigger r.nodes[k]} | 1 <= k < |levels| + 1 ::
      Looks(levels + [h.0], colors, k, (hs + [h])[k - 1], r.nodes[k]);
  }

  /** One line adds the looks of its heading, if it has one. */
  lemma DressedStep(hs: seq<(nat, string)>, levels: seq<int>, colors: seq<string>, st: Snapshot,
                    line: string, drawn: string, hs': seq<(nat, string)>, levels': seq<int>, after: Snapshot)
    requires Shaped(st) && Dressed(hs, levels, colors, st)
    requires after == Step(st, line, drawn)
    requires HeadingOf(line).None? ==> hs' == hs && levels' == levels
    requires HeadingOf(line).Some? ==>
               hs' == hs + [HeadingOf(line).value] && levels' == levels + [HeadingOf(line).value.0]
               && BranchCount(levels', |levels'|) < |colors|
               && (HeadingOf(line).value.0 == 1 ==> drawn == colors[BranchCount(levels', |levels'|)])
    ensures Dressed(hs', levels', colors, after)
  {
    StepUnfold(st, line, drawn);
    var s := Strip(line);
    if s != [] {
      MetaDressed(hs, levels, colors, st, s);
      if MatchHeading(s).Some? {
        HeadingDressed(hs, levels, colors, ApplyMeta(st, s), s, drawn);
      }
    }
  }

  /** Reading line `i` dresses the heading it holds. */
  lemma DressedNext(lines: seq<string>, i: nat, colors: seq<string>)
    requires i < |lines| && Branches(lines, i + 1) < |colors| && Branches(lines, i) < |colors|
    requires Dressed(Headings(lines, i), Levels(lines, i), colors, RunTo(lines, i, colors))
    ensures Dressed(Headings(lines, i + 1), Levels(lines, i + 1), colors, RunTo(lines, i + 1, colors))
  {
    RunToNext(lines, i, colors);
    HeadingsNext(lines, i);
    BranchesCounted(lines, i + 1);
    DressedStep(Headings(lines, i), Levels(lines, i), colors, RunTo(lines, i, colors), lines[i],
                colors[Branches(lines, i + 1)], Headings(lines, i + 1), Levels(lines, i + 1),
                RunTo(lines, i + 1, colors));
  }

  /** After the first `i` lines every node shows its heading as described. */
  lemma {:induction false} DressedRun(lines: seq<string>, i: nat, colors: seq<string>)
    requires i <= |lines| && Branches(lines, i) < |colors|
    ensures Dressed(Headings(lines, i), Levels(lines, i), colors, RunTo(lines, i, colors))
  {
    if i == 0 {
      InitialDressed(colors[0]);
      assert Levels(lines, 0) == [0];
      assert Dressed([], [0], colors, Initial(colors[0]));
    } else {
      BranchesNext(lines, i - 1);
      DressedRun(lines, i - 1, colors);
      DressedNext(lines, i - 1, colors);
    }
  }
}
