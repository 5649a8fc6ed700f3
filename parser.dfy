/** The outline parser: one pass over the lines of a document that builds the
    node tree and the metadata map. `Run` is the pass written as a function of
    the lines and of the colours the picker hands out; `Parse` is the loop
    itself, proved to end in the state `Run` describes. */
module Parser {
  import opened Wrappers
  import opened Text
  import opened Patterns
  import opened Colors
  import opened Nodes

  /** A metadata value: the built-in `version` entry is the number 0.2, every
      value read from the document is text. */
  datatype MetaValue = Float(number: real) | Str(text: string)

  /** The metadata map before any line is read. */
  const InitialMeta: map<string, MetaValue> := map["version" := Float(0.2)]

  /** The loop's variables between two lines: the arena, the ancestor stack
      (positions in the arena), the index of the next first-level direction,
      the background of the current branch, the level of the last heading
      (-1 before the first) and the metadata. */
  datatype Snapshot = Snapshot(
    nodes: seq<Node>,
    stack: seq<nat>,
    direction: nat,
    background: Option<string>,
    level: int,
    meta: map<string, MetaValue>)

  /** What every step needs of the state: a root at level 0 at the bottom of a
      stack of arena positions, and a valid direction index. */
  predicate Shaped(st: Snapshot) {
    |st.nodes| >= 1 && st.nodes[0].level == 0
    && |st.stack| >= 1 && st.stack[0] == 0
    && (forall i | 0 <= i < |st.stack| :: st.stack[i] < |st.nodes|)
    && st.direction < |Directions|
  }

  /** The state before the first line, the root having drawn `rootColor`. */
  function Initial(rootColor: string): (st: Snapshot)
    ensures Shaped(st)
  {
    Snapshot([RootNode(rootColor)], [0], 0, None, -1, InitialMeta)
  }

  /** The list comprehension that keeps the stack entries whose level is
      below `level`, in their order. */
  function KeepBelow(nodes: seq<Node>, stack: seq<nat>, level: int): (kept: seq<nat>)
    requires forall i | 0 <= i < |stack| :: stack[i] < |nodes|
    ensures forall i | 0 <= i < |kept| :: kept[i] < |nodes|
    ensures stack != [] && nodes[stack[0]].level < level ==> kept != [] && kept[0] == stack[0]
  {
    if stack == [] then []
    else
      var rest := KeepBelow(nodes, stack[1..], level);
      if nodes[stack[0]].level < level then [stack[0]] + rest else rest
  }

  /** The comprehension keeps exactly the entries below `level`. */
  lemma {:induction false} KeepBelowSpec(nodes: seq<Node>, stack: seq<nat>, level: int)
    requires forall i | 0 <= i < |stack| :: stack[i] < |nodes|
    ensures forall x :: x in KeepBelow(nodes, stack, level) <==> x in stack && nodes[x].level < level
  {
    if stack != [] {
      KeepBelowSpec(nodes, stack[1..], level);
      assert forall x :: x in stack <==> x == stack[0] || x in stack[1..];
    }
  }

  lemma {:induction false} KeepBelowNone(nodes: seq<Node>, stack: seq<nat>, level: int)
    requires forall i | 0 <= i < |stack| :: stack[i] < |nodes| && nodes[stack[i]].level >= level
    ensures KeepBelow(nodes, stack, level) == []
  {
    if stack != [] {
      KeepBelowNone(nodes, stack[1..], level);
    }
  }

  /** On a stack whose levels increase from the bottom, the comprehension
      only removes a top segment. */
  lemma {:induction false} KeepBelowIsPrefix(nodes: seq<Node>, stack: seq<nat>, level: int)
    requires forall i | 0 <= i < |stack| :: stack[i] < |nodes|
    requires forall i, j | 0 <= i < j < |stack| :: nodes[stack[i]].level < nodes[stack[j]].level
    ensures |KeepBelow(nodes, stack, level)| <= |stack|
    ensures KeepBelow(nodes, stack, level) == stack[..|KeepBelow(nodes, stack, level)|]
  {
    if stack != [] {
      var tail := stack[1..];
      if nodes[stack[0]].level < level {
        forall i, j | 0 <= i < j < |tail|
          ensures nodes[tail[i]].level < nodes[tail[j]].level
        {
          assert tail[i] == stack[i + 1] && tail[j] == stack[j + 1];
        }
        KeepBelowIsPrefix(nodes, tail, level);
        var rest := KeepBelow(nodes, tail, level);
        assert [stack[0]] + tail[..|rest|] == stack[..|rest| + 1];
      } else {
        forall i | 0 <= i < |tail|
          ensures nodes[tail[i]].level >= level
        {
          assert tail[i] == stack[i + 1];
        }
        KeepBelowNone(nodes, tail, level);
      }
    }
  }

  /** The stack once the entries that cannot be the parent of a heading of
      level `depth` are gone. The comprehension only runs when the heading
      does not go deeper than the previous one. */
  function OpenAncestors(st: Snapshot, depth: int): (stack: seq<nat>)
    requires Shaped(st) && depth >= 1
    ensures |stack| >= 1 && stack[0] == 0
    ensures forall i | 0 <= i < |stack| :: stack[i] < |st.nodes|
  {
    if depth <= st.level then KeepBelow(st.nodes, st.stack, depth) else st.stack
  }

  /** A metadata line `#+KEY: VALUE`: records the value under the key and, for
      the key `title` in any case, renames the root. */
  function ApplyMeta(st: Snapshot, line: string): (r: Snapshot)
    requires Shaped(st)
    ensures Shaped(r)
  {
    match MatchMeta(line)
    case None => st
    case Some((key, value)) =>
      var st' := st.(meta := st.meta[key := Str(value)]);
      if IsTitleKey(key) then st'.(nodes := st.nodes[0 := st.nodes[0].(topic := value)])
      else st'
  }

  /** A heading line: a new node, attached as the last child of the nearest
      open node of a smaller level and pushed on the stack. A first-level
      heading takes the next direction and the freshly drawn colour `drawn`,
      which becomes the background of everything below it. */
  function ApplyHeading(st: Snapshot, line: string, drawn: string): (r: Snapshot)
    requires Shaped(st)
    ensures Shaped(r)
  {
    match MatchHeading(line)
    case None => st
    case Some((depth, text)) =>
      var index := |st.nodes|;
      var plain := NewNode(text, depth, index, st.background, Some(Foreground));
      var node := if depth == 1 then plain.(direction := Directions[st.direction], background := Some(drawn)) else plain;
      var direction := if depth == 1 then 1 - st.direction else st.direction;
      var background := if depth == 1 then Some(drawn) else st.background;
      var stack := OpenAncestors(st, depth);
      var parent := stack[|stack| - 1];
      var nodes := st.nodes + [node];
      var nodes' := nodes[parent := nodes[parent].(children := nodes[parent].children + [index])];
      assert nodes'[0].level == 0;
      Snapshot(nodes', stack + [index], direction, background, depth, st.meta)
  }

  /** One line of the document: stripped, skipped when blank, otherwise tried
      against both patterns, the metadata one first. */
  function Step(st: Snapshot, line: string, drawn: string): (r: Snapshot)
    requires Shaped(st)
    ensures Shaped(r)
  {
    var s := Strip(line);
    if s == [] then st else ApplyHeading(ApplyMeta(st, s), s, drawn)
  }

  /** The heading a line holds, if any. */
  function HeadingOf(line: string): Option<(nat, string)> {
    MatchHeading(Strip(line))
  }

  /** A line that opens a first-level branch. */
  predicate IsBranchLine(line: string) {
    HeadingOf(line).Some? && HeadingOf(line).value.0 == 1
  }

  /** The number of first-level headings among the first `i` lines: one
      colour is drawn for each. */
  function Branches(lines: seq<string>, i: nat): nat
    requires i <= |lines|
    decreases i, 1
  {
    if i == 0 then 0 else BranchesThrough(lines, i - 1)
  }

  /** The number of first-level headings up to and including line `j`. */
  function BranchesThrough(lines: seq<string>, j: nat): nat
    requires j < |lines|
    decreases j + 1, 0
  {
    Branches(lines, j) + (if IsBranchLine(lines[j]) then 1 else 0)
  }

  lemma BranchesNext(lines: seq<string>, i: nat)
    requires i < |lines|
    ensures Branches(lines, i + 1) == Branches(lines, i) + (if IsBranchLine(lines[i]) then 1 else 0)
  {
    assert Branches(lines, i + 1) == BranchesThrough(lines, i);
  }

  lemma {:induction false} BranchesMonotone(lines: seq<string>, i: nat, j: nat)
    requires i <= j <= |lines|
    ensures Branches(lines, i) <= Branches(lines, j)
    decreases j
  {
    if i < j {
      BranchesMonotone(lines, i, j - 1);
      BranchesNext(lines, j - 1);
    }
  }

  /** The state after the first `i` lines. `colors[0]` is the root's colour
      and `colors[k]` the colour drawn for the k-th first-level heading; a
      line that is not one ignores the colour it is handed. */
  function RunTo(lines: seq<string>, i: nat, colors: seq<string>): (st: Snapshot)
    requires i <= |lines| && Branches(lines, i) < |colors|
    ensures Shaped(st)
    decreases i, 1
  {
    if i == 0 then Initial(colors[0]) else After(lines, i - 1, colors)
  }

  /** The state once line `j` has been read. */
  function After(lines: seq<string>, j: nat, colors: seq<string>): (st: Snapshot)
    requires j < |lines| && Branches(lines, j + 1) < |colors|
    ensures Shaped(st)
    decreases j + 1, 0
  {
    BranchesNext(lines, j);
    Step(RunTo(lines, j, colors), lines[j], colors[Branches(lines, j + 1)])
  }

  /** The state after the whole document. */
  function Run(lines: seq<string>, colors: seq<string>): (st: Snapshot)
    requires Branches(lines, |lines|) < |colors|
  {
    RunTo(lines, |lines|, colors)
  }

  /** `RunTo` one line further is one more `Step`. */
  lemma RunToNext(lines: seq<string>, i: nat, colors: seq<string>)
    requires i < |lines| && Branches(lines, i + 1) < |colors|
    ensures Branches(lines, i) < |colors|
    ensures RunTo(lines, i + 1, colors) == Step(RunTo(lines, i, colors), lines[i], colors[Branches(lines, i + 1)])
  {
    BranchesNext(lines, i);
    assert RunTo(lines, i + 1, colors) == After(lines, i, colors);
  }

  /** Colours beyond those already drawn do not change the state so far. */
  lemma {:induction false} RunToExtend(lines: seq<string>, i: nat, colors: seq<string>, more: seq<string>)
    requires i <= |lines| && Branches(lines, i) < |colors| <= |more|
    requires forall k | 0 <= k < |colors| :: more[k] == colors[k]
    ensures RunTo(lines, i, more) == RunTo(lines, i, colors)
  {
    if i > 0 {
      RunToExtend(lines, i - 1, colors, more);
      assert more[Branches(lines, i)] == colors[Branches(lines, i)];
      assert After(lines, i - 1, more) == After(lines, i - 1, colors);
    }
  }

  lemma StepUnfold(st: Snapshot, line: string, drawn: string)
    requires Shaped(st)
    ensures Strip(line) == [] ==> Step(st, line, drawn) == st
    ensures Strip(line) != [] ==> Step(st, line, drawn) == ApplyHeading(ApplyMeta(st, Strip(line)), Strip(line), drawn)
  {
  }

  /** Outside a first-level heading the colour argument is not used. */
  lemma ColorUnused(st: Snapshot, line: string, a: string, b: string)
    requires Shaped(st)
    requires !(MatchHeading(line).Some? && MatchHeading(line).value.0 == 1)
    ensures ApplyHeading(st, line, a) == ApplyHeading(st, line, b)
  {
  }

  /** The metadata part of the loop body: records the pair and renames the
      root for a title. */
  method ReadMeta(mind: Mind, meta: map<string, MetaValue>, line: string, ghost st: Snapshot)
    returns (meta': map<string, MetaValue>)
    requires Shaped(st) && st.nodes == mind.nodes && st.meta == meta
    modifies mind
    ensures mind.nodes == ApplyMeta(st, line).nodes && meta' == ApplyMeta(st, line).meta
  {
    meta' := meta;
    match MatchMeta(line) {
      case Some((key, value)) =>
        meta' := meta[key := Str(value)];
        if IsTitleKey(key) {
          mind.SetTopic(0, value);
        }
      case None =>
    }
  }

  /** The heading part of the loop body. `color` is the colour drawn from
      `picker` when the line is a first-level heading, and nothing otherwise. */
  method ReadHeading(mind: Mind, picker: ColorPicker, round: seq<nat>, line: string,
                     stack: seq<nat>, direction: nat, background: Option<string>, level: int,
                     ghost st: Snapshot)
    returns (stack': seq<nat>, direction': nat, background': Option<string>, level': int, color: Option<string>)
    requires st == Snapshot(mind.nodes, stack, direction, background, level, st.meta) && Shaped(st)
    requires MatchHeading(line).Some? && MatchHeading(line).value.0 == 1 ==> Decisive(round)
    modifies mind, picker
    ensures color.Some? <==> MatchHeading(line).Some? && MatchHeading(line).value.0 == 1
    ensures color.Some? ==> color.value in Palette && Accepts(old(picker.last), color.value)
                             && picker.last == color
    ensures color.None? ==> picker.last == old(picker.last)
    ensures Snapshot(mind.nodes, stack', direction', background', level', st.meta)
            == ApplyHeading(st, line, if color.Some? then color.value else "")
  {
    stack', direction', background', level', color := stack, direction, background, level, None;
    match MatchHeading(line) {
      case Some((depth, text)) =>
        var node := NewNode(text, depth, |mind.nodes|, background, Some(Foreground));
        if depth == 1 {
          node := node.(direction := Directions[direction]);
          direction' := 1 - direction;
          DecisiveAccepts(picker.last, round);
          var c, _ := picker.Next(round);
          color := Some(c);
          background' := Some(c);
          node := node.(background := background');
        }
        if depth <= level {
          stack' := KeepBelow(mind.nodes, stack, depth);
        }
        assert stack' == OpenAncestors(st, depth);
        var index := mind.Add(node);
        var parent := stack'[|stack'| - 1];
        mind.AddChild(parent, index);
        stack' := stack' + [index];
        level' := depth;
        assert mind.nodes == (st.nodes + [node])[parent := (st.nodes + [node])[parent].(children := (st.nodes + [node])[parent].children + [index])];
      case None =>
    }
  }

  /** The body of the parsing loop for one line of the file. `color` is the
      colour drawn when the line opens a branch; `other` stands for it in
      `Step` otherwise, where it is not used. */
  method ReadLine(mind: Mind, picker: ColorPicker, round: seq<nat>, raw: string,
                  stack: seq<nat>, direction: nat, background: Option<string>, level: int,
                  meta: map<string, MetaValue>, ghost st: Snapshot, ghost other: string)
    returns (stack': seq<nat>, direction': nat, background': Option<string>, level': int,
             meta': map<string, MetaValue>, color: Option<string>)
    requires st == Snapshot(mind.nodes, stack, direction, background, level, meta) && Shaped(st)
    requires IsBranchLine(raw) ==> Decisive(round)
    modifies mind, picker
    ensures color.Some? <==> IsBranchLine(raw)
    ensures color.Some? ==> color.value in Palette && Accepts(old(picker.last), color.value)
                             && picker.last == color
    ensures color.None? ==> picker.last == old(picker.last)
    ensures Snapshot(mind.nodes, stack', direction', background', level', meta')
            == Step(st, raw, if color.Some? then color.value else other)
  {
    stack', direction', background', level', meta', color := stack, direction, background, level, meta, None;
    var line := Strip(raw);
    if line == [] {
      StepUnfold(st, raw, other);
      return;
    }
    meta' := ReadMeta(mind, meta, line, st);
    ghost var afterMeta := ApplyMeta(st, line);
    assert afterMeta == Snapshot(mind.nodes, stack, direction, background, level, meta');
    stack', direction', background', level', color :=
      ReadHeading(mind, picker, round, line, stack, direction, background, level, afterMeta);
    ghost var drawn := if color.Some? then color.value else other;
    if color.None? {
      ColorUnused(afterMeta, line, "", other);
    }
    assert Snapshot(mind.nodes, stack', direction', background', level', meta') == ApplyHeading(afterMeta, line, drawn);
    StepUnfold(st, raw, drawn);
  }

  /** The loop invariant: after `i` lines, `calls` colours have been drawn,
      one per branch plus the root's; they are `colors`, a run without
      repeats following `last`, the picker remembers the latest, and the
      loop's variables hold the state `RunTo` describes. */
  ghost predicate Reading(lines: seq<string>, i: nat, colors: seq<string>, last: Option<string>,
                          calls: nat, picked: Option<string>, st: Snapshot)
  {
    i <= |lines| && calls == |colors| == 1 + Branches(lines, i)
    && NoImmediateRepeat(last, colors) && picked == Some(colors[|colors| - 1])
    && st == RunTo(lines, i, colors)
  }

  /** Where the loop starts: the root's colour drawn, no line read. */
  lemma ReadingStart(lines: seq<string>, rootColor: string, last: Option<string>)
    requires rootColor in Palette && Accepts(last, rootColor)
    ensures Reading(lines, 0, [rootColor], last, 1, Some(rootColor), Initial(rootColor))
  {
  }

  /** Where the loop ends: every line read. */
  lemma ReadingDone(lines: seq<string>, colors: seq<string>, last: Option<string>, calls: nat,
                    picked: Option<string>, st: Snapshot)
    requires Reading(lines, |lines|, colors, last, calls, picked, st)
    ensures |colors| == 1 + Branches(lines, |lines|) && NoImmediateRepeat(last, colors)
    ensures picked == Some(colors[|colors| - 1]) && st == Run(lines, colors)
  {
  }

  /** One line further: the colours drawn so far grow by the colour drawn
      for that line, if it opens a branch, the picker remembers it, and the
      state takes one more `Step`. */
  lemma Advance(lines: seq<string>, i: nat, previous: seq<string>, last: Option<string>, before: Snapshot,
                color: Option<string>, colors: seq<string>, picked: Option<string>, after: Snapshot)
    requires i < |lines| && |previous| >= 1
    requires Reading(lines, i, previous, last, |previous|, Some(previous[|previous| - 1]), before)
    requires color.Some? <==> IsBranchLine(lines[i])
    requires color.Some? ==> color.value in Palette && Accepts(Some(previous[|previous| - 1]), color.value)
                              && colors == previous + [color.value] && picked == color
    requires color.None? ==> colors == previous && picked == Some(previous[|previous| - 1])
    requires after == Step(before, lines[i], if color.Some? then color.value else previous[|previous| - 1])
    ensures Reading(lines, i + 1, colors, last, |colors|, picked, after)
  {
    BranchesNext(lines, i);
    if color.Some? {
      NoImmediateRepeatSnoc(last, previous, color.value);
    }
    RunToExtend(lines, i, previous, colors);
    assert RunTo(lines, i + 1, colors) == After(lines, i, colors);
  }

  /** The loop body for line `i`, with the loop's variables before and after
      it. */
  method ReadLineAt(mind: Mind, picker: ColorPicker, rounds: seq<seq<nat>>, lines: seq<string>, i: nat,
                    calls: nat, stack: seq<nat>, direction: nat, background: Option<string>, level: int,
                    meta: map<string, MetaValue>, ghost colors: seq<string>, ghost last: Option<string>)
    returns (calls': nat, stack': seq<nat>, direction': nat, background': Option<string>, level': int,
             meta': map<string, MetaValue>, ghost colors': seq<string>)
    requires i < |lines| && |rounds| > Branches(lines, |lines|)
    requires forall k | 0 <= k < |rounds| :: Decisive(rounds[k])
    requires Reading(lines, i, colors, last, calls, picker.last,
                     Snapshot(mind.nodes, stack, direction, background, level, meta))
    modifies mind, picker
    ensures Reading(lines, i + 1, colors', last, calls', picker.last,
                    Snapshot(mind.nodes, stack', direction', background', level', meta'))
  {
    ghost var before := Snapshot(mind.nodes, stack, direction, background, level, meta);
    BranchesMonotone(lines, i + 1, |lines|);
    var color;
    stack', direction', background', level', meta', color :=
      ReadLine(mind, picker, if calls < |rounds| then rounds[calls] else [], lines[i],
               stack, direction, background, level, meta, before, colors[|colors| - 1]);
    calls', colors' := calls, colors;
    if color.Some? {
      calls' := calls + 1;
      colors' := colors + [color.value];
    }
    Advance(lines, i, colors, last, before, color, colors', picker.last,
            Snapshot(mind.nodes, stack', direction', background', level', meta'));
  }

  /** The parsing loop of `org2mind`. The root's colour and the colour of each
      first-level heading come from `picker`; `rounds[k]` are the draws of its
      k-th call. */
  method Parse(lines: seq<string>, picker: ColorPicker, rounds: seq<seq<nat>>)
    returns (mind: Mind, meta: map<string, MetaValue>, ghost colors: seq<string>)
    requires |rounds| > Branches(lines, |lines|)
    requires forall k | 0 <= k < |rounds| :: Decisive(rounds[k])
    modifies picker
    ensures fresh(mind)
    ensures |colors| == 1 + Branches(lines, |lines|)
    ensures NoImmediateRepeat(old(picker.last), colors)
    ensures picker.last == Some(colors[|colors| - 1])
    ensures mind.nodes == Run(lines, colors).nodes && meta == Run(lines, colors).meta
  {
    DecisiveAccepts(picker.last, rounds[0]);
    var rootColor, _ := picker.Next(rounds[0]);
    colors := [rootColor];
    var calls := 1;
    mind := new Mind(rootColor);
    meta := InitialMeta;
    var stack: seq<nat> := [0];
    var direction: nat := 0;
    var background: Option<string> := None;
    var level: int := -1;
    ReadingStart(lines, rootColor, old(picker.last));
    for i := 0 to |lines|
      invariant Reading(lines, i, colors, old(picker.last), calls, picker.last,
                        Snapshot(mind.nodes, stack, direction, background, level, meta))
    {
      calls, stack, direction, background, level, meta, colors :=
        ReadLineAt(mind, picker, rounds, lines, i, calls, stack, direction, background, level, meta,
                   colors, old(picker.last));
    }
    ReadingDone(lines, colors, old(picker.last), calls, picker.last,
                Snapshot(mind.nodes, stack, direction, background, level, meta));
  }
}
