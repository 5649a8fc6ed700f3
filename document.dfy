/** What a document says, read line by line and independently of the parsing
    loop: its headings, the levels of the nodes they become, and the metadata
    pairs it declares. The properties of the parser are stated against these. */
module Document {
  import opened Wrappers
  import opened Text
  import opened Patterns
  import opened Outline
  import opened Parser

  /** The headings among the first `i` lines, in document order, as (level,
      text) pairs. */
  function Headings(lines: seq<string>, i: nat): (hs: seq<(nat, string)>)
    requires i <= |lines|
    ensures |hs| <= i
    ensures forall k | 0 <= k < |hs| :: hs[k].0 >= 1
  {
    if i == 0 then []
    else
      Headings(lines, i - 1) + match HeadingOf(lines[i - 1]) case Some(h) => [h] case None => []
  }

  /** The levels of the nodes the first `i` lines give rise to: the root's, 0,
      then the level of each heading. */
  function Levels(lines: seq<string>, i: nat): (levels: seq<int>)
    requires i <= |lines|
    ensures |levels| >= 1 && levels[0] == 0
  {
    if i == 0 then [0]
    else
      Levels(lines, i - 1) + match HeadingOf(lines[i - 1]) case Some(h) => [h.0 as int] case None => []
  }

  /** The levels are those of the headings, after the root's: every node but
      the root is at level 1 or deeper. */
  lemma {:induction false} LevelsOfHeadings(lines: seq<string>, i: nat)
    requires i <= |lines|
    ensures Rooted(Levels(lines, i)) && |Levels(lines, i)| == 1 + |Headings(lines, i)|
    ensures forall k | 1 <= k < |Levels(lines, i)| :: Levels(lines, i)[k] == Headings(lines, i)[k - 1].0
  {
    if i > 0 {
      LevelsOfHeadings(lines, i - 1);
    }
  }

  /** One more line adds its heading, if it has one, and nothing else. */
  lemma HeadingsNext(lines: seq<string>, i: nat)
    requires i < |lines|
    ensures HeadingOf(lines[i]).None? ==>
              Headings(lines, i + 1) == Headings(lines, i) && Levels(lines, i + 1) == Levels(lines, i)
    ensures HeadingOf(lines[i]).Some? ==>
              Headings(lines, i + 1) == Headings(lines, i) + [HeadingOf(lines[i]).value]
              && Levels(lines, i + 1) == Levels(lines, i) + [HeadingOf(lines[i]).value.0]
  {
  }

  /** The colours drawn for branches are as many as the first-level nodes. */
  lemma {:induction false} BranchesCounted(lines: seq<string>, i: nat)
    requires i <= |lines|
    ensures Branches(lines, i) == BranchCount(Levels(lines, i), |Levels(lines, i)|)
  {
    if i > 0 {
      BranchesCounted(lines, i - 1);
      BranchesNext(lines, i - 1);
      HeadingsNext(lines, i - 1);
      if HeadingOf(lines[i - 1]).Some? {
        BranchCountSnoc(Levels(lines, i - 1), HeadingOf(lines[i - 1]).value.0);
      }
    }
  }

  /** The value of the last `#+key: value` line among the first `i` lines. */
  function LastMeta(lines: seq<string>, i: nat, key: string): Option<string>
    requires i <= |lines|
  {
    if i == 0 then None
    else match MatchMeta(Strip(lines[i - 1]))
      case Some((k, v)) =>
        if k == key then Some(v) else LastMeta(lines, i - 1, key)
      case None => LastMeta(lines, i - 1, key)
  }

  /** The value of the last title line, whatever the case of its key. */
  function LastTitle(lines: seq<string>, i: nat): Option<string>
    requires i <= |lines|
  {
    if i == 0 then None
    else match MatchMeta(Strip(lines[i - 1]))
      case Some((k, v)) =>
        if IsTitleKey(k) then Some(v) else LastTitle(lines, i - 1)
      case None => LastTitle(lines, i - 1)
  }
}
