/** The metadata map and the root's topic after any number of lines, stated
    key by key against the metadata lines of the document. Headings play no
    part in it: a metadata line counts wherever it stands. */
module Metadata {
  import opened Wrappers
  import opened Text
  import opened Patterns
  import opened Nodes
  import opened Parser
  import opened Document

  /** The value a key holds: the last one declared for it, or the built-in
      0.2 when no line declared it (only `version` has one). */
  function Declared(v: Option<string>): (m: MetaValue)
    ensures m.Str? <==> v.Some?
  {
    if v.Some? then Str(v.value) else Float(0.2)
  }

  /** The root's topic: the value of the last title line, "root" before
      one. */
  function RootTopic(title: Option<string>): string {
    if title.Some? then title.value else "root"
  }

  /** `st` shows the metadata of the first `i` lines: its keys are `version`
      and every declared key, each holds its last declared value, and the
      root bears the last title. */
  ghost predicate MetaShows(lines: seq<string>, i: nat, st: Snapshot)
    requires i <= |lines| && |st.nodes| >= 1
  {
    && (forall key :: key in st.meta <==> key == "version" || LastMeta(lines, i, key).Some?)
    && (forall key | key in st.meta :: st.meta[key] == Declared(LastMeta(lines, i, key)))
    && st.nodes[0].topic == RootTopic(LastTitle(lines, i))
  }

  /** Before any line, the map holds only `version` and the root is "root". */
  lemma MetaStart(lines: seq<string>, rootColor: string)
    ensures MetaShows(lines, 0, Initial(rootColor))
  {
    assert forall key :: LastMeta(lines, 0, key) == None;
  }

  /** A line changes the metadata only through the pair it declares, and the
      root's topic only through a title; headings and blank lines leave both
      alone. */
  lemma StepMeta(st: Snapshot, line: string, drawn: string)
    requires Shaped(st)
    ensures Step(st, line, drawn).meta
            == match MatchMeta(Strip(line)) case Some((k, v)) => st.meta[k := Str(v)] case None => st.meta
    ensures Step(st, line, drawn).nodes[0].topic
            == match MatchMeta(Strip(line))
               case Some((k, v)) => if IsTitleKey(k) then v else st.nodes[0].topic
               case None => st.nodes[0].topic
  {
    StepUnfold(st, line, drawn);
  }

  /** The metadata line `i`, if it is one, updates what the state shows. */
  lemma MetaStepShows(lines: seq<string>, i: nat, st: Snapshot, after: Snapshot)
    requires i < |lines| && |st.nodes| >= 1 && |after.nodes| >= 1 && MetaShows(lines, i, st)
    requires after.meta
             == match MatchMeta(Strip(lines[i])) case Some((k, v)) => st.meta[k := Str(v)] case None => st.meta
    requires after.nodes[0].topic
             == match MatchMeta(Strip(lines[i]))
                case Some((k, v)) => if IsTitleKey(k) then v else st.nodes[0].topic
                case None => st.nodes[0].topic
    ensures MetaShows(lines, i + 1, after)
  {
    forall key
      ensures key in after.meta <==> key == "version" || LastMeta(lines, i + 1, key).Some?
    {
    }
  }

  /** Reading line `i` keeps the metadata shown. */
  lemma MetaNext(lines: seq<string>, i: nat, colors: seq<string>)
    requires i < |lines| && Branches(lines, i + 1) < |colors| && Branches(lines, i) < |colors|
    requires MetaShows(lines, i, RunTo(lines, i, colors))
    ensures MetaShows(lines, i + 1, RunTo(lines, i + 1, colors))
  {
    RunToNext(lines, i, colors);
    StepMeta(RunTo(lines, i, colors), lines[i], colors[Branches(lines, i + 1)]);
    MetaStepShows(lines, i, RunTo(lines, i, colors), RunTo(lines, i + 1, colors));
  }

  /** After the first `i` lines the metadata map holds, for every key, the
      last value declared for it, `version` holds 0.2 unless a line declared
      it, and the root bears the last title. */
  lemma {:induction false} MetaRun(lines: seq<string>, i: nat, colors: seq<string>)
    requires i <= |lines| && Branches(lines, i) < |colors|
    ensures MetaShows(lines, i, RunTo(lines, i, colors))
  {
    if i == 0 {
      MetaStart(lines, colors[0]);
    } else {
      BranchesNext(lines, i - 1);
      MetaRun(lines, i - 1, colors);
      MetaNext(lines, i - 1, colors);
    }
  }
}
