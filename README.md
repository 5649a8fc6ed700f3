# org2mind in Dafny

`org2mind` turns an Org-mode outline into a jsMind mind map. It reads the file
line by line. `#+KEY: VALUE` lines fill a metadata map, and `#+TITLE:` also
renames the root. A heading line (`*`, `**`, …) becomes a node. That node hangs
under the nearest open heading of a smaller level. First-level headings
alternate between the right and the left side, and each gets a fresh
background colour. Deeper headings take the colour of their branch. The node
tree is then flattened by `asdict` into plain nested data for the JSON
export.

The model covers four parts of `org2mind.py`:

- the node record and `add_child`;
- the colour picker `random_color`;
- the parsing loop of `org2mind`;
- the recursive `asdict` conversion.

The modules are:

- `Nodes`: the `Node` record and the arena class `Mind`. `Mind` owns every
  node of one parse. A node names its children by their arena positions, and
  the position doubles as the node's id.
- `Colors`: the palette and the class `ColorPicker`. Its field `last` is the
  function attribute `random_color.last_color`. `Next` is the rejection loop.
  The random draws are a parameter.
- `Text`, `Patterns`: Python's `str.strip`, and the two regular expressions
  written out as scanners. Each scanner is proved sound and complete against
  a declarative description of what its expression matches.
- `Parser`: the loop. `Run(lines, colors)` is the pass written as a function
  of the lines and of the colours handed out. The imperative `Parse` (a `for`
  loop over a `Mind`, a `ColorPicker` and the loop's local variables) is
  proved to end in exactly that state.
- `Outline`, `Document`: what a document means, independently of the loop.
  This is the sequence of heading levels, the parent of each heading (the
  nearest earlier node of a smaller level), its children, and the last
  metadata value per key.
- `Structure`, `Appearance`, `Metadata`: the invariants the loop keeps, line
  by line.
- `Outcome`: the consequences for a whole document.
- `Export`: `asdict` over a small universe of Python values, and the export
  of the parsed tree.

## Notes on the code's behaviour

- The built-in metadata entry `version` is the float `0.2`
  (org2mind.py:124). Every value read from the document is a string.
- The root node keeps the default `isroot = False`; nothing sets it
  (org2mind.py:131-133). `Nodes.RootNode` and `Outcome.RootLooks` state this.
- The stack filter only runs when the new heading is not deeper than the
  previous one (org2mind.py:166-167). `Parser.OpenAncestors` keeps that
  guard. `Structure.KeptBelow` shows the kept entries are the same either
  way: those whose level is below the new heading's.
- The loop tries both patterns on every line (org2mind.py:142-152). No line
  can match both, because one needs a leading `*` and the other a leading
  `#` (`Patterns.NeverBoth`).
- The node id is the node's position in the arena, where the code draws a
  random hexadecimal string (org2mind.py:19-20). Ids stay distinct.

## Model

| member | source | states |
|---|---|---|
| Nodes.NewNode | org2mind.py:15-26 | a node built from a topic and the given fields has every other field at its declared default: not root, expanded, on the right, no children |
| Nodes.RootNode | org2mind.py:131-133 | the root has topic "root", level 0, its own background and the white foreground, and `isroot` false |
| Nodes.Mind.constructor | org2mind.py:131-134 | the arena starts with the root alone |
| Nodes.Mind.Add | org2mind.py:155-158 | a new node takes the next free position; earlier nodes are unchanged |
| Nodes.Mind.AddChild | org2mind.py:28-29 | `add_child` appends the child to the parent's children; no other node changes |
| Nodes.Mind.SetTopic | org2mind.py:147-148 | renaming the root changes only its topic |
| Colors.ColorPicker.constructor | org2mind.py:112 | before the first call there is no previous colour |
| Colors.ColorPicker.Next | org2mind.py:100-118 | the result is a palette colour other than the previous one, the draw that stopped the loop; every draw before it repeated the previous colour; the result becomes the new previous colour |
| Colors.NoImmediateRepeatAt | org2mind.py:110-116 | in a run of results every colour is in the palette, the first differs from the colour before the run, and no two neighbours are equal |
| Colors.NoImmediateRepeatSnoc | org2mind.py:110-116 | one more accepted result extends a run without repeats |
| Colors.DecisiveAccepts | org2mind.py:110-114 | draws containing two different palette colours always contain one the loop accepts, whatever the previous colour |
| Text.SpaceRun | org2mind.py:122-123 | the end of a run of white space: everything before it is white space, the character at it is not |
| Text.Strip | org2mind.py:137 | the stripped line neither starts nor ends with white space and is no longer than the line |
| Text.StripRemovesSpace | org2mind.py:137 | the stripped line is an infix of the line and only white space was removed on either side |
| Patterns.HeadingFrom | org2mind.py:123 | a heading scan that succeeds reports at least one star and leaves room for the white space and the text |
| Patterns.MatchHeading | org2mind.py:151-154 | a match has at least one star and non-empty room for white space and text |
| Patterns.MatchHeadingSound | org2mind.py:151-154 | what the matcher returns is a heading: `depth` stars, white space, then text that starts with no white space and holds no line feed |
| Patterns.MatchHeadingComplete | org2mind.py:151-154 | every line of that form is matched, with its level equal to its number of leading stars and its text |
| Patterns.FindMeta | org2mind.py:122 | the colon found splits the line as `#+KEY:`, white space, value, and no earlier colon does |
| Patterns.MatchMeta | org2mind.py:142-144 | the key and value returned are the text between `#+` and the colon and the text after the white space, and the key is the shortest that works |
| Patterns.MatchMetaComplete | org2mind.py:142-144 | every line of the form `#+KEY: VALUE` is matched, with a key no longer than any other split |
| Patterns.NeverBoth | org2mind.py:142-152 | no line matches both the heading and the metadata expression |
| Parser.KeepBelow | org2mind.py:167 | the filtered stack holds only arena positions and keeps the root when the root is below the level |
| Parser.KeepBelowSpec | org2mind.py:167 | the comprehension keeps exactly the entries whose level is below the new heading's |
| Parser.KeepBelowIsPrefix | org2mind.py:167 | on a stack with increasing levels, the comprehension removes only a top segment |
| Parser.OpenAncestors | org2mind.py:166-167 | the stack left for the new heading is non-empty and has the root at the bottom |
| Parser.ApplyMeta | org2mind.py:142-148 | a metadata line keeps the state well formed |
| Parser.ApplyHeading | org2mind.py:151-172 | a heading line keeps the state well formed |
| Parser.Step | org2mind.py:136-172 | one line keeps the state well formed |
| Parser.ColorUnused | org2mind.py:160-164 | only a first-level heading uses the colour it is handed |
| Parser.BranchesMonotone | org2mind.py:160-163 | the number of colours drawn never decreases along the document |
| Parser.ReadMeta | org2mind.py:142-148 | the metadata part of the loop body leaves the arena and the map as the line-by-line description says |
| Parser.ReadHeading | org2mind.py:151-172 | the heading part draws a colour exactly for a first-level heading, a palette colour other than the last one, and leaves the arena, stack, direction, branch colour and level as the line-by-line description says |
| Parser.ReadLine | org2mind.py:136-172 | one pass of the loop body: a colour is drawn exactly when the line opens a branch, and the loop's variables become one more step |
| Parser.Advance | org2mind.py:136-172 | the loop invariant survives one line: the colours drawn stay a run without repeats, one per branch plus the root's |
| Parser.ReadLineAt | org2mind.py:136-172 | the loop body keeps the loop invariant |
| Parser.Parse | org2mind.py:121-172 | the loop ends with the arena and the metadata of the whole document; it drew one colour for the root and one per first-level heading, with no colour twice in a row and the picker remembering the last |
| Outline.Nearest | org2mind.py:166-169 | the nearest earlier position of a smaller level lies before the bound |
| Outline.NearestSpec | org2mind.py:166-169 | that position has a smaller level and nothing after it does |
| Outline.NearestIsLast | org2mind.py:166-169 | every earlier position of a smaller level is at or before it |
| Outline.Parent | org2mind.py:169 | the parent of a heading comes before it |
| Outline.ParentIsNearest | org2mind.py:166-169 | the parent of a heading has a smaller level, and no node between them does |
| Outline.ChildrenInSound | org2mind.py:169 | every listed child has the node as parent, and the list increases |
| Outline.ChildrenInComplete | org2mind.py:169 | every heading whose parent is the node is listed |
| Outline.StackLevelsIncrease | org2mind.py:166-170 | on the ancestor stack, levels strictly increase from the root upwards |
| Outline.OpenExtend | org2mind.py:166-170 | after a new heading, a node stays open exactly when it was open and its level is below the new one |
| Outline.ChildrenExtend | org2mind.py:169 | a new heading is appended to its parent's children and to no other node's |
| Outline.BranchCountSnoc | org2mind.py:160-163 | a new heading adds one to the count exactly when it is a first-level heading |
| Outline.BranchCountMonotone | org2mind.py:160-163 | the count of first-level headings never decreases along the outline |
| Outline.LastBranch | org2mind.py:163-164 | the latest first-level heading before a position lies before it and is at level 1 |
| Outline.LastBranchSpec | org2mind.py:157-164 | there is none exactly when no first-level heading came before; otherwise no first-level heading lies between it and the position, and it is the last one counted |
| Document.Headings | org2mind.py:151-154 | the headings of a document, in order, are no more than its lines and all at level 1 or deeper |
| Document.Levels | org2mind.py:154-156 | the levels of the nodes start with the root's 0 |
| Document.LevelsOfHeadings | org2mind.py:154-156 | there is one level per heading after the root's, and it is that heading's level |
| Document.HeadingsNext | org2mind.py:151-154 | a line adds its heading, if it has one, and nothing else |
| Document.BranchesCounted | org2mind.py:160-163 | the colours drawn for branches are as many as the first-level nodes |
| Structure.MetaKeepsTree | org2mind.py:142-148 | a metadata line leaves the tree and the stack alone |
| Structure.KeptBelow | org2mind.py:166-167 | the stack entries kept for a new heading are a bottom segment: those below its level |
| Structure.NewStack | org2mind.py:166-170 | the kept stack with the new node on top is the ancestor stack of the grown outline |
| Structure.NewParent | org2mind.py:166-169 | the top of the kept stack is the new heading's parent in the outline |
| Structure.GrowTree | org2mind.py:155-172 | so the state after a heading is the outline grown by that heading |
| Structure.TreeStep | org2mind.py:136-172 | any line grows the tree by its heading, if it has one |
| Structure.TreeRun | org2mind.py:121-172 | after any number of lines, the arena, the children and the stack are the outline of their headings |
| Appearance.BranchColor | org2mind.py:163-164 | there is no branch colour exactly when no first-level heading has been read |
| Appearance.NewLooks | org2mind.py:155-164 | the new node looks as its heading should, and the side and branch colour move on only for a first-level heading |
| Appearance.MetaDressed | org2mind.py:142-148 | a metadata line keeps every node's looks |
| Appearance.HeadingDressed | org2mind.py:151-172 | a heading line keeps every earlier node's looks and adds a node with its own |
| Appearance.DressedStep | org2mind.py:136-172 | any line keeps the looks and adds those of its heading |
| Appearance.DressedRun | org2mind.py:121-172 | after any number of lines, every node shows its heading's text, side and colours |
| Metadata.Declared | org2mind.py:145 | a key holds text exactly when a line declared it |
| Metadata.MetaRun | org2mind.py:142-148 | after any number of lines, the map's keys are `version` and every declared key; each holds its last declared value, and `version` holds 0.2 unless declared; the root bears the last title; metadata after headings counts too |
| Outcome.NodePerHeading | org2mind.py:151-172 | there is one node per heading plus the root; node k has the k-th heading's text and level and id k |
| Outcome.AttachedToNearest | org2mind.py:166-169 | each heading is a child of exactly one node: the nearest earlier node of a smaller level |
| Outcome.ChildrenInDocumentOrder | org2mind.py:169 | every node's children come after it, in document order |
| Outcome.StackShape | org2mind.py:166-170 | the final stack has the root at the bottom, the newest node on top and levels strictly increasing |
| Outcome.Sides | org2mind.py:160-162 | first-level headings alternate right, left, right, …; every other node is on the right |
| Outcome.Backgrounds | org2mind.py:155-164 | every node has the white foreground; a first-level heading has its own freshly drawn colour; a deeper one has the colour of the latest first-level node before it, or none before the first |
| Outcome.RootLooks | org2mind.py:131-133 | the root keeps the first colour drawn, the white foreground, level 0, the right side, and is not flagged as root |
| Outcome.NeighbourBranchesDiffer | org2mind.py:160-164 | a first-level node's colour is a palette colour that differs from the previous first-level node's colour, or from the root's for the first branch |
| Outcome.RunExportable | org2mind.py:169 | every child comes after its parent, so the parsed tree can be exported from the root |
| Colors.Accepts | org2mind.py:112-113 | the rejection test: a drawn colour is kept when there is no previous colour or it differs from it |
| Text.IsSpace | org2mind.py:137 | the characters `str.strip` removes and `\s` matches: those for which `str.isspace` holds |
| Text.IsTitleKey | org2mind.py:147 | `key.lower() == 'title'`: five characters that spell "title" in any case |
| Parser.Initial | org2mind.py:124-134 | the state before the first line is well formed: the root alone, on the stack, with the first colour drawn, the `{'version': 0.2}` map, side index 0, no branch colour and level -1 |
| Parser.HeadingOf | org2mind.py:151-154 | the heading a line holds once stripped: the heading matcher applied to the stripped line |
| Parser.RunTo | org2mind.py:136-172 | the state after the first `i` lines, the loop written as a function of the lines and of the colours drawn; it is always well formed |
| Parser.After | org2mind.py:136-172 | the state once one more line has been read: one step from the state before it, handed the colour of the next branch |
| Parser.Run | org2mind.py:136-172 | the state after the whole document; every property under `Outcome` is stated about it |
| Document.LastMeta | org2mind.py:142-145 | the reference reading of the map: the value of the last line among the first `i` that declares the key, or none |
| Document.LastTitle | org2mind.py:147-148 | the value of the last line among the first `i` whose key is a title key in any case, or none |
| Export.AsDict | org2mind.py:32-50 | a dataclass instance becomes a dict with one entry per field, lists, tuples and dicts keep their kind and length, and any other value is returned as it is |
| Export.NodeObject | org2mind.py:15-29 | the parsed tree from node `k` down as the nested node records handed to `asdict`: one record of the nine node fields, children as nested records |
| Export.Hyphenate | org2mind.py:37 | every `_` becomes `-` and every other character stays in place |
| Export.NoRecordLeft | org2mind.py:32-50 | no dataclass instance survives the conversion |
| Export.OneDictPerRecord | org2mind.py:32-50 | each dataclass instance becomes exactly one dict, and the dicts already there stay |
| Export.SameShape | org2mind.py:32-50 | the converted value has the nesting of the original |
| Export.NodeKeysAreHyphenated | org2mind.py:35-37 | the export keys of a node are its field names, hyphenated, in declaration order |
| Export.RecordExport | org2mind.py:33-38 | a dataclass instance becomes a dict of its converted fields, under hyphenated names, in field order |
| Export.ExportedNode | org2mind.py:15-50 | an exported node is a dict with the keys topic, level, id, isroot, expended, direction, children, background-color, foreground-color in that order; the scalar fields keep their values and the children are exported in order |

Helper lemmas. These restate one step of a definition or carry an induction
from one line to the next. They are what the members above are proved from:
`Patterns.MetaStartIsRun`, `Parser.StepUnfold`, `Parser.RunToNext`, `Parser.RunToExtend`, `Parser.ReadingStart`, `Parser.ReadingDone`, `Outline.ParentStable`, `Outline.ChildrenInStable`, `Outline.NoEarlierChildren`, `Outline.BranchCountStable`, `Outline.BranchCountFlat`, `Structure.InitialTree`, `Structure.HeadingNodes`, `Structure.HeadingGrowsTree`, `Structure.TreeNext`, `Appearance.InitialDressed`, `Appearance.MetaKeepsLooks`, `Appearance.HeadingLooks`, `Appearance.LooksStable`, `Appearance.OldLooks`, `Appearance.DressedNext`, `Metadata.MetaStart`, `Metadata.StepMeta`, `Metadata.MetaStepShows`, `Metadata.MetaNext`, `Outcome.Built`, `Outcome.DressedBackground`, `Export.PlainName`.

## Left out

- Reading the file (org2mind.py:135-136): the model takes the document as a
  sequence of lines. Python's `for line in fd` keeps the line feed on each
  line, and `strip` removes it again. The model lets a line hold any
  characters.
- Building the `mind` dict, serialising it with `json`, and the HTML
  template and its placeholders (org2mind.py:53-97, 174-194). These are
  string templating around the parse result.
- The command-line front end with `argparse` and its file handling
  (org2mind.py:197-238).
- `random.choice`: the draws are a parameter, a sequence of palette
  positions per call. `Parse` asks that each call's draws contain two
  different colours, so the loop always stops. The random loop has no such
  bound, so the model does not capture its expected running time.
- `uuid.uuid4().hex`: a node's id is its arena position (see above).
- The regular-expression engine: the two expressions are written out by hand
  as scanners, and proved equivalent to a description of the strings each
  expression matches.
- The namedtuple branch, the `dict_factory` argument and `copy.deepcopy` in
  `asdict` (org2mind.py:32, 38, 40-41, 50). Other values are returned as they
  are. The exported node is plain data, so a copy is the same value. The
  `dict` the code passes as `dict_factory` is modelled as a list of pairs.
  Python's collapse of repeated keys is not modelled, and nothing here
  repeats a key.
- Export.ExportedNode: states the export of one node, and
  `Outcome.RunExportable` shows every parsed tree can be exported. The model
  does not separately prove that the exported root holds exactly one dict
  per parsed node. That follows only via `Export.OneDictPerRecord` and a
  count of the records in the node object, which is not stated.
- Text.IsTitleKey: folds only ASCII letters. Python's `lower()` folds every
  cased character, but no other character lower-cases to a letter of
  "title", so the comparison gives the same answer.
- Metadata key order: the map is a Dafny `map`, which has no insertion
  order. The exported metadata keeps Python's insertion order, which the
  model does not track.
