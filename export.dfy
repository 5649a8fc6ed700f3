/** `asdict`: the recursive conversion that turns the root node into plain
    nested data for the JSON export. A dataclass instance becomes a dict with
    one entry per field, in declaration order, under the field's name with
    `_` written as `-`; lists, tuples and dicts are rebuilt with their
    elements converted; any other value is copied. */
module Export {
  import opened Wrappers
  import opened Nodes

  /** The Python values the exporter meets. A dataclass instance is a
      `Record`: its fields, in declaration order, with their names. */
  datatype Py =
    | Str(text: string)
    | Int(number: int)
    | Bool(flag: bool)
    | NoneValue
    | List(items: seq<Py>)
    | Tuple(items: seq<Py>)
    | Dict(entries: seq<(Py, Py)>)
    | Record(fields: seq<(string, Py)>)

  /** `name.replace('_', '-')`: no underscore is left, each became a hyphen,
      and every other character stays where it was. */
  function Hyphenate(name: string): (r: string)
    ensures |r| == |name| && '_' !in r
    ensures forall i | 0 <= i < |name| && name[i] == '_' :: r[i] == '-'
    ensures forall i | 0 <= i < |name| && name[i] != '_' :: r[i] == name[i]
  {
    seq(|name|, i requires 0 <= i < |name| => if name[i] == '_' then '-' else name[i])
  }

  /** `asdict(obj, dict)`. */
  function AsDict(v: Py): (r: Py)
    ensures v.Record? ==> r.Dict? && |r.entries| == |v.fields|
    ensures v.List? ==> r.List? && |r.items| == |v.items|
    ensures v.Tuple? ==> r.Tuple? && |r.items| == |v.items|
    ensures v.Dict? ==> r.Dict? && |r.entries| == |v.entries|
    ensures !(v.Record? || v.List? || v.Tuple? || v.Dict?) ==> r == v
    decreases v
  {
    match v
    case Record(fields) =>
      Dict(seq(|fields|, i requires 0 <= i < |fields| => (Str(Hyphenate(fields[i].0)), AsDict(fields[i].1))))
    case List(items) =>
      List(seq(|items|, i requires 0 <= i < |items| => AsDict(items[i])))
    case Tuple(items) =>
      Tuple(seq(|items|, i requires 0 <= i < |items| => AsDict(items[i])))
    case Dict(entries) =>
      Dict(seq(|entries|, i requires 0 <= i < |entries| => (AsDict(entries[i].0), AsDict(entries[i].1))))
    case _ => v
  }

  function Sum(xs: seq<nat>): nat {
    if xs == [] then 0 else xs[0] + Sum(xs[1..])
  }

  /** Number of dataclass instances in `v`. */
  function Records(v: Py): nat
    decreases v
  {
    match v
    case Record(fields) => 1 + Sum(seq(|fields|, i requires 0 <= i < |fields| => Records(fields[i].1)))
    case List(items) => Sum(seq(|items|, i requires 0 <= i < |items| => Records(items[i])))
    case Tuple(items) => Sum(seq(|items|, i requires 0 <= i < |items| => Records(items[i])))
    case Dict(entries) =>
      Sum(seq(|entries|, i requires 0 <= i < |entries| => Records(entries[i].0) + Records(entries[i].1)))
    case _ => 0
  }

  /** Number of dicts in `v`. */
  function Dicts(v: Py): nat
    decreases v
  {
    match v
    case Record(fields) => Sum(seq(|fields|, i requires 0 <= i < |fields| => Dicts(fields[i].1)))
    case List(items) => Sum(seq(|items|, i requires 0 <= i < |items| => Dicts(items[i])))
    case Tuple(items) => Sum(seq(|items|, i requires 0 <= i < |items| => Dicts(items[i])))
    case Dict(entries) =>
      1 + Sum(seq(|entries|, i requires 0 <= i < |entries| => Dicts(entries[i].0) + Dicts(entries[i].1)))
    case _ => 0
  }

  /** The nesting of a value with its scalars and names forgotten: a
      sequence, a record and a dict are all inner nodes, a field or a dict
      entry being the pair of its key and its value. */
  datatype Shape = Leaf | Inner(kids: seq<Shape>)

  function ShapeOf(v: Py): Shape
    decreases v
  {
    match v
    case Record(fields) =>
      Inner(seq(|fields|, i requires 0 <= i < |fields| => Inner([Leaf, ShapeOf(fields[i].1)])))
    case List(items) => Inner(seq(|items|, i requires 0 <= i < |items| => ShapeOf(items[i])))
    case Tuple(items) => Inner(seq(|items|, i requires 0 <= i < |items| => ShapeOf(items[i])))
    case Dict(entries) =>
      Inner(seq(|entries|, i requires 0 <= i < |entries| => Inner([ShapeOf(entries[i].0), ShapeOf(entries[i].1)])))
    case _ => Leaf
  }

  lemma {:induction false} SumZero(xs: seq<nat>)
    requires forall i | 0 <= i < |xs| :: xs[i] == 0
    ensures Sum(xs) == 0
  {
    if xs != [] {
      SumZero(xs[1..]);
    }
  }

  lemma {:induction false} SumAdd(xs: seq<nat>, ys: seq<nat>, zs: seq<nat>)
    requires |xs| == |ys| == |zs| && forall i | 0 <= i < |zs| :: zs[i] == xs[i] + ys[i]
    ensures Sum(zs) == Sum(xs) + Sum(ys)
  {
    if zs != [] {
      SumAdd(xs[1..], ys[1..], zs[1..]);
    }
  }

  lemma NoRecordInItems(e: seq<Py>)
    requires forall i | 0 <= i < |e| :: Records(e[i]) == 0
    ensures Records(List(e)) == 0 && Records(Tuple(e)) == 0
  {
    SumZero(seq(|e|, i requires 0 <= i < |e| => Records(e[i])));
  }

  lemma NoRecordInEntries(e: seq<(Py, Py)>)
    requires forall i | 0 <= i < |e| :: Records(e[i].0) == 0 && Records(e[i].1) == 0
    ensures Records(Dict(e)) == 0
  {
    SumZero(seq(|e|, i requires 0 <= i < |e| => Records(e[i].0) + Records(e[i].1)));
  }

  /** No dataclass instance survives the conversion. */
  lemma {:induction false} NoRecordLeft(v: Py)
    ensures Records(AsDict(v)) == 0
    decreases v
  {
    match v
    case Record(fields) =>
      var e := AsDict(v).entries;
      forall i | 0 <= i < |e| ensures Records(e[i].0) == 0 && Records(e[i].1) == 0 {
        NoRecordLeft(fields[i].1);
      }
      NoRecordInEntries(e);
    case List(items) =>
      var e := AsDict(v).items;
      forall i | 0 <= i < |e| ensures Records(e[i]) == 0 { NoRecordLeft(items[i]); }
      NoRecordInItems(e);
    case Tuple(items) =>
      var e := AsDict(v).items;
      forall i | 0 <= i < |e| ensures Records(e[i]) == 0 { NoRecordLeft(items[i]); }
      NoRecordInItems(e);
    case Dict(entries) =>
      var e := AsDict(v).entries;
      forall i | 0 <= i < |e| ensures Records(e[i].0) == 0 && Records(e[i].1) == 0 {
        NoRecordLeft(entries[i].0);
        NoRecordLeft(entries[i].1);
      }
      NoRecordInEntries(e);
    case _ =>
  }

  lemma CountItems(items: seq<Py>, e: seq<Py>)
    requires |e| == |items| && forall i | 0 <= i < |e| :: Dicts(e[i]) == Dicts(items[i]) + Records(items[i])
    ensures Dicts(List(e)) == Dicts(List(items)) + Records(List(items))
    ensures Dicts(Tuple(e)) == Dicts(Tuple(items)) + Records(Tuple(items))
  {
    SumAdd(seq(|items|, i requires 0 <= i < |items| => Dicts(items[i])),
           seq(|items|, i requires 0 <= i < |items| => Records(items[i])),
           seq(|e|, i requires 0 <= i < |e| => Dicts(e[i])));
  }

  lemma CountFields(fields: seq<(string, Py)>, e: seq<(Py, Py)>)
    requires |e| == |fields|
    requires forall i | 0 <= i < |e| :: Dicts(e[i].0) == 0 && Dicts(e[i].1) == Dicts(fields[i].1) + Records(fields[i].1)
    ensures Dicts(Dict(e)) == Dicts(Record(fields)) + Records(Record(fields))
  {
    SumAdd(seq(|fields|, i requires 0 <= i < |fields| => Dicts(fields[i].1)),
           seq(|fields|, i requires 0 <= i < |fields| => Records(fields[i].1)),
           seq(|e|, i requires 0 <= i < |e| => Dicts(e[i].0) + Dicts(e[i].1)));
  }

  lemma CountEntries(entries: seq<(Py, Py)>, e: seq<(Py, Py)>)
    requires |e| == |entries|
    requires forall i | 0 <= i < |e| ::
      && Dicts(e[i].0) == Dicts(entries[i].0) + Records(entries[i].0)
      && Dicts(e[i].1) == Dicts(entries[i].1) + Records(entries[i].1)
    ensures Dicts(Dict(e)) == Dicts(Dict(entries)) + Records(Dict(entries))
  {
    SumAdd(seq(|entries|, i requires 0 <= i < |entries| => Dicts(entries[i].0) + Dicts(entries[i].1)),
           seq(|entries|, i requires 0 <= i < |entries| => Records(entries[i].0) + Records(entries[i].1)),
           seq(|e|, i requires 0 <= i < |e| => Dicts(e[i].0) + Dicts(e[i].1)));
  }

  /** Every dataclass instance becomes one dict, and the dicts already there
      stay: the export has as many dicts as the value had of both. */
  lemma {:induction false} OneDictPerRecord(v: Py)
    ensures Dicts(AsDict(v)) == Dicts(v) + Records(v)
    decreases v
  {
    match v
    case Record(fields) =>
      var e := AsDict(v).entries;
      forall i | 0 <= i < |e|
        ensures Dicts(e[i].0) == 0 && Dicts(e[i].1) == Dicts(fields[i].1) + Records(fields[i].1)
      {
        OneDictPerRecord(fields[i].1);
      }
      CountFields(fields, e);
    case List(items) =>
      var e := AsDict(v).items;
      forall i | 0 <= i < |e| ensures Dicts(e[i]) == Dicts(items[i]) + Records(items[i]) {
        OneDictPerRecord(items[i]);
      }
      CountItems(items, e);
    case Tuple(items) =>
      var e := AsDict(v).items;
      forall i | 0 <= i < |e| ensures Dicts(e[i]) == Dicts(items[i]) + Records(items[i]) {
        OneDictPerRecord(items[i]);
      }
      CountItems(items, e);
    case Dict(entries) =>
      var e := AsDict(v).entries;
      forall i | 0 <= i < |e|
        ensures Dicts(e[i].0) == Dicts(entries[i].0) + Records(entries[i].0)
        ensures Dicts(e[i].1) == Dicts(entries[i].1) + Records(entries[i].1)
      {
        OneDictPerRecord(entries[i].0);
        OneDictPerRecord(entries[i].1);
      }
      CountEntries(entries, e);
    case _ =>
  }

  /** The export has the nesting of the value it comes from. */
  lemma {:induction false} SameShape(v: Py)
    ensures ShapeOf(AsDict(v)) == ShapeOf(v)
    decreases v
  {
    match v
    case Record(fields) =>
      forall i | 0 <= i < |fields| ensures ShapeOf(AsDict(fields[i].1)) == ShapeOf(fields[i].1) {
        SameShape(fields[i].1);
      }
    case List(items) =>
      forall i | 0 <= i < |items| ensures ShapeOf(AsDict(items[i])) == ShapeOf(items[i]) {
        SameShape(items[i]);
      }
    case Tuple(items) =>
      forall i | 0 <= i < |items| ensures ShapeOf(AsDict(items[i])) == ShapeOf(items[i]) {
        SameShape(items[i]);
      }
    case Dict(entries) =>
      forall i | 0 <= i < |entries|
        ensures ShapeOf(AsDict(entries[i].0)) == ShapeOf(entries[i].0)
        ensures ShapeOf(AsDict(entries[i].1)) == ShapeOf(entries[i].1)
      {
        SameShape(entries[i].0);
        SameShape(entries[i].1);
      }
    case _ =>
  }

  /** Every child of a node comes after it in the arena. */
  predicate Forward(nodes: seq<Node>) {
    forall k, i | 0 <= k < |nodes| && 0 <= i < |nodes[k].children| :: k < nodes[k].children[i] < |nodes|
  }

  function OptionalText(o: Option<string>): Py {
    if o.Some? then Str(o.value) else NoneValue
  }

  /** Node `k` of the arena as the object it stands for: the fields of the
      node record in declaration order, its children as nested records. */
  function NodeObject(nodes: seq<Node>, k: nat): (r: Py)
    requires Forward(nodes) && k < |nodes|
    ensures r.Record? && |r.fields| == |NodeFields|
    decreases |nodes| - k
  {
    var n := nodes[k];
    Record([("topic", Str(n.topic)), ("level", Int(n.level)), ("id", Int(n.id)),
            ("isroot", Bool(n.isroot)), ("expended", Bool(n.expended)), ("direction", Str(n.direction)),
            ("children", List(seq(|n.children|, i requires 0 <= i < |n.children| => NodeObject(nodes, n.children[i])))),
            ("background_color", OptionalText(n.background)), ("foreground_color", OptionalText(n.foreground))])
  }

  /** The field names of the node record, in declaration order. */
  const NodeFields: seq<string> :=
    ["topic", "level", "id", "isroot", "expended", "direction", "children", "background_color", "foreground_color"]

  /** The keys of an exported node, in order. */
  const NodeKeys: seq<string> :=
    ["topic", "level", "id", "isroot", "expended", "direction", "children", "background-color", "foreground-color"]

  /** A name without `_` exports unchanged. */
  lemma PlainName(name: string)
    requires '_' !in name
    ensures Hyphenate(name) == name
  {
    assert forall i | 0 <= i < |name| :: name[i] != '_' by {
      forall i | 0 <= i < |name| ensures name[i] != '_' { assert name[i] in name; }
    }
  }

  /** The two colour fields are the only ones whose key differs from the
      field name. */
  lemma NodeKeysAreHyphenated()
    ensures |NodeKeys| == |NodeFields|
    ensures forall i | 0 <= i < |NodeFields| :: Hyphenate(NodeFields[i]) == NodeKeys[i]
  {
    assert Hyphenate("background_color") == "background-color";
    assert Hyphenate("foreground_color") == "foreground-color";
    PlainName("topic");
    PlainName("level");
    PlainName("id");
    PlainName("isroot");
    PlainName("expended");
    PlainName("direction");
    PlainName("children");
  }

  /** A record exports to the dict of its converted fields under their
      hyphenated names, in the same order. */
  lemma RecordExport(fields: seq<(string, Py)>)
    ensures AsDict(Record(fields)).Dict? && |AsDict(Record(fields)).entries| == |fields|
    ensures forall i | 0 <= i < |fields| ::
      AsDict(Record(fields)).entries[i] == (Str(Hyphenate(fields[i].0)), AsDict(fields[i].1))
  {
  }

  /** An exported node is a dict with the hyphenated field names as keys, in
      declaration order; the scalar fields keep their values and the children
      are exported one by one, in their order. */
  lemma ExportedNode(nodes: seq<Node>, k: nat)
    requires Forward(nodes) && k < |nodes|
    ensures var n := nodes[k];
      AsDict(NodeObject(nodes, k))
      == Dict([(Str(NodeKeys[0]), Str(n.topic)), (Str(NodeKeys[1]), Int(n.level)), (Str(NodeKeys[2]), Int(n.id)),
               (Str(NodeKeys[3]), Bool(n.isroot)), (Str(NodeKeys[4]), Bool(n.expended)),
               (Str(NodeKeys[5]), Str(n.direction)),
               (Str(NodeKeys[6]), List(seq(|n.children|, i requires 0 <= i < |n.children| =>
                                             AsDict(NodeObject(nodes, n.children[i]))))),
               (Str(NodeKeys[7]), OptionalText(n.background)), (Str(NodeKeys[8]), OptionalText(n.foreground))])
  {
    var n := nodes[k];
    var items := seq(|n.children|, i requires 0 <= i < |n.children| => NodeObject(nodes, n.children[i]));
    var fields := [("topic", Str(n.topic)), ("level", Int(n.level)), ("id", Int(n.id)),
                   ("isroot", Bool(n.isroot)), ("expended", Bool(n.expended)), ("direction", Str(n.direction)),
                   ("children", List(items)),
                   ("background_color", OptionalText(n.background)), ("foreground_color", OptionalText(n.foreground))];
    assert NodeObject(nodes, k) == Record(fields);
    RecordExport(fields);
    NodeKeysAreHyphenated();
    var exported := seq(|n.children|, i requires 0 <= i < |n.children| => AsDict(NodeObject(nodes, n.children[i])));
    assert AsDict(List(items)) == List(exported);
  }
}
