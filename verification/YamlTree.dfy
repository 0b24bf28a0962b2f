/** Parsed documents and their flattening to path keys (internal/values/yaml.go). */
module YamlTree {
  import opened Wrappers
  import opened Numerals

  /** A scalar of a parsed document; how Go prints its float64 is not modelled. */
  datatype Scalar = Text(text: string) | Number(printed: string) | Boolean(truth: bool) | Null

  function Format(scalar: Scalar): (text: string)
    ensures scalar.Boolean? ==> (text == "true" <==> scalar.truth) && (text == "false" <==> !scalar.truth)
    ensures scalar.Null? ==> text == ""
    ensures scalar.Text? ==> text == scalar.text
    ensures scalar.Number? ==> text == scalar.printed
  {
    match scalar
    case Text(text) => text
    case Number(printed) => printed
    case Boolean(truth) => if truth then "true" else "false"
    case Null => ""
  }

  datatype Value = Leaf(scalar: Scalar) | Object(fields: map<string, Value>) | List(items: seq<Value>)

  datatype Segment = Key(name: string) | Index(position: nat)

  type Path = seq<Segment>

  /** The scalar at the end of a path. */
  function At(v: Value, p: Path): Option<Scalar> {
    if p == [] then if v.Leaf? then Some(v.scalar) else None
    else
      match (v, p[0])
      case (Object(fields), Key(name)) => if name in fields then At(fields[name], p[1..]) else None
      case (List(items), Index(i)) => if i < |items| then At(items[i], p[1..]) else None
      case _ => None
  }

  /** One step of the key the recursion carries along. */
  function Extend(prefix: string, segment: Segment): string {
    match segment
    case Key(name) => if prefix != "" then prefix + "." + name else name
    case Index(i) => prefix + "[" + Decimal(i) + "]"
  }

  function Render(prefix: string, p: Path): string
    decreases |p|
  {
    if p == [] then prefix else Render(Extend(prefix, p[0]), p[1..])
  }

  lemma {:induction false} RenderLast(prefix: string, p: Path, segment: Segment)
    ensures Render(prefix, p + [segment]) == Extend(Render(prefix, p), segment)
    decreases |p|
  {
    if p == [] {
      assert ([] + [segment])[1..] == [];
    } else {
      assert (p + [segment])[1..] == p[1..] + [segment];
      RenderLast(Extend(prefix, p[0]), p[1..], segment);
    }
  }

  /** Keys are joined by dots, indices put in brackets. */
  lemma PathNotation(p: Path, name: string, i: nat)
    ensures Render("", p + [Key(name)]) == if Render("", p) == "" then name else Render("", p) + "." + name
    ensures Render("", p + [Index(i)]) == Render("", p) + "[" + Decimal(i) + "]"
  {
    RenderLast("", p, Key(name));
    RenderLast("", p, Index(i));
  }

  /** Some leaf of v, printed below prefix, gives the key and the text. */
  ghost predicate Emits(v: Value, prefix: string, key: string, text: string) {
    exists p :: At(v, p).Some? && Render(prefix, p) == key && Format(At(v, p).value) == text
  }

  ghost predicate EmitsKey(v: Value, prefix: string, key: string) {
    exists p :: At(v, p).Some? && Render(prefix, p) == key
  }

  /** The map has taken in every leaf of v and nothing else; when keys collide, some leaf wins. */
  ghost predicate Adds(v: Value, prefix: string, before: map<string, string>, after: map<string, string>) {
    forall key ::
      && (key in after <==> key in before || EmitsKey(v, prefix, key))
      && (key in after && EmitsKey(v, prefix, key) ==> Emits(v, prefix, key, after[key]))
      && (key in before && !EmitsKey(v, prefix, key) ==> after[key] == before[key])
  }

  /**
   * m takes in the whole document v. Where keys collide, each may take the text of any of its leaves;
   * `FlattenIn` below says which combinations an order of iteration gives.
   */
  ghost predicate Flattens(v: Value, m: map<string, string>) {
    Adds(v, "", map[], m)
  }

  // The children of a container and what they contribute.

  lemma EmitsLeaf(scalar: Scalar, prefix: string, key: string)
    ensures EmitsKey(Leaf(scalar), prefix, key) <==> key == prefix
    ensures forall text :: Emits(Leaf(scalar), prefix, key, text) <==> key == prefix && text == Format(scalar)
  {
    assert At(Leaf(scalar), []) == Some(scalar);
    assert Render(prefix, []) == prefix;
  }

  lemma ChildEmits(v: Value, segment: Segment, child: Value, prefix: string, key: string, text: string)
    requires match segment
             case Key(name) => v.Object? && name in v.fields && v.fields[name] == child
             case Index(i) => v.List? && i < |v.items| && v.items[i] == child
    ensures EmitsKey(child, Extend(prefix, segment), key) ==> EmitsKey(v, prefix, key)
    ensures Emits(child, Extend(prefix, segment), key, text) ==> Emits(v, prefix, key, text)
  {
    forall p: Path
      ensures At(v, [segment] + p) == At(child, p)
      ensures Render(prefix, [segment] + p) == Render(Extend(prefix, segment), p)
    {
      assert ([segment] + p)[1..] == p;
    }
    if EmitsKey(child, Extend(prefix, segment), key) {
      var p: Path :| At(child, p).Some? && Render(Extend(prefix, segment), p) == key;
      assert At(v, [segment] + p).Some? && Render(prefix, [segment] + p) == key;
    }
    if Emits(child, Extend(prefix, segment), key, text) {
      var p: Path :| At(child, p).Some? && Render(Extend(prefix, segment), p) == key && Format(At(child, p).value) == text;
      assert At(v, [segment] + p).Some? && Render(prefix, [segment] + p) == key;
    }
  }

  /** Some field in `names` emits the key. */
  ghost predicate FieldEmits(fields: map<string, Value>, names: set<string>, prefix: string, key: string) {
    exists name :: name in names && name in fields && EmitsKey(fields[name], Extend(prefix, Key(name)), key)
  }

  lemma ObjectEmits(fields: map<string, Value>, prefix: string, key: string)
    ensures EmitsKey(Object(fields), prefix, key) <==> FieldEmits(fields, fields.Keys, prefix, key)
  {
    var v := Object(fields);
    if EmitsKey(v, prefix, key) {
      var p: Path :| At(v, p).Some? && Render(prefix, p) == key;
      var name := p[0].name;
      assert At(fields[name], p[1..]).Some? && Render(Extend(prefix, Key(name)), p[1..]) == key;
      assert EmitsKey(fields[name], Extend(prefix, Key(name)), key);
    }
    if FieldEmits(fields, fields.Keys, prefix, key) {
      var name :| name in fields && EmitsKey(fields[name], Extend(prefix, Key(name)), key);
      ChildEmits(v, Key(name), fields[name], prefix, key, "");
    }
  }

  /** Some item before `bound` emits the key. */
  ghost predicate ItemEmits(items: seq<Value>, bound: nat, prefix: string, key: string) {
    exists i :: 0 <= i < bound && i < |items| && EmitsKey(items[i], Extend(prefix, Index(i)), key)
  }

  lemma ListEmits(items: seq<Value>, prefix: string, key: string)
    ensures EmitsKey(List(items), prefix, key) <==> ItemEmits(items, |items|, prefix, key)
  {
    var v := List(items);
    if EmitsKey(v, prefix, key) {
      var p: Path :| At(v, p).Some? && Render(prefix, p) == key;
      var i := p[0].position;
      assert At(items[i], p[1..]).Some? && Render(Extend(prefix, Index(i)), p[1..]) == key;
      assert EmitsKey(items[i], Extend(prefix, Index(i)), key);
    }
    if ItemEmits(items, |items|, prefix, key) {
      var i :| 0 <= i < |items| && EmitsKey(items[i], Extend(prefix, Index(i)), key);
      ChildEmits(v, Index(i), items[i], prefix, key, "");
    }
  }

  // Orders of iteration and the map each of them gives.

  /** In which order the keys of every object are met. */
  datatype Order = AtLeaf | InObject(names: seq<string>, inner: seq<Order>) | InList(inner: seq<Order>)

  /** The order meets every key of every object once; lists leave no choice. */
  predicate Walks(v: Value, o: Order)
    decreases v
  {
    match (v, o)
    case (Leaf(_), AtLeaf) => true
    case (Object(fields), InObject(names, inner)) => WalksNames(v, names, inner) && fields.Keys <= Members(names)
    case (List(items), InList(inner)) => |inner| == |items| && WalksItems(v, inner)
    case _ => false
  }

  function Members(names: seq<string>): set<string> {
    set name | name in names
  }

  predicate WalksNames(v: Value, names: seq<string>, inner: seq<Order>)
    requires v.Object?
    decreases v, 0
  {
    && |names| == |inner|
    && (forall i :: 0 <= i < |names| ==> names[i] in v.fields && Walks(v.fields[names[i]], inner[i]))
    && (forall i, j :: 0 <= i < j < |names| ==> names[i] != names[j])
  }

  predicate WalksItems(v: Value, inner: seq<Order>)
    requires v.List?
    decreases v, 0
  {
    |inner| <= |v.items| && forall i :: 0 <= i < |inner| ==> Walks(v.items[i], inner[i])
  }

  /** What `before` becomes when v is flattened in the given order. */
  function FlattenIn(v: Value, prefix: string, o: Order, before: map<string, string>): map<string, string>
    requires Walks(v, o)
    decreases v, 1, 0
  {
    match v
    case Leaf(scalar) => before[prefix := Format(scalar)]
    case Object(_) => FieldsIn(v, prefix, o.names, o.inner, before)
    case List(_) => ItemsIn(v, prefix, o.inner, before)
  }

  function FieldsIn(v: Value, prefix: string, names: seq<string>, inner: seq<Order>, before: map<string, string>): map<string, string>
    requires v.Object? && WalksNames(v, names, inner)
    decreases v, 0, |names|
  {
    if names == [] then before
    else
      var n := |names| - 1;
      FlattenIn(v.fields[names[n]], Extend(prefix, Key(names[n])), inner[n],
                FieldsIn(v, prefix, names[..n], inner[..n], before))
  }

  function ItemsIn(v: Value, prefix: string, inner: seq<Order>, before: map<string, string>): map<string, string>
    requires v.List? && WalksItems(v, inner)
    decreases v, 0, |inner|
  {
    if inner == [] then before
    else
      var n := |inner| - 1;
      FlattenIn(v.items[n], Extend(prefix, Index(n)), inner[n], ItemsIn(v, prefix, inner[..n], before))
  }

  /** Whatever the order, the map takes in every leaf and nothing else. */
  lemma {:induction false} FlattenAdds(v: Value, prefix: string, o: Order, before: map<string, string>)
    requires Walks(v, o)
    ensures Adds(v, prefix, before, FlattenIn(v, prefix, o, before))
    decreases v, 1, 0
  {
    match v
    case Leaf(scalar) =>
      forall key ensures EmitsKey(v, prefix, key) <==> key == prefix {
        EmitsLeaf(scalar, prefix, key);
      }
      EmitsLeaf(scalar, prefix, prefix);
    case Object(fields) =>
      FieldsAdd(v, prefix, o.names, o.inner, before);
      assert Members(o.names) == fields.Keys;
      forall key ensures EmitsKey(v, prefix, key) <==> FieldEmits(fields, fields.Keys, prefix, key) {
        ObjectEmits(fields, prefix, key);
      }
    case List(items) =>
      ItemsAdd(v, prefix, o.inner, before);
      forall key ensures EmitsKey(v, prefix, key) <==> ItemEmits(items, |items|, prefix, key) {
        ListEmits(items, prefix, key);
      }
  }

  lemma {:induction false} FieldsAdd(v: Value, prefix: string, names: seq<string>, inner: seq<Order>, before: map<string, string>)
    requires v.Object? && WalksNames(v, names, inner)
    ensures var after := FieldsIn(v, prefix, names, inner, before);
            forall key ::
              && (key in after <==> key in before || FieldEmits(v.fields, Members(names), prefix, key))
              && (key in after && FieldEmits(v.fields, Members(names), prefix, key) ==> Emits(v, prefix, key, after[key]))
              && (key in before && !FieldEmits(v.fields, Members(names), prefix, key) ==> after[key] == before[key])
    decreases v, 0, |names|
  {
    if names != [] {
      var n := |names| - 1;
      var name, child := names[n], v.fields[names[n]];
      var middle := FieldsIn(v, prefix, names[..n], inner[..n], before);
      var after := FieldsIn(v, prefix, names, inner, before);
      FieldsAdd(v, prefix, names[..n], inner[..n], before);
      FlattenAdds(child, Extend(prefix, Key(name)), inner[n], middle);
      assert Members(names) == Members(names[..n]) + {name};
      forall key
        ensures FieldEmits(v.fields, Members(names), prefix, key) <==>
                FieldEmits(v.fields, Members(names[..n]), prefix, key) || EmitsKey(child, Extend(prefix, Key(name)), key)
      {
      }
      forall key | key in after && EmitsKey(child, Extend(prefix, Key(name)), key)
        ensures Emits(v, prefix, key, after[key])
      {
        ChildEmits(v, Key(name), child, prefix, key, after[key]);
      }
    }
  }

  lemma {:induction false} ItemsAdd(v: Value, prefix: string, inner: seq<Order>, before: map<string, string>)
    requires v.List? && WalksItems(v, inner)
    ensures var after := ItemsIn(v, prefix, inner, before);
            forall key ::
              && (key in after <==> key in before || ItemEmits(v.items, |inner|, prefix, key))
              && (key in after && ItemEmits(v.items, |inner|, prefix, key) ==> Emits(v, prefix, key, after[key]))
              && (key in before && !ItemEmits(v.items, |inner|, prefix, key) ==> after[key] == before[key])
    decreases v, 0, |inner|
  {
    hide Emits, EmitsKey, Format, At, Render, Walks, FlattenIn;
    if inner != [] {
      var n := |inner| - 1;
      var middle := ItemsIn(v, prefix, inner[..n], before);
      var after := ItemsIn(v, prefix, inner, before);
      ItemsAdd(v, prefix, inner[..n], before);
      FlattenAdds(v.items[n], Extend(prefix, Index(n)), inner[n], middle);
      forall key
        ensures ItemEmits(v.items, |inner|, prefix, key) <==>
                ItemEmits(v.items, n, prefix, key) || EmitsKey(v.items[n], Extend(prefix, Index(n)), key)
      {
      }
      forall key | key in after && EmitsKey(v.items[n], Extend(prefix, Index(n)), key)
        ensures Emits(v, prefix, key, after[key])
      {
        ChildEmits(v, Index(n), v.items[n], prefix, key, after[key]);
      }
    }
  }

  // The mutation.

  /** The map flattenValue writes into. */
  class FlatMap {
    var entries: map<string, string>

    constructor ()
      ensures entries == map[]
    {
      entries := map[];
    }
  }

  /** The order is whichever the iteration over Go's maps has taken. */
  method FlattenValue(prefix: string, v: Value, result: FlatMap) returns (ghost o: Order)
    modifies result
    ensures Walks(v, o) && result.entries == FlattenIn(v, prefix, o, old(result.entries))
    ensures Adds(v, prefix, old(result.entries), result.entries)
    decreases v, 1
  {
    match v {
      case Leaf(scalar) =>
        result.entries := result.entries[prefix := Format(scalar)];
        o := AtLeaf;
      case Object(fields) =>
        o := FlattenFields(prefix, v, result);
      case List(items) =>
        o := FlattenItems(prefix, v, result);
    }
    FlattenAdds(v, prefix, o, old(result.entries));
  }

  method FlattenFields(prefix: string, v: Value, result: FlatMap) returns (ghost o: Order)
    requires v.Object?
    modifies result
    ensures Walks(v, o) && result.entries == FlattenIn(v, prefix, o, old(result.entries))
    decreases v, 0
  {
    var fields := v.fields;
    var todo := fields.Keys;
    ghost var names: seq<string>, inner: seq<Order> := [], [];
    while todo != {}
      invariant todo !! Members(names) && todo + Members(names) == fields.Keys
      invariant WalksNames(v, names, inner)
      invariant result.entries == FieldsIn(v, prefix, names, inner, old(result.entries))
    {
      // Go promises no order here.
      var name :| name in todo;
      ghost var walked := FlattenValue(Extend(prefix, Key(name)), fields[name], result);
      todo := todo - {name};
      assert name !in Members(names);
      NamesGrow(v, prefix, names, inner, name, walked, old(result.entries));
      names, inner := names + [name], inner + [walked];
    }
    o := InObject(names, inner);
  }

  lemma NamesGrow(v: Value, prefix: string, names: seq<string>, inner: seq<Order>, name: string, walked: Order,
                  before: map<string, string>)
    requires v.Object? && WalksNames(v, names, inner)
    requires name in v.fields && name !in Members(names) && Walks(v.fields[name], walked)
    ensures WalksNames(v, names + [name], inner + [walked])
    ensures Members(names + [name]) == Members(names) + {name}
    ensures FieldsIn(v, prefix, names + [name], inner + [walked], before)
            == FlattenIn(v.fields[name], Extend(prefix, Key(name)), walked, FieldsIn(v, prefix, names, inner, before))
  {
    assert (names + [name])[..|names|] == names && (inner + [walked])[..|names|] == inner;
  }

  method FlattenItems(prefix: string, v: Value, result: FlatMap) returns (ghost o: Order)
    requires v.List?
    modifies result
    ensures Walks(v, o) && result.entries == FlattenIn(v, prefix, o, old(result.entries))
    decreases v, 0
  {
    var items := v.items;
    ghost var inner: seq<Order> := [];
    for i := 0 to |items|
      invariant |inner| == i && WalksItems(v, inner)
      invariant result.entries == ItemsIn(v, prefix, inner, old(result.entries))
    {
      ghost var walked := FlattenValue(Extend(prefix, Index(i)), items[i], result);
      assert (inner + [walked])[..i] == inner;
      inner := inner + [walked];
    }
    o := InList(inner);
  }
}
