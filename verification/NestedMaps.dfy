/** The nested maps the unflattening mutates, as linked objects, and the mutation proved against its specification. */
module NestedMaps {
  import opened YamlTree
  import opened Unflattening
  import opened Strings

  datatype Entry = TextEntry(text: string) | MapEntry(node: Node)

  /**
   * The way down from the root to the current map: at each step the map left behind, the name entered,
   * and what of the structure is not below that name.
   */
  datatype Trail = Root | Down(above: Trail, node: Node, name: string, outside: set<Node>)

  function Footprint(trail: Trail): set<Node> {
    if trail.Root? then {} else Footprint(trail.above) + trail.outside
  }

  /** The maps on the trail hold each other under the names entered, down to `curr`. */
  ghost predicate Leads(trail: Trail, curr: Node)
    reads Footprint(trail)
  {
    match trail
    case Root => true
    case Down(above, node, name, outside) =>
      node in outside && node.Open(name, curr, outside) && outside !! Footprint(above) && Leads(above, node)
  }

  function Top(trail: Trail, curr: Node): Node {
    if trail.Root? then curr else Top(trail.above, trail.node)
  }

  /** What the root represents when the map at the end of the trail represents `fields`. */
  ghost function ViewFrom(trail: Trail, fields: Fields): Fields
    requires OnTrail(trail)
    reads Footprint(trail)
  {
    match trail
    case Root => fields
    case Down(above, node, name, _) => ViewFrom(above, node.View[name := Object(fields)])
  }

  predicate OnTrail(trail: Trail) {
    trail.Down? ==> trail.node in trail.outside && OnTrail(trail.above)
  }

  class Node {
    var entries: map<string, Entry>
    ghost var Repr: set<Node>
    ghost var View: Fields

    ghost predicate Valid()
      reads this, Repr
      ensures Valid() ==> this in Repr
      decreases Repr, 1
    {
      && this in Repr
      && View.Keys == entries.Keys
      && (forall name | name in entries :: Holds(name))
      && (forall a, b | a in entries && b in entries && a != b && entries[a].MapEntry? && entries[b].MapEntry? ::
            entries[a].node.Repr !! entries[b].node.Repr)
    }

    /** One entry is what the view says, and owns its part of the structure. */
    ghost predicate Holds(name: string)
      requires name in entries && name in View
      reads this, Repr
      decreases Repr, 0
    {
      match entries[name]
      case TextEntry(text) => View[name] == Leaf(Text(text))
      case MapEntry(child) =>
        && child in Repr && child.Repr < Repr && this !in child.Repr
        && child.Valid() && View[name] == Object(child.View)
    }

    constructor ()
      ensures Valid() && fresh(Repr) && View == map[]
    {
      entries, Repr, View := map[], {this}, map[];
    }

    method PutText(name: string, text: string)
      requires Valid()
      modifies this
      ensures Valid() && Repr == old(Repr)
      ensures View == old(View)[name := Leaf(Text(text))]
    {
      entries := entries[name := TextEntry(text)];
      View := View[name := Leaf(Text(text))];
    }

    /** The nested map under a name, made empty when there is none. */
    method Enter(name: string) returns (child: Node)
      requires Valid()
      modifies this
      ensures Valid() && fresh(Repr - old(Repr))
      ensures name in entries && entries[name] == MapEntry(child)
      ensures child.View == Nested(old(View), name)
      ensures View == old(View)[name := Object(child.View)]
    {
      if name in entries && entries[name].MapEntry? {
        child := entries[name].node;
        assert View == View[name := Object(child.View)];
      } else {
        child := new Node();
        entries := entries[name := MapEntry(child)];
        View := View[name := Object(child.View)];
        Repr := Repr + child.Repr;
      }
    }

    /** Everything but the entry `name` is as the view says, within `outside`. */
    ghost predicate Open(name: string, child: Node, outside: set<Node>)
      reads this, outside
    {
      && this in outside && View.Keys == entries.Keys
      && name in entries && entries[name] == MapEntry(child)
      && (forall other | other in entries && other != name :: HoldsIn(other, outside))
      && (forall a, b | a in entries && b in entries && a != b && a != name && b != name
                        && entries[a].MapEntry? && entries[b].MapEntry? ::
            HoldsIn(a, outside) && HoldsIn(b, outside) && entries[a].node.Repr !! entries[b].node.Repr)
    }

    ghost predicate HoldsIn(name: string, outside: set<Node>)
      reads this, outside
    {
      && name in entries && name in View
      && match entries[name]
         case TextEntry(text) => View[name] == Leaf(Text(text))
         case MapEntry(child) =>
           && child in outside && child.Repr <= outside && this !in child.Repr
           && child.Valid() && View[name] == Object(child.View)
    }

    lemma Opens(name: string, child: Node)
      requires Valid() && name in entries && entries[name] == MapEntry(child)
      ensures child.Valid() && child.Repr <= Repr
      ensures Open(name, child, Repr - child.Repr)
    {
      assert Holds(name);
      forall other | other in entries && other != name
        ensures HoldsIn(other, Repr - child.Repr)
      {
        assert Holds(other);
      }
    }

    ghost method Close(name: string, child: Node, outside: set<Node>)
      requires Open(name, child, outside) && child.Valid() && outside !! child.Repr
      modifies this`View, this`Repr
      ensures Valid() && Repr == outside + child.Repr
      ensures View == old(View)[name := Object(child.View)]
    {
      View := View[name := Object(child.View)];
      Repr := outside + child.Repr;
      forall other | other in entries
        ensures Holds(other)
      {
        if other != name {
          assert old(HoldsIn(other, outside));
        }
      }
    }

    /** The value goes in at the end of the chain of parts. */
    method Put(parts: seq<string>, text: string)
      requires Valid() && parts != []
      modifies Repr
      ensures Valid() && fresh(Repr - old(Repr))
      ensures View == Insert(old(View), parts, text)
    {
      hide Leads, ViewFrom, Footprint, OnTrail, Top, Insert, Node.Valid, Node.Open;
      var curr := this;
      ghost var trail := Root;
      AtRoot(this, Insert(View, parts, text));
      assert parts[0..] == parts;
      for i := 0 to |parts|
        invariant i < |parts|
        invariant curr.Valid() && OnTrail(trail) && Leads(trail, curr)
        invariant Footprint(trail) !! curr.Repr && Top(trail, curr) == this
        invariant fresh(Footprint(trail) + curr.Repr - old(Repr))
        invariant ViewFrom(trail, Insert(curr.View, parts[i..], text)) == Insert(old(View), parts, text)
      {
        ghost var goal := Insert(curr.View, parts[i..], text);
        assert parts[i..][0] == parts[i] && parts[i..][1..] == parts[i + 1..];
        assert curr !in Footprint(trail) && allocated(Footprint(trail));
        if i == |parts| - 1 {
          InsertLast(curr.View, parts[i..], text);
          curr.PutText(parts[i], text);
          assert Leads(trail, curr) && curr.View == goal && ViewFrom(trail, goal) == Insert(old(View), parts, text);
          break;
        }
        InsertStep(curr.View, parts[i..], text);
        var next := curr.Enter(parts[i]);
        assert Leads(trail, curr) && ViewFrom(trail, goal) == Insert(old(View), parts, text);
        assert curr.View[parts[i] := Object(Insert(next.View, parts[i + 1..], text))] == goal;
        Descend(trail, curr, parts[i], next);
        trail := Down(trail, curr, parts[i], curr.Repr - next.Repr);
        curr := next;
      }
      CloseAll(trail, curr);
    }
  }

  lemma AtRoot(root: Node, fields: Fields)
    ensures OnTrail(Root) && Leads(Root, root) && Footprint(Root) == {} && Top(Root, root) == root
    ensures ViewFrom(Root, fields) == fields
  {
  }

  lemma InsertLast(fields: Fields, parts: seq<string>, text: string)
    requires |parts| == 1
    ensures Insert(fields, parts, text) == fields[parts[0] := Leaf(Text(text))]
  {
  }

  lemma InsertStep(fields: Fields, parts: seq<string>, text: string)
    requires |parts| > 1
    ensures Insert(fields, parts, text)
            == fields[parts[0] := Object(Insert(Nested(fields, parts[0]), parts[1..], text))]
  {
  }

  /** The trail gets longer by the map just left. */
  lemma Descend(trail: Trail, curr: Node, name: string, next: Node)
    requires OnTrail(trail) && Leads(trail, curr) && curr.Valid() && Footprint(trail) !! curr.Repr
    requires name in curr.entries && curr.entries[name] == MapEntry(next)
    ensures var longer := Down(trail, curr, name, curr.Repr - next.Repr);
            && OnTrail(longer) && Leads(longer, next) && next.Valid() && Footprint(longer) !! next.Repr
            && Footprint(longer) + next.Repr == Footprint(trail) + curr.Repr
            && Top(longer, next) == Top(trail, curr)
            && (forall v :: ViewFrom(longer, v) == ViewFrom(trail, curr.View[name := Object(v)]))
  {
    hide Node.Valid, Node.Open;
    curr.Opens(name, next);
    assert curr in curr.Repr - next.Repr by {
      OpenIsOutside(curr, name, next, curr.Repr - next.Repr);
    }
  }

  lemma OpenIsOutside(node: Node, name: string, child: Node, outside: set<Node>)
    requires node.Open(name, child, outside)
    ensures node in outside
  {
  }

  /** Going back up the trail, every map on it comes to own and to represent what is now below it. */
  ghost method CloseAll(trail: Trail, curr: Node)
    requires OnTrail(trail) && Leads(trail, curr) && curr.Valid() && Footprint(trail) !! curr.Repr
    modifies Footprint(trail)
    ensures var top := Top(trail, curr);
            top.Valid() && top.Repr == old(Footprint(trail) + curr.Repr) && top.View == old(ViewFrom(trail, curr.View))
    decreases trail
  {
    hide Node.Valid, Node.Open;
    match trail
    case Root =>
    case Down(above, node, name, outside) =>
      ghost var fields := node.View[name := Object(curr.View)];
      assert ViewFrom(trail, curr.View) == ViewFrom(above, fields);
      assert node !in Footprint(above) && allocated(Footprint(above));
      node.Close(name, curr, outside);
      assert Leads(above, node) && ViewFrom(above, fields) == old(ViewFrom(above, fields));
      CloseAll(above, node);
  }

  /** Keys are taken in whatever order the map yields them. */
  method Unflatten(flat: map<string, string>) returns (root: Node, ghost keys: seq<string>)
    ensures Enumerates(keys, flat)
    ensures root.Valid() && root.View == Build(keys, flat)
  {
    root := new Node();
    keys := [];
    var todo := flat.Keys;
    while todo != {}
      invariant todo <= flat.Keys
      invariant forall i :: 0 <= i < |keys| ==> keys[i] in flat
      invariant forall key :: key in flat ==> key in keys || key in todo
      invariant root.Valid() && fresh(root.Repr)
      invariant root.View == Build(keys, flat)
    {
      var key :| key in todo;
      root.Put(Split(key, '.'), flat[key]);
      assert (keys + [key])[..|keys|] == keys;
      keys := keys + [key];
      todo := todo - {key};
    }
  }
}
