/** Which maps the orders of iteration give, and when they all give the same. */
module FlattenOrders {
  import opened Wrappers
  import opened YamlTree
  import opened PathEncoding
  import Strings

  // There are orders.

  lemma {:induction false} Enumerate(names: set<string>) returns (listed: seq<string>)
    ensures Members(listed) == names && |listed| == |names|
    ensures forall i, j :: 0 <= i < j < |listed| ==> listed[i] != listed[j]
    decreases names
  {
    if names == {} {
      listed := [];
    } else {
      var name :| name in names;
      var rest := Enumerate(names - {name});
      assert forall i :: 0 <= i < |rest| ==> rest[i] in Members(rest);
      listed := rest + [name];
      assert Members(listed) == Members(rest) + {name};
    }
  }

  lemma {:induction false} AnyOrder(v: Value) returns (o: Order)
    ensures Walks(v, o)
    decreases v, 1, 0
  {
    match v
    case Leaf(_) => o := AtLeaf;
    case Object(fields) =>
      var names := Enumerate(fields.Keys);
      assert forall i :: 0 <= i < |names| ==> names[i] in Members(names);
      var inner := AnyFieldOrders(v, names);
      o := InObject(names, inner);
    case List(items) =>
      var inner := AnyItemOrders(v, |items|);
      o := InList(inner);
  }

  lemma {:induction false} AnyFieldOrders(v: Value, names: seq<string>) returns (inner: seq<Order>)
    requires v.Object? && forall i :: 0 <= i < |names| ==> names[i] in v.fields
    requires forall i, j :: 0 <= i < j < |names| ==> names[i] != names[j]
    ensures WalksNames(v, names, inner)
    decreases v, 0, |names|
  {
    if names == [] {
      inner := [];
    } else {
      var n := |names| - 1;
      var earlier := AnyFieldOrders(v, names[..n]);
      var last := AnyOrder(v.fields[names[n]]);
      inner := earlier + [last];
    }
  }

  lemma {:induction false} AnyItemOrders(v: Value, n: nat) returns (inner: seq<Order>)
    requires v.List? && n <= |v.items|
    ensures |inner| == n && WalksItems(v, inner)
    decreases v, 0, n
  {
    if n == 0 {
      inner := [];
    } else {
      var earlier := AnyItemOrders(v, n - 1);
      var last := AnyOrder(v.items[n - 1]);
      inner := earlier + [last];
    }
  }

  // Every leaf wins its key under some order.

  /** The order gives the leaf's key the leaf's text, whatever was in the map before. */
  ghost predicate Wins(v: Value, prefix: string, o: Order, p: Path)
    requires Walks(v, o) && At(v, p).Some?
  {
    forall before :: Render(prefix, p) in FlattenIn(v, prefix, o, before)
                     && FlattenIn(v, prefix, o, before)[Render(prefix, p)] == Format(At(v, p).value)
  }

  lemma {:induction false} LeafMayWin(v: Value, prefix: string, p: Path) returns (o: Order)
    requires At(v, p).Some?
    ensures Walks(v, o) && Wins(v, prefix, o, p)
    decreases v
  {
    match v
    case Leaf(_) => o := AtLeaf;
    case Object(fields) =>
      var name := p[0].name;
      var last := LeafMayWin(fields[name], Extend(prefix, p[0]), p[1..]);
      var names := Enumerate(fields.Keys - {name});
      assert forall i :: 0 <= i < |names| ==> names[i] in Members(names);
      var inner := AnyFieldOrders(v, names);
      NameLastWins(v, prefix, p, names, inner, last);
      o := InObject(names + [name], inner + [last]);
    case List(items) =>
      var i := p[0].position;
      var walked := LeafMayWin(items[i], Extend(prefix, p[0]), p[1..]);
      var inner := AnyItemOrders(v, |items|);
      o := InList(inner[i := walked]);
      ItemWins(v, prefix, p, inner[i := walked], |items|);
  }

  lemma NameLastWins(v: Value, prefix: string, p: Path, names: seq<string>, inner: seq<Order>, last: Order)
    requires v.Object? && At(v, p).Some? && WalksNames(v, names, inner)
    requires Members(names) == v.fields.Keys - {p[0].name} && Walks(v.fields[p[0].name], last)
    requires Wins(v.fields[p[0].name], Extend(prefix, p[0]), last, p[1..])
    ensures var o := InObject(names + [p[0].name], inner + [last]); Walks(v, o) && Wins(v, prefix, o, p)
  {
    var name := p[0].name;
    var o := InObject(names + [name], inner + [last]);
    NamesGrow(v, prefix, names, inner, name, last, map[]);
    assert Walks(v, o);
    forall before
      ensures FlattenIn(v, prefix, o, before)
              == FlattenIn(v.fields[name], Extend(prefix, p[0]), last, FieldsIn(v, prefix, names, inner, before))
    {
      NamesGrow(v, prefix, names, inner, name, last, before);
    }
  }

  ghost predicate ItemsWin(v: Value, prefix: string, inner: seq<Order>, p: Path)
    requires v.List? && WalksItems(v, inner) && At(v, p).Some?
  {
    forall before :: Render(prefix, p) in ItemsIn(v, prefix, inner, before)
                     && ItemsIn(v, prefix, inner, before)[Render(prefix, p)] == Format(At(v, p).value)
  }

  /** A list prints no key below two of its items, so the later ones do not overwrite. */
  lemma {:induction false} ItemWins(v: Value, prefix: string, p: Path, inner: seq<Order>, n: nat)
    requires v.List? && At(v, p).Some? && p[0].position < n == |inner| && WalksItems(v, inner)
    requires Wins(v.items[p[0].position], Extend(prefix, p[0]), inner[p[0].position], p[1..])
    ensures ItemsWin(v, prefix, inner, p)
    decreases n
  {
    hide ItemsWin, Wins, Render, Walks;
    if p[0].position < n - 1 {
      ItemWins(v, prefix, p, inner[..n - 1], n - 1);
      LaterItemKeeps(v, prefix, p, inner);
    } else {
      LastItemWins(v, prefix, p, inner);
    }
  }

  lemma LastItemWins(v: Value, prefix: string, p: Path, inner: seq<Order>)
    requires v.List? && At(v, p).Some? && p[0].position == |inner| - 1 && WalksItems(v, inner)
    requires Wins(v.items[p[0].position], Extend(prefix, p[0]), inner[p[0].position], p[1..])
    ensures ItemsWin(v, prefix, inner, p)
  {
    hide Walks, FlattenIn;
    var i := p[0].position;
    assert Render(prefix, p) == Render(Extend(prefix, p[0]), p[1..]);
    forall before
      ensures ItemsIn(v, prefix, inner, before)
              == FlattenIn(v.items[i], Extend(prefix, p[0]), inner[i], ItemsIn(v, prefix, inner[..i], before))
    {
    }
  }

  lemma LaterItemKeeps(v: Value, prefix: string, p: Path, inner: seq<Order>)
    requires v.List? && At(v, p).Some? && p[0].position < |inner| - 1 && WalksItems(v, inner)
    requires ItemsWin(v, prefix, inner[..|inner| - 1], p)
    ensures ItemsWin(v, prefix, inner, p)
  {
    hide Walks, FlattenIn, Render, Emits, EmitsKey;
    var n := |inner| - 1;
    OtherItemPrintsOtherKeys(v, prefix, p, n);
    forall before
      ensures Render(prefix, p) in ItemsIn(v, prefix, inner, before)
              && ItemsIn(v, prefix, inner, before)[Render(prefix, p)] == Format(At(v, p).value)
    {
      FlattenAdds(v.items[n], Extend(prefix, Index(n)), inner[n], ItemsIn(v, prefix, inner[..n], before));
    }
  }

  lemma OtherItemPrintsOtherKeys(v: Value, prefix: string, p: Path, j: nat)
    requires v.List? && At(v, p).Some? && j < |v.items| && p[0] != Index(j)
    ensures !EmitsKey(v.items[j], Extend(prefix, Index(j)), Render(prefix, p))
  {
    if EmitsKey(v.items[j], Extend(prefix, Index(j)), Render(prefix, p)) {
      var q :| At(v.items[j], q).Some? && Render(Extend(prefix, Index(j)), q) == Render(prefix, p);
      ItemKeyDetermines(prefix, p[0].position, p[1..], j, q);
    }
  }

  lemma ItemKeyDetermines(prefix: string, i: nat, p: Path, j: nat, q: Path)
    requires Render(Extend(prefix, Index(i)), p) == Render(Extend(prefix, Index(j)), q)
    ensures i == j
  {
    hide Suffix, Tail, Extend, Render;
    var s, t := Suffix(Index(i)), Suffix(Index(j));
    ExtendAppends(prefix, Index(i));
    ExtendAppends(prefix, Index(j));
    RenderIsTail(prefix + s, p);
    RenderIsTail(prefix + t, q);
    Strings.Associate(prefix, s, Tail(p));
    Strings.Associate(prefix, t, Tail(q));
    Strings.AfterPrefix(prefix, s + Tail(p), t + Tail(q));
    IndexSuffixDetermines(i, Tail(p), j, Tail(q));
  }

  // When the order does not matter.

  /** Every outcome is a flattening. */
  lemma EveryOrderFlattens(v: Value, o: Order)
    requires Walks(v, o)
    ensures Flattens(v, FlattenIn(v, "", o, map[]))
  {
    FlattenAdds(v, "", o, map[]);
  }

  /** All orders give the same map if and only if no key is printed for two texts. */
  lemma OrderIndependentExactly(v: Value)
    ensures (forall o, o' :: Walks(v, o) && Walks(v, o') ==> FlattenIn(v, "", o, map[]) == FlattenIn(v, "", o', map[]))
            <==> Unambiguous(v)
  {
    hide Walks, Flattens;
    if Unambiguous(v) {
      forall o, o' | Walks(v, o) && Walks(v, o')
        ensures FlattenIn(v, "", o, map[]) == FlattenIn(v, "", o', map[])
      {
        EveryOrderFlattens(v, o);
        EveryOrderFlattens(v, o');
        OnlyFlatteningExactly(v, FlattenIn(v, "", o, map[]));
      }
    } else {
      var p, q :| At(v, p).Some? && At(v, q).Some? && Render("", p) == Render("", q)
                  && Format(At(v, p).value) != Format(At(v, q).value);
      var o, o' := TwoOutcomes(v, p, q);
    }
  }

  lemma TwoOutcomes(v: Value, p: Path, q: Path) returns (o: Order, o': Order)
    requires At(v, p).Some? && At(v, q).Some? && Render("", p) == Render("", q)
    ensures Walks(v, o) && Walks(v, o')
    ensures var key := Render("", p); var m, m' := FlattenIn(v, "", o, map[]), FlattenIn(v, "", o', map[]);
            && key in m && m[key] == Format(At(v, p).value)
            && key in m' && m'[key] == Format(At(v, q).value)
  {
    o := LeafMayWin(v, "", p);
    o' := LeafMayWin(v, "", q);
  }

  /** A well-keyed document prints no key twice. */
  lemma WellKeyedIsUnambiguous(v: Value)
    requires WellKeyed(v)
    ensures Unambiguous(v)
  {
    forall p, q | At(v, p).Some? && At(v, q).Some? && Render("", p) == Render("", q)
      ensures p == q
    {
      LeafPathIsPlain(v, p);
      LeafPathIsPlain(v, q);
      RenderInjective(p, q);
    }
  }

  /** So its order of iteration does not matter. */
  lemma WellKeyedIsOrderIndependent(v: Value, o: Order, o': Order)
    requires WellKeyed(v) && Walks(v, o) && Walks(v, o')
    ensures FlattenIn(v, "", o, map[]) == FlattenIn(v, "", o', map[])
  {
    hide Walks, WellKeyed;
    WellKeyedIsUnambiguous(v);
    OrderIndependentExactly(v);
  }

  /** The entry of a leaf, in every order: its own text, a truth value or an absent one in Go's words. */
  lemma EntryCarriesText(v: Value, p: Path, o: Order)
    requires WellKeyed(v) && Walks(v, o) && At(v, p).Some?
    ensures var m, key := FlattenIn(v, "", o, map[]), Render("", p);
            key in m &&
            match At(v, p).value
            case Text(text) => m[key] == text
            case Number(printed) => m[key] == printed
            case Boolean(truth) => (m[key] == "true" <==> truth) && (m[key] == "false" <==> !truth)
            case Null => m[key] == ""
  {
    EveryOrderFlattens(v, o);
    FlatteningIsExact(v, FlattenIn(v, "", o, map[]));
  }

  /** A key with a dot beside a nested object: two orders, two results. */
  lemma DottedKeysGiveTwoResults(one: string, other: string) returns (o: Order, o': Order)
    ensures var v := Object(map["a.b" := Leaf(Text(one)), "a" := Object(map["b" := Leaf(Text(other))])]);
            && Walks(v, o) && Walks(v, o')
            && FlattenIn(v, "", o, map[]) == map["a.b" := one]
            && FlattenIn(v, "", o', map[]) == map["a.b" := other]
  {
    var v := Object(map["a.b" := Leaf(Text(one)), "a" := Object(map["b" := Leaf(Text(other))])]);
    hide Walks, FlattenIn, At, Render;
    var p, q := DottedPaths(one, other);
    o, o' := TwoOutcomes(v, p, q);
    forall key | EmitsKey(v, "", key)
      ensures key == "a.b"
    {
      var r :| At(v, r).Some? && Render("", r) == key;
      DottedLeaves(one, other, r);
    }
    FlattenAdds(v, "", o, map[]);
    FlattenAdds(v, "", o', map[]);
  }

  lemma DottedLeaves(one: string, other: string, r: Path)
    requires At(Object(map["a.b" := Leaf(Text(one)), "a" := Object(map["b" := Leaf(Text(other))])]), r).Some?
    ensures r == [Key("a.b")] || r == [Key("a"), Key("b")]
    ensures Render("", r) == "a.b"
  {
    var inner := Object(map["b" := Leaf(Text(other))]);
    var v := Object(map["a.b" := Leaf(Text(one)), "a" := inner]);
    var p, q := DottedPaths(one, other);
    assert r != [] && r[0].Key?;
    if r[0].name == "a.b" {
      assert At(Leaf(Text(one)), r[1..]).Some?;
      assert r == [r[0]] + r[1..] && r[1..] == [];
    } else {
      assert r[0].name == "a" && At(inner, r[1..]).Some?;
      assert r[1..] != [] && r[1..][0] == Key("b") && At(Leaf(Text(other)), r[1..][1..]).Some?;
      assert r == [r[0]] + ([r[1..][0]] + r[1..][1..]) && r[1..][1..] == [];
    }
  }
}
