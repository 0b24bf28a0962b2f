/**
 * The inverse the repository's test helpers use (internal/testing/values.go): dotted keys are
 * split and put into nested maps, one key after the other in no fixed order.
 */
module Unflattening {
  import opened Wrappers
  import opened YamlTree
  import opened PathEncoding
  import opened Merging
  import opened Strings

  type Fields = map<string, Value>

  function Nested(fields: Fields, name: string): Fields {
    if name in fields && fields[name].Object? then fields[name].fields else map[]
  }

  /** One value put at the end of a chain of keys; whatever is in the way is replaced. */
  function Insert(fields: Fields, parts: seq<string>, text: string): Fields
    requires parts != []
    decreases |parts|
  {
    if |parts| == 1 then fields[parts[0] := Leaf(Text(text))]
    else fields[parts[0] := Object(Insert(Nested(fields, parts[0]), parts[1..], text))]
  }

  /** The keys of m, inserted in the order of `keys`. */
  function Build(keys: seq<string>, m: map<string, string>): Fields
    requires forall i :: 0 <= i < |keys| ==> keys[i] in m
  {
    if keys == [] then map[]
    else
      var last := keys[|keys| - 1];
      Insert(Build(keys[..|keys| - 1], m), Split(last, '.'), m[last])
  }

  function Keys(parts: seq<string>): Path {
    seq(|parts|, i requires 0 <= i < |parts| => Key(parts[i]))
  }

  /** Where the flat key goes. */
  function Place(key: string): Path {
    Keys(Split(key, '.'))
  }

  lemma KeysStep(parts: seq<string>)
    requires parts != []
    ensures Keys(parts)[0] == Key(parts[0]) && Keys(parts)[1..] == Keys(parts[1..])
  {
  }

  /** One path is a proper prefix of the other. */
  predicate Overlap(p: Path, q: Path) {
    p != q && (p <= q || q <= p)
  }

  predicate ListFree(v: Value) {
    match v
    case Leaf(_) => true
    case Object(fields) => forall name :: name in fields ==> ListFree(fields[name])
    case List(_) => false
  }

  /** The inserted leaf is there, what overlapped it is gone, and all other leaves are untouched. */
  lemma {:induction false} LeafOfInsert(fields: Fields, parts: seq<string>, text: string, q: Path)
    requires parts != [] && ListFree(Object(fields))
    ensures At(Object(Insert(fields, parts, text)), q) ==
            if q == Keys(parts) then Some(Text(text))
            else if Overlap(q, Keys(parts)) then None
            else At(Object(fields), q)
    decreases |parts|
  {
    KeysStep(parts);
    if q != [] && q[0] == Key(parts[0]) {
      if |parts| > 1 {
        LeafOfInsert(Nested(fields, parts[0]), parts[1..], text, q[1..]);
        PrefixOfTails(q, Keys(parts));
      } else {
        assert Keys(parts) == [Key(parts[0])];
        assert q == [q[0]] + q[1..];
      }
    }
  }

  lemma PrefixOfTails(p: Path, q: Path)
    requires p != [] && q != [] && p[0] == q[0]
    ensures p == q <==> p[1..] == q[1..]
    ensures p <= q <==> p[1..] <= q[1..]
    ensures q <= p <==> q[1..] <= p[1..]
  {
    assert p == [p[0]] + p[1..] && q == [q[0]] + q[1..];
  }

  // The shape of what comes out.

  /** Text leaves under dot-free keys, no lists, and nothing empty. */
  predicate Simple(v: Value) {
    match v
    case Leaf(scalar) => scalar.Text?
    case Object(fields) =>
      fields != map[] && forall name :: name in fields ==> '.' !in name && Simple(fields[name])
    case List(_) => false
  }

  predicate SimpleFields(fields: Fields) {
    forall name :: name in fields ==> '.' !in name && Simple(fields[name])
  }

  lemma {:induction false} SimpleIsListFree(v: Value)
    requires Simple(v)
    ensures ListFree(v)
  {
    if v.Object? {
      forall name | name in v.fields {
        SimpleIsListFree(v.fields[name]);
      }
    }
  }

  lemma SimpleFieldsAreListFree(fields: Fields)
    requires SimpleFields(fields)
    ensures ListFree(Object(fields))
  {
    forall name | name in fields {
      SimpleIsListFree(fields[name]);
    }
  }

  lemma {:induction false} InsertIsSimple(fields: Fields, parts: seq<string>, text: string)
    requires parts != [] && SimpleFields(fields)
    requires forall i :: 0 <= i < |parts| ==> '.' !in parts[i]
    ensures SimpleFields(Insert(fields, parts, text)) && parts[0] in Insert(fields, parts, text)
    decreases |parts|
  {
    if |parts| > 1 {
      InsertIsSimple(Nested(fields, parts[0]), parts[1..], text);
    }
  }

  predicate Dotted(key: string) {
    key != "" && key[0] == '.'
  }

  lemma {:induction false} BuildIsSimple(keys: seq<string>, m: map<string, string>)
    requires forall i :: 0 <= i < |keys| ==> keys[i] in m
    ensures SimpleFields(Build(keys, m))
    ensures (forall i :: 0 <= i < |keys| ==> !Dotted(keys[i])) ==>
              "" in Build(keys, m) ==> Build(keys, m)[""].Leaf?
  {
    if keys != [] {
      var earlier, last := keys[..|keys| - 1], keys[|keys| - 1];
      BuildIsSimple(earlier, m);
      InsertIsSimple(Build(earlier, m), Split(last, '.'), m[last]);
      FirstPart(last);
    }
  }

  lemma FirstPart(key: string)
    ensures Split(key, '.')[0] == "" && |Split(key, '.')| > 1 <==> Dotted(key)
  {
    JoinSplit(key, '.');
  }

  // Which leaves come out.

  /** Every leaf was put there for some key, with that key's text. */
  lemma {:induction false} BuiltLeaf(keys: seq<string>, m: map<string, string>, q: Path) returns (i: nat)
    requires forall i :: 0 <= i < |keys| ==> keys[i] in m
    requires At(Object(Build(keys, m)), q).Some?
    ensures i < |keys| && q == Place(keys[i])
    ensures At(Object(Build(keys, m)), q) == Some(Text(m[keys[i]]))
  {
    if keys == [] {
      assert false;
    } else {
      var earlier, last := keys[..|keys| - 1], keys[|keys| - 1];
      BuildIsSimple(earlier, m);
      SimpleFieldsAreListFree(Build(earlier, m));
      LeafOfInsert(Build(earlier, m), Split(last, '.'), m[last], q);
      if q == Place(last) {
        i := |keys| - 1;
      } else {
        i := BuiltLeaf(earlier, m, q);
      }
    }
  }

  lemma PlaceInjective(k: string, k': string)
    requires Place(k) == Place(k')
    ensures k == k'
  {
    var s, t := Split(k, '.'), Split(k', '.');
    assert |s| == |Place(k)| == |t|;
    forall i | 0 <= i < |s|
      ensures s[i] == t[i]
    {
      assert Place(k)[i] == Key(s[i]) && Place(k')[i] == Key(t[i]);
    }
    assert s == t;
    JoinSplit(k, '.');
    JoinSplit(k', '.');
  }

  /** Without overlaps no insertion order loses a leaf. */
  lemma {:induction false} LeafIsKept(keys: seq<string>, m: map<string, string>, i: nat)
    requires i < |keys| && forall i :: 0 <= i < |keys| ==> keys[i] in m
    requires forall i, j :: 0 <= i < |keys| && 0 <= j < |keys| ==> !Overlap(Place(keys[i]), Place(keys[j]))
    ensures At(Object(Build(keys, m)), Place(keys[i])) == Some(Text(m[keys[i]]))
  {
    var earlier, last := keys[..|keys| - 1], keys[|keys| - 1];
    BuildIsSimple(earlier, m);
    SimpleFieldsAreListFree(Build(earlier, m));
    LeafOfInsert(Build(earlier, m), Split(last, '.'), m[last], Place(keys[i]));
    if Place(keys[i]) == Place(last) {
      PlaceInjective(keys[i], last);
    } else {
      assert i < |earlier| && earlier[i] == keys[i];
      LeafIsKept(earlier, m, i);
    }
  }

  // Printing a place.

  lemma {:induction false} RenderKeys(prefix: string, parts: seq<string>)
    requires prefix != "" && parts != []
    ensures Render(prefix, Keys(parts)) == prefix + ['.'] + Join(parts, '.')
    decreases |parts|
  {
    KeysStep(parts);
    var next := prefix + "." + parts[0];
    assert Extend(prefix, Key(parts[0])) == next;
    if |parts| > 1 {
      RenderKeys(next, parts[1..]);
      var rest := Join(parts[1..], '.');
      assert next + ['.'] + rest == prefix + ['.'] + (parts[0] + ['.'] + rest);
    } else {
      assert Keys(parts)[1..] == [];
    }
  }

  lemma RenderFirstKeys(parts: seq<string>)
    requires parts != [] && (parts[0] != "" || |parts| == 1)
    ensures Render("", Keys(parts)) == Join(parts, '.')
  {
    KeysStep(parts);
    if |parts| > 1 {
      RenderKeys(parts[0], parts[1..]);
    } else {
      assert Keys(parts)[1..] == [];
    }
  }

  lemma RenderPlace(key: string)
    requires !Dotted(key)
    ensures Render("", Place(key)) == key
  {
    FirstPart(key);
    RenderFirstKeys(Split(key, '.'));
    JoinSplit(key, '.');
  }

  /** No key printed from dot-free segments begins with a dot. */
  lemma {:induction false} RenderIsNotDotted(prefix: string, p: Path)
    requires !Dotted(prefix)
    requires forall i :: 0 <= i < |p| && p[i].Key? ==> '.' !in p[i].name
    ensures !Dotted(Render(prefix, p))
    decreases |p|
  {
    if p != [] {
      assert !Dotted(Extend(prefix, p[0])) by {
        if p[0].Key? && p[0].name != "" {
          assert p[0].name[0] in p[0].name;
        }
      }
      RenderIsNotDotted(Extend(prefix, p[0]), p[1..]);
    }
  }

  lemma PlaceIsDotFree(key: string)
    ensures forall i :: 0 <= i < |Place(key)| && Place(key)[i].Key? ==> '.' !in Place(key)[i].name
  {
  }

  // The first round trip.

  /** Some order of insertion that leaves no key of m out. */
  ghost predicate Enumerates(keys: seq<string>, m: map<string, string>) {
    (forall i :: 0 <= i < |keys| ==> keys[i] in m) && (forall key :: key in m ==> key in keys)
  }

  /** No key begins with a dot, and no key's segments are the first segments of another's. */
  predicate Survives(m: map<string, string>) {
    && (forall key :: key in m ==> !Dotted(key))
    && (forall k, k' :: k in m && k' in m ==> !Overlap(Place(k), Place(k')))
  }

  lemma RoundTripWhenSurviving(keys: seq<string>, m: map<string, string>, flat: map<string, string>)
    requires Enumerates(keys, m) && Survives(m)
    requires Flattens(Object(Build(keys, m)), flat)
    ensures flat == m
  {
    var v := Object(Build(keys, m));
    forall key | key in flat
      ensures key in m && flat[key] == m[key]
    {
      assert EmitsKey(v, "", key);
      var p :| At(v, p).Some? && Render("", p) == key && Format(At(v, p).value) == flat[key];
      var i := BuiltLeaf(keys, m, p);
      RenderPlace(keys[i]);
    }
    forall key | key in m
      ensures key in flat
    {
      var i :| 0 <= i < |keys| && keys[i] == key;
      LeafIsKept(keys, m, i);
      RenderPlace(key);
      assert EmitsKey(v, "", key);
    }
  }

  lemma SurvivingWhenRoundTrip(keys: seq<string>, m: map<string, string>)
    requires Enumerates(keys, m)
    requires Flattens(Object(Build(keys, m)), m)
    ensures Survives(m)
  {
    var v := Object(Build(keys, m));
    forall key | key in m
      ensures !Dotted(key) && At(v, Place(key)).Some?
    {
      assert EmitsKey(v, "", key);
      var p :| At(v, p).Some? && Render("", p) == key;
      var i := BuiltLeaf(keys, m, p);
      PlaceIsDotFree(keys[i]);
      RenderIsNotDotted("", p);
      if Dotted(keys[i]) {
        DottedIsLost(keys, m, keys[i]);
      } else {
        RenderPlace(keys[i]);
      }
    }
    forall k, k' | k in m && k' in m
      ensures !Overlap(Place(k), Place(k'))
    {
      OneDocumentNeverClashes(v, Place(k), Place(k'));
      OverlapIsClash(Place(k), Place(k'));
    }
  }

  /** A key that begins with a dot is never printed back. */
  lemma DottedIsLost(keys: seq<string>, m: map<string, string>, key: string)
    requires Enumerates(keys, m) && key in m && Dotted(key)
    ensures !Flattens(Object(Build(keys, m)), m)
  {
    var v := Object(Build(keys, m));
    if EmitsKey(v, "", key) {
      var p :| At(v, p).Some? && Render("", p) == key;
      var i := BuiltLeaf(keys, m, p);
      PlaceIsDotFree(keys[i]);
      RenderIsNotDotted("", p);
    }
  }

  lemma {:induction false} OverlapIsClash(p: Path, q: Path)
    ensures Overlap(p, q) ==> Clash(p, q)
    decreases |p|
  {
    if p != [] && q != [] && p[0] == q[0] {
      PrefixOfTails(p, q);
      OverlapIsClash(p[1..], q[1..]);
    }
  }

  /** Flattening undoes unflattening, in every order, exactly on the maps whose keys survive. */
  lemma FlattenUndoesUnflattenExactly(keys: seq<string>, m: map<string, string>, flat: map<string, string>)
    requires Enumerates(keys, m)
    requires Flattens(Object(Build(keys, m)), flat)
    ensures flat == m <==> Survives(m)
  {
    if Survives(m) {
      RoundTripWhenSurviving(keys, m, flat);
    }
    if flat == m {
      SurvivingWhenRoundTrip(keys, m);
    }
  }

  // The second round trip.

  /** What a document must look like to come back. */
  predicate Recoverable(v: Value) {
    v.Object? && SimpleFields(v.fields) && ("" in v.fields ==> v.fields[""].Leaf?)
  }

  function Names(p: Path): seq<string>
    requires forall i :: 0 <= i < |p| ==> p[i].Key?
  {
    seq(|p|, i requires 0 <= i < |p| => p[i].name)
  }

  lemma {:induction false} SimpleLeaf(v: Value, p: Path)
    requires At(v, p).Some?
    requires Simple(v) || (v.Object? && SimpleFields(v.fields))
    ensures forall i :: 0 <= i < |p| ==> p[i].Key? && '.' !in p[i].name
    ensures At(v, p).value.Text?
    decreases p
  {
    if p != [] {
      SimpleLeaf(v.fields[p[0].name], p[1..]);
      assert p == [p[0]] + p[1..];
    }
  }

  /** In a recoverable document the printed key leads back to the leaf. */
  lemma LeafIsAtItsPlace(v: Value, p: Path)
    requires Recoverable(v) && At(v, p).Some?
    ensures Place(Render("", p)) == p
    ensures At(v, p) == Some(Text(Format(At(v, p).value)))
  {
    SimpleLeaf(v, p);
    assert p != [];
    var names := Names(p);
    assert p == Keys(names);
    assert names[0] == p[0].name && p[0].name in v.fields;
    if names[0] == "" {
      assert At(v.fields[""], p[1..]).Some?;
      assert p[1..] == [];
    }
    RenderFirstKeys(names);
    SplitJoin(names, '.');
  }

  lemma {:induction false} SimpleHasLeaf(v: Value) returns (p: Path)
    requires Simple(v)
    ensures At(v, p).Some?
    decreases v
  {
    if v.Leaf? {
      p := [];
    } else {
      var name :| name in v.fields;
      var p' := SimpleHasLeaf(v.fields[name]);
      p := [Key(name)] + p';
      assert p[1..] == p';
    }
  }

  /** Simple documents are determined by their leaves. */
  lemma {:induction false} SameLeavesSameFields(f: Fields, g: Fields)
    requires SimpleFields(f) && SimpleFields(g)
    requires forall p :: At(Object(f), p) == At(Object(g), p)
    ensures f == g
    decreases Object(f)
  {
    FieldsIncluded(f, g);
    FieldsIncluded(g, f);
    forall name | name in f
      ensures f[name] == g[name]
    {
      forall p: Path
        ensures At(f[name], p) == At(g[name], p)
      {
        assert ([Key(name)] + p)[1..] == p;
        assert At(Object(f), [Key(name)] + p) == At(Object(g), [Key(name)] + p);
      }
      if f[name].Leaf? {
        assert At(f[name], []).Some?;
      } else {
        assert At(f[name], []).None?;
        SameLeavesSameFields(f[name].fields, g[name].fields);
      }
    }
  }

  lemma FieldsIncluded(f: Fields, g: Fields)
    requires SimpleFields(f)
    requires forall p :: At(Object(f), p) == At(Object(g), p)
    ensures f.Keys <= g.Keys
  {
    forall name | name in f
      ensures name in g
    {
      var p := SimpleHasLeaf(f[name]);
      assert ([Key(name)] + p)[1..] == p;
      assert At(Object(f), [Key(name)] + p).Some?;
    }
  }

  lemma RecoveredWhenRecoverable(v: Value, flat: map<string, string>, keys: seq<string>)
    requires Flattens(v, flat) && Enumerates(keys, flat) && Recoverable(v)
    ensures Object(Build(keys, flat)) == v
  {
    forall key | key in flat
      ensures At(v, Place(key)) == Some(Text(flat[key]))
    {
      assert EmitsKey(v, "", key);
      var p :| At(v, p).Some? && Render("", p) == key && Format(At(v, p).value) == flat[key];
      LeafIsAtItsPlace(v, p);
    }
    forall k, k' | k in flat && k' in flat
      ensures !Overlap(Place(k), Place(k'))
    {
      OneDocumentNeverClashes(v, Place(k), Place(k'));
      OverlapIsClash(Place(k), Place(k'));
    }
    var built := Object(Build(keys, flat));
    forall p
      ensures At(built, p) == At(v, p)
    {
      if At(built, p).Some? {
        var i := BuiltLeaf(keys, flat, p);
      } else if At(v, p).Some? {
        LeafIsAtItsPlace(v, p);
        var key := Render("", p);
        assert EmitsKey(v, "", key);
        var i :| 0 <= i < |keys| && keys[i] == key;
        LeafIsKept(keys, flat, i);
      }
    }
    BuildIsSimple(keys, flat);
    SameLeavesSameFields(Build(keys, flat), v.fields);
  }

  lemma RecoverableWhenRecovered(flat: map<string, string>, keys: seq<string>)
    requires Enumerates(keys, flat) && Flattens(Object(Build(keys, flat)), flat)
    ensures Recoverable(Object(Build(keys, flat)))
  {
    BuildIsSimple(keys, flat);
    SurvivingWhenRoundTrip(keys, flat);
  }

  /** Unflattening undoes flattening, in every order of both, exactly on the recoverable documents. */
  lemma UnflattenUndoesFlattenExactly(v: Value, flat: map<string, string>, keys: seq<string>)
    requires Flattens(v, flat) && Enumerates(keys, flat)
    ensures Object(Build(keys, flat)) == v <==> Recoverable(v)
  {
    if Recoverable(v) {
      RecoveredWhenRecoverable(v, flat, keys);
    }
    if Object(Build(keys, flat)) == v {
      RecoverableWhenRecovered(flat, keys);
    }
  }
}
