/** The printed path of a leaf determines the path, so a flattening has one entry a leaf. */
module PathEncoding {
  import opened Wrappers
  import opened Numerals
  import opened YamlTree
  import Strings

  const STOPS: set<char> := {'.', '['}

  /** A key the encoding can carry: not empty, without '.' and '['. */
  predicate Plain(name: string) {
    name != "" && forall i :: 0 <= i < |name| ==> name[i] !in STOPS
  }

  predicate PlainPath(p: Path) {
    forall i :: 0 <= i < |p| && p[i].Key? ==> Plain(p[i].name)
  }

  predicate WellKeyed(v: Value) {
    match v
    case Leaf(_) => true
    case Object(fields) => forall name :: name in fields ==> Plain(name) && WellKeyed(fields[name])
    case List(items) => forall i :: 0 <= i < |items| ==> WellKeyed(items[i])
  }

  lemma {:induction false} LeafPathIsPlain(v: Value, p: Path)
    requires WellKeyed(v) && At(v, p).Some?
    ensures PlainPath(p)
    decreases p
  {
    if p != [] {
      var child := if p[0].Key? then v.fields[p[0].name] else v.items[p[0].position];
      LeafPathIsPlain(child, p[1..]);
      assert p == [p[0]] + p[1..];
    }
  }

  /** What a segment adds after a non-empty prefix. */
  function Suffix(segment: Segment): (s: string)
    ensures s != "" && s[0] in STOPS
  {
    match segment
    case Key(name) => "." + name
    case Index(i) => "[" + Decimal(i) + "]"
  }

  function Tail(p: Path): (s: string)
    ensures s == "" || s[0] in STOPS
    ensures s == "" <==> p == []
  {
    if p == [] then "" else Suffix(p[0]) + Tail(p[1..])
  }

  lemma ExtendAppends(prefix: string, segment: Segment)
    ensures prefix != "" || segment.Index? ==> Extend(prefix, segment) == prefix + Suffix(segment)
  {
    match segment
    case Key(name) => Strings.Associate(prefix, ".", name);
    case Index(i) =>
      Strings.Associate(prefix, "[", Decimal(i));
      Strings.Associate(prefix, "[" + Decimal(i), "]");
  }

  lemma {:induction false} RenderIsTail(prefix: string, p: Path)
    requires prefix != ""
    ensures Render(prefix, p) == prefix + Tail(p)
    decreases |p|
  {
    if p == [] {
      assert prefix + "" == prefix;
    } else {
      ExtendAppends(prefix, p[0]);
      RenderIsTail(Extend(prefix, p[0]), p[1..]);
      Strings.Associate(prefix, Suffix(p[0]), Tail(p[1..]));
    }
  }

  lemma DecimalHasNoBracket(i: nat)
    ensures forall k :: 0 <= k < |Decimal(i)| ==> Decimal(i)[k] !in {']'}
  {
    assert forall k :: 0 <= k < |Decimal(i)| ==> IsDigit(Decimal(i)[k]);
  }

  lemma AfterFirst(first: string, s: string, t: string)
    requires |first| == 1 && first + s == first + t
    ensures s == t
  {
    assert s == (first + s)[1..] && t == (first + t)[1..];
  }

  lemma IndexSuffixAs(i: nat, t: string)
    ensures Suffix(Index(i)) + t == "[" + (Decimal(i) + ("]" + t))
  {
    Strings.Associate("[" + Decimal(i), "]", t);
    Strings.Associate("[", Decimal(i), "]" + t);
  }

  lemma KeySuffixDetermines(m: string, t: string, n: string, u: string)
    requires Plain(m) && Plain(n)
    requires (t == "" || t[0] in STOPS) && (u == "" || u[0] in STOPS)
    requires Suffix(Key(m)) + t == Suffix(Key(n)) + u
    ensures m == n && t == u
  {
    Strings.Associate(".", m, t);
    Strings.Associate(".", n, u);
    AfterFirst(".", m + t, n + u);
    Strings.SplitUnique(m, t, n, u, STOPS);
  }

  lemma IndexSuffixDetermines(i: nat, t: string, j: nat, u: string)
    requires Suffix(Index(i)) + t == Suffix(Index(j)) + u
    ensures i == j && t == u
  {
    IndexSuffixAs(i, t);
    IndexSuffixAs(j, u);
    AfterFirst("[", Decimal(i) + ("]" + t), Decimal(j) + ("]" + u));
    DecimalHasNoBracket(i);
    DecimalHasNoBracket(j);
    Strings.SplitUnique(Decimal(i), "]" + t, Decimal(j), "]" + u, {']'});
    DigitsInjective(i, j, Ten);
    AfterFirst("]", t, u);
  }

  /** The first segment and the rest can be read off a tail. */
  lemma TailHead(p: Path, q: Path)
    requires p != [] && q != [] && PlainPath(p) && PlainPath(q)
    requires Tail(p) == Tail(q)
    ensures p[0] == q[0] && Tail(p[1..]) == Tail(q[1..])
  {
    assert Suffix(p[0])[0] == Tail(p)[0] == Suffix(q[0])[0];
    if p[0].Key? && q[0].Key? {
      KeySuffixDetermines(p[0].name, Tail(p[1..]), q[0].name, Tail(q[1..]));
    } else if p[0].Index? && q[0].Index? {
      IndexSuffixDetermines(p[0].position, Tail(p[1..]), q[0].position, Tail(q[1..]));
    }
  }

  lemma {:induction false} TailInjective(p: Path, q: Path)
    requires PlainPath(p) && PlainPath(q) && Tail(p) == Tail(q)
    ensures p == q
    decreases |p|
  {
    if p != [] && q != [] {
      TailHead(p, q);
      TailInjective(p[1..], q[1..]);
      assert p == [p[0]] + p[1..] && q == [q[0]] + q[1..];
    }
  }

  /** A document path is its first key, if it starts with one, and a tail. */
  function Head(p: Path): string {
    if p != [] && p[0].Key? then p[0].name else ""
  }

  lemma RenderFromRoot(p: Path)
    requires PlainPath(p)
    ensures Render("", p) == Head(p) + Tail(if Head(p) != "" then p[1..] else p)
    ensures Head(p) == "" <==> p == [] || p[0].Index?
  {
    if p != [] {
      ExtendAppends("", p[0]);
      assert p[0].Index? ==> "" + Suffix(p[0]) == Suffix(p[0]);
      assert Extend("", p[0]) == if p[0].Key? then Head(p) else Suffix(p[0]);
      RenderIsTail(Extend("", p[0]), p[1..]);
      assert "" + Tail(p) == Tail(p);
    }
  }

  /** Distinct leaf paths of well-keyed documents print differently. */
  lemma RenderInjective(p: Path, q: Path)
    requires PlainPath(p) && PlainPath(q) && Render("", p) == Render("", q)
    ensures p == q
  {
    RenderFromRoot(p);
    RenderFromRoot(q);
    var tp := if Head(p) != "" then p[1..] else p;
    var tq := if Head(q) != "" then q[1..] else q;
    assert Plain(Head(p)) || Head(p) == "";
    assert Plain(Head(q)) || Head(q) == "";
    Strings.SplitUnique(Head(p), Tail(tp), Head(q), Tail(tq), STOPS);
    TailInjective(tp, tq);
    if Head(p) != "" {
      assert p == [p[0]] + p[1..] && q == [q[0]] + q[1..];
    }
  }

  // Consequences for flattening.

  /** In a well-keyed document every emitted key belongs to one leaf. */
  lemma EmittedOnce(v: Value, p: Path, key: string, text: string)
    requires WellKeyed(v) && At(v, p).Some? && Render("", p) == key
    ensures Emits(v, "", key, text) <==> text == Format(At(v, p).value)
  {
    forall q: Path | At(v, q).Some? && Render("", q) == key
      ensures q == p
    {
      LeafPathIsPlain(v, p);
      LeafPathIsPlain(v, q);
      RenderInjective(p, q);
    }
  }

  /** Entries and scalar leaves correspond one to one, and every entry carries its leaf's text. */
  ghost predicate OneEntryPerLeaf(v: Value, m: map<string, string>) {
    && (forall p :: At(v, p).Some? ==> Render("", p) in m && m[Render("", p)] == Format(At(v, p).value))
    && (forall key :: key in m ==> EmitsKey(v, "", key))
  }

  lemma FlatteningIsExact(v: Value, m: map<string, string>)
    requires WellKeyed(v)
    ensures Flattens(v, m) <==> OneEntryPerLeaf(v, m)
  {
    if Flattens(v, m) {
      forall p | At(v, p).Some?
        ensures Render("", p) in m && m[Render("", p)] == Format(At(v, p).value)
      {
        var key := Render("", p);
        assert EmitsKey(v, "", key);
        EmittedOnce(v, p, key, m[key]);
      }
      forall key | key in m
        ensures EmitsKey(v, "", key)
      {
      }
    }
    if OneEntryPerLeaf(v, m) {
      forall key
        ensures key in m <==> EmitsKey(v, "", key)
        ensures key in m ==> Emits(v, "", key, m[key])
      {
        if key in m {
          var p :| At(v, p).Some? && Render("", p) == key;
        }
      }
    }
  }

  /** The flattening does not depend on the order in which maps are walked. */
  lemma FlatteningIsUnique(v: Value, m: map<string, string>, m': map<string, string>)
    requires WellKeyed(v) && Flattens(v, m) && Flattens(v, m')
    ensures m == m'
  {
    FlatteningIsExact(v, m);
    FlatteningIsExact(v, m');
    SameEntries(v, m, m');
    SameEntries(v, m', m);
  }

  lemma SameEntries(v: Value, m: map<string, string>, m': map<string, string>)
    requires OneEntryPerLeaf(v, m) && OneEntryPerLeaf(v, m')
    ensures forall key :: key in m ==> key in m' && m'[key] == m[key]
  {
    forall key | key in m
      ensures key in m' && m'[key] == m[key]
    {
      var p :| At(v, p).Some? && Render("", p) == key;
    }
  }

  // Documents with other keys.

  /** Leaves that print the same key carry the same text. */
  ghost predicate Unambiguous(v: Value) {
    forall p, q :: At(v, p).Some? && At(v, q).Some? && Render("", p) == Render("", q) ==>
      Format(At(v, p).value) == Format(At(v, q).value)
  }

  /** Over all documents, one flattening is the only one exactly if no key is printed for two texts. */
  lemma OnlyFlatteningExactly(v: Value, m: map<string, string>)
    requires Flattens(v, m)
    ensures (forall m' :: Flattens(v, m') ==> m' == m) <==> Unambiguous(v)
  {
    hide At, Render, Format;
    if Unambiguous(v) {
      forall m' | Flattens(v, m')
        ensures m' == m
      {
        forall key
          ensures key in m <==> key in m'
          ensures key in m && key in m' ==> m[key] == m'[key]
        {
          assert key in m ==> Emits(v, "", key, m[key]);
          assert key in m' ==> Emits(v, "", key, m'[key]);
        }
      }
    } else {
      var p, q :| At(v, p).Some? && At(v, q).Some? && Render("", p) == Render("", q)
                  && Format(At(v, p).value) != Format(At(v, q).value);
      OtherLeafMayWin(v, m, p);
      OtherLeafMayWin(v, m, q);
      var key := Render("", p);
      assert m[key := Format(At(v, p).value)][key] != m[key := Format(At(v, q).value)][key];
    }
  }

  lemma OtherLeafMayWin(v: Value, m: map<string, string>, p: Path)
    requires Flattens(v, m) && At(v, p).Some?
    ensures Flattens(v, m[Render("", p) := Format(At(v, p).value)])
  {
    hide At, Render, Format;
    var winner := Render("", p);
    var m' := m[winner := Format(At(v, p).value)];
    assert EmitsKey(v, "", winner) && Emits(v, "", winner, m'[winner]);
    forall key
      ensures key in m' <==> EmitsKey(v, "", key)
      ensures key in m' ==> Emits(v, "", key, m'[key])
    {
      assert key in m ==> Emits(v, "", key, m[key]);
    }
  }

  /** The two leaves of a document with a dotted key that print alike. */
  lemma DottedPaths(one: string, other: string) returns (p: Path, q: Path)
    ensures var v := Object(map["a.b" := Leaf(Text(one)), "a" := Object(map["b" := Leaf(Text(other))])]);
            && p == [Key("a.b")] && q == [Key("a"), Key("b")]
            && At(v, p) == Some(Text(one)) && At(v, q) == Some(Text(other))
            && Render("", p) == "a.b" == Render("", q)
  {
    var inner := Object(map["b" := Leaf(Text(other))]);
    var v := Object(map["a.b" := Leaf(Text(one)), "a" := inner]);
    p, q := [Key("a.b")], [Key("a"), Key("b")];
    assert "a.b" != "a" by { assert |"a.b"| != |"a"|; }
    assert p[1..] == [] && q[1..] == [Key("b")] && q[1..][1..] == [];
    assert At(v, p) == Some(Text(one));
    assert At(inner, [Key("b")]) == Some(Text(other));
    assert At(v, q) == Some(Text(other));
    assert Render("", p) == Render("a.b", []) == "a.b";
    assert Extend("a", Key("b")) == "a" + "." + "b" == "a.b";
    assert Render("", q) == Render("a", [Key("b")]) == Render("a.b", []);
  }

  /** A dot inside a key is enough for two leaves to fight over one entry. */
  lemma DottedKeysCollide(one: string, other: string)
    requires one != other
    ensures !Unambiguous(Object(map["a.b" := Leaf(Text(one)), "a" := Object(map["b" := Leaf(Text(other))])]))
  {
    var p, q := DottedPaths(one, other);
  }
}
