/** Last-wins merging of flat maps (internal/values/merge.go) and what it means for the documents. */
module Merging {
  import opened Wrappers
  import opened YamlTree
  import opened PathEncoding

  /** Later maps override earlier ones. */
  function Merged(maps: seq<map<string, string>>): map<string, string> {
    if maps == [] then map[] else Merged(maps[..|maps| - 1]) + maps[|maps| - 1]
  }

  /** Entries are copied one at a time, in whatever order the maps are walked. */
  method MergeMaps(maps: seq<map<string, string>>) returns (result: map<string, string>)
    ensures result == Merged(maps)
  {
    result := map[];
    for i := 0 to |maps|
      invariant result == Merged(maps[..i])
    {
      var todo := maps[i].Keys;
      ghost var before := result;
      while todo != {}
        invariant todo <= maps[i].Keys
        invariant result == before + (maps[i] - todo)
      {
        var k :| k in todo;
        result := result[k := maps[i][k]];
        todo := todo - {k};
      }
      assert maps[i] - {} == maps[i];
      assert maps[..i + 1][..i] == maps[..i];
    }
    assert maps[..|maps|] == maps;
  }

  /** A key's value comes from the last map that has the key. */
  lemma {:induction false} LastDefinitionWins(maps: seq<map<string, string>>, key: string)
    ensures key in Merged(maps) <==> exists i :: 0 <= i < |maps| && key in maps[i]
    ensures forall i :: 0 <= i < |maps| && key in maps[i] && (forall j :: i < j < |maps| ==> key !in maps[j])
                        ==> Merged(maps)[key] == maps[i][key]
  {
    if maps != [] {
      var n := |maps| - 1;
      LastDefinitionWins(maps[..n], key);
      assert forall i :: 0 <= i < n ==> maps[..n][i] == maps[i];
    }
  }

  // The same on documents.

  ghost predicate HasLeaf(v: Value) {
    exists p :: At(v, p).Some?
  }

  /** No branch is a scalar here and a container there, or an object here and a list there. */
  ghost predicate Mergeable(a: Value, b: Value)
    decreases a
  {
    !HasLeaf(a) || !HasLeaf(b) ||
    match (a, b)
    case (Leaf(_), Leaf(_)) => true
    case (Object(m), Object(n)) => forall name :: name in m && name in n ==> Mergeable(m[name], n[name])
    case (List(s), List(t)) => forall i :: 0 <= i < |s| && i < |t| ==> Mergeable(s[i], t[i])
    case _ => false
  }

  /** Key by key, item by item, the second document wins. */
  ghost function MergeTrees(a: Value, b: Value): Value
    decreases a
  {
    if !HasLeaf(b) then a
    else if !HasLeaf(a) then b
    else
      match (a, b)
      case (Object(m), Object(n)) =>
        Object(map name | name in m.Keys + n.Keys ::
                 if name in m then if name in n then MergeTrees(m[name], n[name]) else m[name] else n[name])
      case (List(s), List(t)) =>
        List(seq(if |s| < |t| then |t| else |s|, i requires 0 <= i =>
                   if i < |s| then if i < |t| then MergeTrees(s[i], t[i]) else s[i]
                   else if i < |t| then t[i] else b))
      case _ => b
  }

  lemma {:induction false} LeafOfMerge(a: Value, b: Value, p: Path)
    requires Mergeable(a, b)
    ensures At(MergeTrees(a, b), p) == if At(b, p).Some? then At(b, p) else At(a, p)
    decreases p
  {
    if HasLeaf(a) && HasLeaf(b) {
      if p != [] {
        match (a, b, p[0])
        case (Object(m), Object(n), Key(name)) =>
          if name in m && name in n {
            LeafOfMerge(m[name], n[name], p[1..]);
          }
        case (List(s), List(t), Index(i)) =>
          if i < |s| && i < |t| {
            LeafOfMerge(s[i], t[i], p[1..]);
          }
        case _ =>
      }
    }
  }

  lemma {:induction false} MergeIsWellKeyed(a: Value, b: Value)
    requires WellKeyed(a) && WellKeyed(b)
    ensures WellKeyed(MergeTrees(a, b))
    decreases a
  {
    if HasLeaf(a) && HasLeaf(b) {
      match (a, b)
      case (Object(m), Object(n)) =>
        forall name | name in m && name in n
          ensures WellKeyed(MergeTrees(m[name], n[name]))
        {
          MergeIsWellKeyed(m[name], n[name]);
        }
      case (List(s), List(t)) =>
        forall i | 0 <= i < |s| && i < |t|
          ensures WellKeyed(MergeTrees(s[i], t[i]))
        {
          MergeIsWellKeyed(s[i], t[i]);
        }
      case _ =>
    }
  }

  /** Two paths no single document can both end in leaves. */
  ghost predicate Clash(p: Path, q: Path)
    decreases p
  {
    if p == [] || q == [] then p != q
    else if p[0] == q[0] then Clash(p[1..], q[1..])
    else p[0].Key? != q[0].Key?
  }

  lemma {:induction false} OneDocumentNeverClashes(v: Value, p: Path, q: Path)
    requires At(v, p).Some? && At(v, q).Some?
    ensures !Clash(p, q)
    decreases p
  {
    if p != [] && q != [] && p[0] == q[0] {
      var child := if p[0].Key? then v.fields[p[0].name] else v.items[p[0].position];
      OneDocumentNeverClashes(child, p[1..], q[1..]);
    }
  }

  lemma {:induction false} UnmergeableClash(a: Value, b: Value) returns (p: Path, q: Path)
    requires !Mergeable(a, b)
    ensures At(a, p).Some? && At(b, q).Some? && Clash(p, q)
    decreases a
  {
    match (a, b)
    case (Object(m), Object(n)) =>
      var name :| name in m && name in n && !Mergeable(m[name], n[name]);
      var p', q' := UnmergeableClash(m[name], n[name]);
      p, q := [Key(name)] + p', [Key(name)] + q';
      assert p[1..] == p' && q[1..] == q';
    case (List(s), List(t)) =>
      var i :| 0 <= i < |s| && i < |t| && !Mergeable(s[i], t[i]);
      var p', q' := UnmergeableClash(s[i], t[i]);
      p, q := [Index(i)] + p', [Index(i)] + q';
      assert p[1..] == p' && q[1..] == q';
    case _ =>
      p :| At(a, p).Some?;
      q :| At(b, q).Some?;
  }

  /** Merging flat maps is merging documents first and flattening afterwards. */
  lemma MergeCommutesWithFlatten(a: Value, b: Value, ma: map<string, string>, mb: map<string, string>)
    requires WellKeyed(a) && WellKeyed(b) && Flattens(a, ma) && Flattens(b, mb)
    requires Mergeable(a, b)
    ensures Flattens(MergeTrees(a, b), ma + mb)
  {
    hide MergeTrees, Mergeable, WellKeyed, Flattens, OneEntryPerLeaf;
    var v, m := MergeTrees(a, b), ma + mb;
    MergeIsWellKeyed(a, b);
    FlatteningIsExact(a, ma);
    FlatteningIsExact(b, mb);
    assert OneEntryPerLeaf(v, m) by {
      MergedEntries(a, b, ma, mb);
    }
    FlatteningIsExact(v, m);
  }

  lemma MergedEntries(a: Value, b: Value, ma: map<string, string>, mb: map<string, string>)
    requires WellKeyed(a) && WellKeyed(b) && Mergeable(a, b)
    requires OneEntryPerLeaf(a, ma) && OneEntryPerLeaf(b, mb)
    ensures OneEntryPerLeaf(MergeTrees(a, b), ma + mb)
  {
    hide MergeTrees, Mergeable, WellKeyed, At, Render;
    var v, m := MergeTrees(a, b), ma + mb;
    forall p | At(v, p).Some?
      ensures Render("", p) in m && m[Render("", p)] == Format(At(v, p).value)
    {
      LeafOfMerge(a, b, p);
      if At(b, p).None? {
        OnlyInFirst(a, b, mb, p);
      }
    }
    forall key | key in m
      ensures EmitsKey(v, "", key)
    {
      var p :| (At(a, p).Some? || At(b, p).Some?) && Render("", p) == key;
      LeafOfMerge(a, b, p);
    }
  }

  lemma OnlyInFirst(a: Value, b: Value, mb: map<string, string>, p: Path)
    requires WellKeyed(a) && WellKeyed(b) && OneEntryPerLeaf(b, mb)
    requires At(a, p).Some? && At(b, p).None?
    ensures Render("", p) !in mb
  {
    if Render("", p) in mb {
      var q :| At(b, q).Some? && Render("", q) == Render("", p);
      LeafPathIsPlain(a, p);
      LeafPathIsPlain(b, q);
      RenderInjective(p, q);
    }
  }

  /** And a merged flat map is the flattening of some well-keyed document in no other case. */
  lemma FlatMergeIsADocumentExactly(a: Value, b: Value, ma: map<string, string>, mb: map<string, string>)
    requires WellKeyed(a) && WellKeyed(b) && Flattens(a, ma) && Flattens(b, mb)
    ensures (exists v :: WellKeyed(v) && Flattens(v, ma + mb)) <==> Mergeable(a, b)
  {
    if Mergeable(a, b) {
      MergeIsWellKeyed(a, b);
      MergeCommutesWithFlatten(a, b, ma, mb);
    } else if exists v :: WellKeyed(v) && Flattens(v, ma + mb) {
      var v :| WellKeyed(v) && Flattens(v, ma + mb);
      var p, q := UnmergeableClash(a, b);
      LeafSurvivesMerge(v, a, ma, ma + mb, p);
      LeafSurvivesMerge(v, b, mb, ma + mb, q);
      OneDocumentNeverClashes(v, p, q);
    }
  }

  lemma LeafSurvivesMerge(v: Value, a: Value, ma: map<string, string>, m: map<string, string>, p: Path)
    requires WellKeyed(v) && Flattens(v, m) && WellKeyed(a) && Flattens(a, ma)
    requires ma.Keys <= m.Keys && At(a, p).Some?
    ensures At(v, p).Some?
  {
    FlatteningIsExact(a, ma);
    FlatteningIsExact(v, m);
    var q :| At(v, q).Some? && Render("", q) == Render("", p);
    LeafPathIsPlain(a, p);
    LeafPathIsPlain(v, q);
    RenderInjective(p, q);
  }

  // Any number of documents.

  /** The documents of a list, merged from the first to the last. */
  ghost function MergeAll(docs: seq<Value>): Value {
    if docs == [] then Object(map[]) else MergeTrees(MergeAll(docs[..|docs| - 1]), docs[|docs| - 1])
  }

  ghost predicate PairwiseMergeable(docs: seq<Value>) {
    forall i, j :: 0 <= i < j < |docs| ==> Mergeable(docs[i], docs[j])
  }

  ghost predicate AllFlattened(docs: seq<Value>, maps: seq<map<string, string>>) {
    |docs| == |maps| && forall i :: 0 <= i < |docs| ==> WellKeyed(docs[i]) && Flattens(docs[i], maps[i])
  }

  lemma {:induction false} ClashIsUnmergeable(a: Value, b: Value, p: Path, q: Path)
    requires At(a, p).Some? && At(b, q).Some? && Clash(p, q)
    ensures !Mergeable(a, b)
    decreases p
  {
    if p != [] && q != [] && p[0] == q[0] {
      match p[0]
      case Key(name) => ClashIsUnmergeable(a.fields[name], b.fields[name], p[1..], q[1..]);
      case Index(i) => ClashIsUnmergeable(a.items[i], b.items[i], p[1..], q[1..]);
    }
  }

  /** What merges with each of the earlier documents merges with all of them together. */
  lemma {:induction false} LastIsMergeable(docs: seq<Value>)
    requires docs != [] && PairwiseMergeable(docs)
    ensures Mergeable(MergeAll(docs[..|docs| - 1]), docs[|docs| - 1])
    decreases |docs|, 0
  {
    var n := |docs| - 1;
    if !Mergeable(MergeAll(docs[..n]), docs[n]) {
      var p, q := UnmergeableClash(MergeAll(docs[..n]), docs[n]);
      var i := LeafOfMergeAll(docs[..n], p);
      ClashIsUnmergeable(docs[i], docs[n], p, q);
    }
  }

  /** Every leaf of the merge is one of some document's. */
  lemma {:induction false} LeafOfMergeAll(docs: seq<Value>, p: Path) returns (i: nat)
    requires PairwiseMergeable(docs) && At(MergeAll(docs), p).Some?
    ensures i < |docs| && At(docs[i], p).Some?
    decreases |docs|, 1
  {
    var n := |docs| - 1;
    LastIsMergeable(docs);
    LeafOfMerge(MergeAll(docs[..n]), docs[n], p);
    if At(docs[n], p).Some? {
      i := n;
    } else {
      i := LeafOfMergeAll(docs[..n], p);
    }
  }

  /** Merging any number of flat maps is merging their documents first. */
  lemma {:induction false} MergeAllCommutesWithFlatten(docs: seq<Value>, maps: seq<map<string, string>>)
    requires AllFlattened(docs, maps) && PairwiseMergeable(docs)
    ensures WellKeyed(MergeAll(docs)) && Flattens(MergeAll(docs), Merged(maps))
    decreases |docs|
  {
    hide MergeTrees, Mergeable, WellKeyed, Flattens;
    if docs == [] {
      NoDocument();
    } else {
      var n := |docs| - 1;
      MergeAllCommutesWithFlatten(docs[..n], maps[..n]);
      LastIsMergeable(docs);
      MergeIsWellKeyed(MergeAll(docs[..n]), docs[n]);
      MergeCommutesWithFlatten(MergeAll(docs[..n]), docs[n], Merged(maps[..n]), maps[n]);
    }
  }

  lemma NoDocument()
    ensures WellKeyed(Object(map[])) && Flattens(Object(map[]), map[])
  {
    forall key
      ensures !EmitsKey(Object(map[]), "", key)
    {
      ObjectEmits(map[], "", key);
    }
  }

  /** And the merged flat map is the flattening of some well-keyed document in no other case. */
  lemma FlatMergesAreADocumentExactly(docs: seq<Value>, maps: seq<map<string, string>>)
    requires AllFlattened(docs, maps)
    ensures (exists v :: WellKeyed(v) && Flattens(v, Merged(maps))) <==> PairwiseMergeable(docs)
  {
    hide Mergeable, WellKeyed, Flattens, Merged;
    if PairwiseMergeable(docs) {
      MergeAllCommutesWithFlatten(docs, maps);
    } else if exists v :: WellKeyed(v) && Flattens(v, Merged(maps)) {
      var v :| WellKeyed(v) && Flattens(v, Merged(maps));
      var i, j :| 0 <= i < j < |docs| && !Mergeable(docs[i], docs[j]);
      var p, q := UnmergeableClash(docs[i], docs[j]);
      forall k | k in {i, j}
        ensures maps[k].Keys <= Merged(maps).Keys
      {
        forall key | key in maps[k] {
          LastDefinitionWins(maps, key);
        }
      }
      LeafSurvivesMerge(v, docs[i], maps[i], Merged(maps), p);
      LeafSurvivesMerge(v, docs[j], maps[j], Merged(maps), q);
      OneDocumentNeverClashes(v, p, q);
    }
  }
}
