/** `--set` flags (internal/values/helpers.go) and their reading back (internal/testing/values.go). */
module SetFlags {
  import opened Wrappers
  import opened Strings
  import opened Escaping

  const SET: string := "--set"

  // Sorted keys.

  predicate Sorted(keys: seq<string>) {
    forall i, j :: 0 <= i < j < |keys| ==> Before(keys[i], keys[j])
  }

  /** The keys of a map in the order of sort.Strings. */
  ghost predicate SortedKeys(keys: seq<string>, m: map<string, string>) {
    Sorted(keys) && forall key :: key in m <==> key in keys
  }

  lemma NothingIsSorted()
    ensures Sorted([])
  {
  }

  /** There is only one such order. */
  lemma {:induction false} SortedKeysUnique(keys: seq<string>, other: seq<string>)
    requires Sorted(keys) && Sorted(other)
    requires forall key :: key in keys <==> key in other
    ensures keys == other
  {
    assert |keys| > 0 ==> keys[0] in other;
    assert |other| > 0 ==> other[0] in keys;
    if keys != [] {
      SameHead(keys, other);
      forall key
        ensures key in keys[1..] <==> key in other[1..]
      {
        NotInRest(keys, key);
        NotInRest(other, key);
      }
      SortedKeysUnique(keys[1..], other[1..]);
      assert keys == [keys[0]] + keys[1..] && other == [other[0]] + other[1..];
    }
  }

  lemma SameHead(keys: seq<string>, other: seq<string>)
    requires Sorted(keys) && Sorted(other) && keys != [] && other != []
    requires keys[0] in other && other[0] in keys
    ensures keys[0] == other[0]
  {
    var i :| 0 <= i < |other| && other[i] == keys[0];
    var j :| 0 <= j < |keys| && keys[j] == other[0];
    if i > 0 && j > 0 {
      BeforeTransitive(keys[0], other[0], keys[0]);
      BeforeIrreflexive(keys[0]);
    }
  }

  lemma NotInRest(keys: seq<string>, key: string)
    requires Sorted(keys) && keys != []
    ensures key in keys[1..] <==> key in keys && key != keys[0]
  {
    BeforeIrreflexive(keys[0]);
    assert keys == [keys[0]] + keys[1..];
  }

  /** Insertion of one key into sorted keys. */
  method InsertSorted(keys: seq<string>, key: string) returns (result: seq<string>)
    requires Sorted(keys) && key !in keys
    ensures Sorted(result) && forall k :: k in result <==> k in keys || k == key
  {
    hide Before;
    var i := 0;
    while i < |keys| && Before(keys[i], key)
      invariant 0 <= i <= |keys|
      invariant forall j :: 0 <= j < i ==> Before(keys[j], key)
    {
      i := i + 1;
    }
    if i < |keys| {
      BeforeTotal(keys[i], key);
      assert keys[i] in keys;
      forall j | i <= j < |keys|
        ensures Before(key, keys[j])
      {
        if i < j {
          BeforeTransitive(key, keys[i], keys[j]);
        }
      }
    }
    result := keys[..i] + [key] + keys[i..];
    assert keys == keys[..i] + keys[i..];
  }

  /** sort.Strings over the keys of a map, which come in no fixed order. */
  method CollectSortedKeys(m: map<string, string>) returns (keys: seq<string>)
    ensures SortedKeys(keys, m)
  {
    keys := [];
    var todo := m.Keys;
    while todo != {}
      invariant todo <= m.Keys && Sorted(keys)
      invariant forall key :: key in keys <==> key in m && key !in todo
    {
      var key :| key in todo;
      keys := InsertSorted(keys, key);
      todo := todo - {key};
    }
  }

  // The flags.

  function Pair(key: string, m: map<string, string>): string
    requires key in m
  {
    key + "=" + EscapeValue(m[key])
  }

  /** Two arguments a key. */
  function Flags(keys: seq<string>, m: map<string, string>): (flags: seq<string>)
    requires forall i :: 0 <= i < |keys| ==> keys[i] in m
    ensures |flags| == 2 * |keys|
  {
    if keys == [] then [] else [SET, Pair(keys[0], m)] + Flags(keys[1..], m)
  }

  lemma {:induction false} FlagsAlternate(keys: seq<string>, m: map<string, string>, i: nat)
    requires i < |keys| && forall i :: 0 <= i < |keys| ==> keys[i] in m
    ensures Flags(keys, m)[2 * i] == SET && Flags(keys, m)[2 * i + 1] == Pair(keys[i], m)
  {
    if i > 0 {
      FlagsAlternate(keys[1..], m, i - 1);
    }
  }

  method GenerateSetFlags(m: map<string, string>) returns (flags: seq<string>, ghost keys: seq<string>)
    ensures SortedKeys(keys, m) && flags == Flags(keys, m)
    ensures |flags| == 2 * |m|
    ensures forall other :: SortedKeys(other, m) ==> flags == Flags(other, m)
  {
    hide Sorted, Pair;
    if |m| == 0 {
      assert Sorted([]) by {
        NothingIsSorted();
      }
      NoOtherFlags(m, []);
      return [], [];
    }
    var sorted := CollectSortedKeys(m);
    keys := sorted;
    flags := [];
    for i := 0 to |sorted|
      invariant flags == Flags(sorted[..i], m)
    {
      flags := flags + [SET];
      flags := flags + [Pair(sorted[i], m)];
      FlagsAppend(sorted[..i], sorted[i], m);
      assert sorted[..i] + [sorted[i]] == sorted[..i + 1];
    }
    assert sorted[..|sorted|] == sorted;
    NoOtherFlags(m, sorted);
  }

  lemma NoOtherFlags(m: map<string, string>, keys: seq<string>)
    requires SortedKeys(keys, m)
    ensures |Flags(keys, m)| == 2 * |m|
    ensures forall other :: SortedKeys(other, m) ==> Flags(keys, m) == Flags(other, m)
  {
    hide Sorted, Flags;
    FlagsAreCanonical(m, keys, keys);
    forall other | SortedKeys(other, m)
      ensures Flags(keys, m) == Flags(other, m)
    {
      FlagsAreCanonical(m, keys, other);
    }
  }

  lemma {:induction false} FlagsAppend(keys: seq<string>, key: string, m: map<string, string>)
    requires key in m && forall i :: 0 <= i < |keys| ==> keys[i] in m
    ensures Flags(keys + [key], m) == Flags(keys, m) + [SET] + [Pair(key, m)]
  {
    hide Pair;
    if keys == [] {
      assert [key][1..] == [] && [] + [key] == [key];
    } else {
      assert (keys + [key])[1..] == keys[1..] + [key] && (keys + [key])[0] == keys[0];
      FlagsAppend(keys[1..], key, m);
    }
  }

  /** The same map gives the same flags, however it is walked. */
  lemma FlagsAreCanonical(m: map<string, string>, keys: seq<string>, other: seq<string>)
    requires SortedKeys(keys, m) && SortedKeys(other, m)
    ensures Flags(keys, m) == Flags(other, m)
    ensures |Flags(keys, m)| == 2 * |m|
    ensures |keys| == |m| && forall i :: 0 <= i < |m| ==>
              && Flags(keys, m)[2 * i] == "--set"
              && Flags(keys, m)[2 * i + 1] == keys[i] + "=" + EscapeValue(m[keys[i]])
  {
    SortedKeysUnique(keys, other);
    SortedKeysCount(keys, m.Keys);
    forall i | 0 <= i < |m|
      ensures Flags(keys, m)[2 * i] == SET && Flags(keys, m)[2 * i + 1] == Pair(keys[i], m)
    {
      FlagsAlternate(keys, m, i);
    }
  }

  lemma {:induction false} SortedKeysCount(keys: seq<string>, domain: set<string>)
    requires Sorted(keys) && forall key :: key in domain <==> key in keys
    ensures |keys| == |domain|
  {
    if keys == [] {
      assert domain == {};
    } else {
      forall key
        ensures key in domain - {keys[0]} <==> key in keys[1..]
      {
        NotInRest(keys, key);
      }
      SortedKeysCount(keys[1..], domain - {keys[0]});
    }
  }

  // Reading the flags back.

  /** What one `--set` argument adds. */
  function TakeArg(arg: string, found: map<string, string>): map<string, string> {
    match Cut(arg, '=')
    case None => found
    case Some((key, value)) => found[key := value]
  }

  function Extract(args: seq<string>, found: map<string, string>): map<string, string> {
    if args == [] then found
    else if args[0] == SET && |args| > 1 then Extract(args[2..], TakeArg(args[1], found))
    else Extract(args[1..], found)
  }

  /** The containers of a Job, each with its arguments. */
  method ExtractSetFlags(job: Option<seq<seq<string>>>) returns (result: map<string, string>)
    ensures result == if job.Some? && job.value != [] then Extract(job.value[0], map[]) else map[]
  {
    result := map[];
    if job.None? || |job.value| == 0 {
      return;
    }
    var args := job.value[0];
    var i := 0;
    while i < |args|
      invariant 0 <= i <= |args|
      invariant Extract(args[i..], result) == Extract(args, map[])
    {
      if args[i] == SET && i + 1 < |args| {
        assert args[i..][2..] == args[i + 2..];
        match Cut(args[i + 1], '=') {
          case Some((key, value)) => result := result[key := value];
          case None =>
        }
        i := i + 1;
      } else {
        assert args[i..][1..] == args[i + 1..];
      }
      i := i + 1;
    }
  }

  /** What the reading takes and what it passes over, argument by argument. */
  lemma ExtractReads(arg: string, key: string, value: string, rest: seq<string>, found: map<string, string>)
    ensures '=' !in key ==>
              Extract(["--set", key + "=" + value] + rest, found) == Extract(rest, found[key := value])
    ensures '=' !in arg ==> Extract(["--set", arg] + rest, found) == Extract(rest, found)
    ensures arg != "--set" ==> Extract([arg] + rest, found) == Extract(rest, found)
    ensures Extract(["--set"], found) == Extract([], found) == found
  {
    if '=' !in key {
      CutAtFirst(key, value, '=');
      assert key + "=" + value == key + ['='] + value;
      assert (["--set", key + "=" + value] + rest)[2..] == rest;
    }
    CutBeforeIsClean(arg, '=');
    assert (["--set", arg] + rest)[2..] == rest;
    assert ([arg] + rest)[1..] == rest;
    assert ["--set"][1..] == [];
  }

  lemma {:induction false} ExtractSkips(before: seq<string>, args: seq<string>, found: map<string, string>)
    requires SET !in before
    ensures Extract(before + args, found) == Extract(args, found)
  {
    if before == [] {
      assert before + args == args;
    } else {
      assert before[0] in before;
      assert (before + args)[1..] == before[1..] + args;
      ExtractSkips(before[1..], args, found);
    }
  }

  function EscapedValues(keys: seq<string>, m: map<string, string>): map<string, string>
    requires forall i :: 0 <= i < |keys| ==> keys[i] in m
  {
    map key | key in keys :: EscapeValue(m[key])
  }

  function UnescapedValues(m: map<string, string>): map<string, string> {
    map key | key in m :: Unescape(m[key])
  }

  lemma TakePair(key: string, m: map<string, string>, found: map<string, string>)
    requires key in m && '=' !in key
    ensures TakeArg(Pair(key, m), found) == found[key := EscapeValue(m[key])]
  {
    CutAtFirst(key, EscapeValue(m[key]), '=');
    assert Pair(key, m) == key + ['='] + EscapeValue(m[key]);
  }

  /** Keys without '=' come back with exactly their escaped values. */
  lemma {:induction false} FlagsExtractBack(keys: seq<string>, m: map<string, string>, found: map<string, string>)
    requires forall i :: 0 <= i < |keys| ==> keys[i] in m && '=' !in keys[i]
    ensures Extract(Flags(keys, m), found) == found + EscapedValues(keys, m)
  {
    hide EscapeValue, Pair, TakeArg;
    if keys != [] {
      TakePair(keys[0], m, found);
      ExtractPair(Pair(keys[0], m), Flags(keys[1..], m), found);
      FlagsExtractBack(keys[1..], m, found[keys[0] := EscapeValue(m[keys[0]])]);
      EscapedValuesStep(keys, m, found);
    }
  }

  lemma ExtractPair(arg: string, rest: seq<string>, found: map<string, string>)
    ensures Extract([SET, arg] + rest, found) == Extract(rest, TakeArg(arg, found))
  {
    assert ([SET, arg] + rest)[2..] == rest;
  }

  lemma EscapedValuesStep(keys: seq<string>, m: map<string, string>, found: map<string, string>)
    requires keys != [] && forall i :: 0 <= i < |keys| ==> keys[i] in m
    ensures found[keys[0] := EscapeValue(m[keys[0]])] + EscapedValues(keys[1..], m) == found + EscapedValues(keys, m)
  {
    hide EscapeValue;
    assert keys == [keys[0]] + keys[1..];
  }

  /** No key that is read back contains '='. */
  lemma {:induction false} ExtractedKeysAreCut(args: seq<string>, found: map<string, string>)
    requires forall key :: key in found ==> '=' !in key
    ensures forall key :: key in Extract(args, found) ==> '=' !in key
  {
    if args != [] {
      if args[0] == SET && |args| > 1 {
        CutBeforeIsClean(args[1], '=');
        ExtractedKeysAreCut(args[2..], TakeArg(args[1], found));
      } else {
        ExtractedKeysAreCut(args[1..], found);
      }
    }
  }

  /** Printing and reading back is the identity exactly on maps whose keys have no '='. */
  lemma ExtractUndoesGenerateExactly(before: seq<string>, keys: seq<string>, m: map<string, string>)
    requires SET !in before && SortedKeys(keys, m)
    ensures UnescapedValues(Extract(before + Flags(keys, m), map[])) == m
            <==> (forall key :: key in m ==> '=' !in key)
  {
    hide EscapeValue, Unescape, Extract;
    ExtractSkips(before, Flags(keys, m), map[]);
    if forall key :: key in m ==> '=' !in key {
      FlagsExtractBack(keys, m, map[]);
      forall key | key in m {
        UnescapeUndoesEscape(m[key]);
      }
      assert map[] + EscapedValues(keys, m) == EscapedValues(keys, m);
      assert UnescapedValues(EscapedValues(keys, m)) == m;
    } else {
      ExtractedKeysAreCut(Flags(keys, m), map[]);
      assert UnescapedValues(Extract(Flags(keys, m), map[])).Keys == Extract(Flags(keys, m), map[]).Keys;
    }
  }
}
