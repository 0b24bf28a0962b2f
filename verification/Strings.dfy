/** The parts of Go's strings package the operator uses. */
module Strings {
  import opened Wrappers

  // strings.Split and its inverse.

  function Split(s: string, sep: char): (parts: seq<string>)
    ensures |parts| > 0
    ensures forall i :: 0 <= i < |parts| ==> sep !in parts[i]
  {
    if s == [] then [[]]
    else
      var rest := Split(s[1..], sep);
      if s[0] == sep then [[]] + rest else [[s[0]] + rest[0]] + rest[1..]
  }

  function Join(parts: seq<string>, sep: char): string
    requires |parts| > 0
  {
    if |parts| == 1 then parts[0] else parts[0] + [sep] + Join(parts[1..], sep)
  }

  lemma {:induction false} JoinSplit(s: string, sep: char)
    ensures Join(Split(s, sep), sep) == s
  {
    if s != [] {
      JoinSplit(s[1..], sep);
      var rest, parts := Split(s[1..], sep), Split(s, sep);
      if s[0] == sep {
        assert parts[1..] == rest;
      } else if |rest| > 1 {
        assert parts[1..] == rest[1..];
      }
      assert s == [s[0]] + s[1..];
    }
  }

  lemma {:induction false} SplitJoin(parts: seq<string>, sep: char)
    requires |parts| > 0 && forall i :: 0 <= i < |parts| ==> sep !in parts[i]
    ensures Split(Join(parts, sep), sep) == parts
  {
    if |parts| == 1 {
      SplitWhole(parts[0], sep);
    } else {
      SplitJoin(parts[1..], sep);
      SplitFirst(parts[0], Join(parts[1..], sep), sep);
      assert Join(parts, sep) == parts[0] + [sep] + Join(parts[1..], sep);
    }
  }

  lemma {:induction false} SplitWhole(s: string, sep: char)
    requires sep !in s
    ensures Split(s, sep) == [s]
  {
    if s != [] {
      SplitWhole(s[1..], sep);
      assert s[0] in s;
      assert [s[0]] + s[1..] == s;
    }
  }

  lemma {:induction false} SplitFirst(first: string, rest: string, sep: char)
    requires sep !in first
    ensures Split(first + [sep] + rest, sep) == [first] + Split(rest, sep)
  {
    var s := first + [sep] + rest;
    if first == [] {
      assert s[1..] == rest;
    } else {
      assert first[0] in first;
      assert s[1..] == first[1..] + [sep] + rest;
      SplitFirst(first[1..], rest, sep);
      assert [first[0]] + first[1..] == first;
    }
  }

  // strings.SplitN(s, sep, 2).

  function Cut(s: string, sep: char): Option<(string, string)> {
    if s == [] then None
    else if s[0] == sep then Some(([], s[1..]))
    else
      match Cut(s[1..], sep)
      case None => None
      case Some((before, after)) => Some(([s[0]] + before, after))
  }

  lemma {:induction false} CutAtFirst(before: string, after: string, sep: char)
    requires sep !in before
    ensures Cut(before + [sep] + after, sep) == Some((before, after))
  {
    var s := before + [sep] + after;
    if before == [] {
      assert s[1..] == after;
    } else {
      assert before[0] in before;
      assert s[1..] == before[1..] + [sep] + after;
      CutAtFirst(before[1..], after, sep);
      assert [before[0]] + before[1..] == before;
    }
  }

  lemma {:induction false} CutBeforeIsClean(s: string, sep: char)
    ensures Cut(s, sep).None? <==> sep !in s
    ensures Cut(s, sep).Some? ==> sep !in Cut(s, sep).value.0
  {
    if s != [] {
      CutBeforeIsClean(s[1..], sep);
      assert s == [s[0]] + s[1..];
    }
  }

  // The order of sort.Strings.

  predicate Before(a: string, b: string) {
    b != [] && (a == [] || a[0] < b[0] || (a[0] == b[0] && Before(a[1..], b[1..])))
  }

  lemma {:induction false} BeforeTotal(a: string, b: string)
    ensures a == b || Before(a, b) || Before(b, a)
  {
    if a != [] && b != [] && a[0] == b[0] {
      BeforeTotal(a[1..], b[1..]);
      assert a == [a[0]] + a[1..] && b == [b[0]] + b[1..];
    }
  }

  lemma {:induction false} BeforeIrreflexive(a: string)
    ensures !Before(a, a)
  {
    if a != [] {
      BeforeIrreflexive(a[1..]);
    }
  }

  lemma {:induction false} BeforeTransitive(a: string, b: string, c: string)
    requires Before(a, b) && Before(b, c)
    ensures Before(a, c)
  {
    if a != [] && a[0] == b[0] == c[0] {
      BeforeTransitive(a[1..], b[1..], c[1..]);
    }
  }

  /** A proper prefix comes first. */
  lemma {:induction false} PrefixIsBefore(s: string, rest: string)
    requires rest != []
    ensures Before(s, s + rest)
  {
    if s != [] {
      assert (s + rest)[1..] == s[1..] + rest;
      PrefixIsBefore(s[1..], rest);
    }
  }

  /** Otherwise the first character that differs decides. */
  lemma {:induction false} FirstDifferenceDecides(common: string, a: string, b: string)
    requires a != [] && b != [] && a[0] != b[0]
    ensures Before(common + a, common + b) <==> a[0] < b[0]
  {
    if common == [] {
      assert common + a == a && common + b == b;
    } else {
      assert (common + a)[1..] == common[1..] + a && (common + b)[1..] == common[1..] + b;
      FirstDifferenceDecides(common[1..], a, b);
    }
  }

  // The same from the other end.

  function CutLast(s: string, sep: char): Option<(string, string)> {
    if s == [] then None
    else
      var n := |s| - 1;
      if s[n] == sep then Some((s[..n], []))
      else
        match CutLast(s[..n], sep)
        case None => None
        case Some((before, after)) => Some((before, after + [s[n]]))
  }

  lemma {:induction false} CutLastAtLast(before: string, after: string, sep: char)
    requires sep !in after
    ensures CutLast(before + [sep] + after, sep) == Some((before, after))
  {
    var s := before + [sep] + after;
    var n := |s| - 1;
    if after == [] {
      assert s[..n] == before;
    } else {
      var m := |after| - 1;
      assert after[m] in after;
      assert s[..n] == before + [sep] + after[..m];
      CutLastAtLast(before, after[..m], sep);
      assert after[..m] + [after[m]] == after;
    }
  }

  lemma Associate(a: string, b: string, c: string)
    ensures (a + b) + c == a + (b + c)
  {
  }

  lemma AfterPrefix(prefix: string, s: string, t: string)
    requires prefix + s == prefix + t
    ensures s == t
  {
    assert s == (prefix + s)[|prefix|..] && t == (prefix + t)[|prefix|..];
  }

  /** A run of characters outside `stops`, up to a stop or the end, is determined by the whole text. */
  lemma SplitUnique(k: string, t: string, k': string, t': string, stops: set<char>)
    requires k + t == k' + t'
    requires forall i :: 0 <= i < |k| ==> k[i] !in stops
    requires forall i :: 0 <= i < |k'| ==> k'[i] !in stops
    requires (t == "" || t[0] in stops) && (t' == "" || t'[0] in stops)
    ensures k == k' && t == t'
  {
    var s := k + t;
    assert |k| < |s| ==> s[|k|] == t[0];
    assert |k'| < |s| ==> s[|k'|] == t'[0];
    assert forall i :: 0 <= i < |k| ==> s[i] == k[i];
    assert forall i :: 0 <= i < |k'| ==> s[i] == k'[i];
    assert k == s[..|k|] && t == s[|k|..];
    assert k' == s[..|k'|] && t' == s[|k'|..];
  }
}
