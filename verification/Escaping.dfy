/** Escaping of values for `--set` (internal/values/cli.go). */
module Escaping {
  import opened Strings

  const SPECIAL: set<char> := {'\\', ',', '=', '[', ']'}

  /** strings.ReplaceAll for a pattern of one character. */
  function ReplaceAll(s: string, from: char, to: string): string {
    if s == [] then [] else (if s[0] == from then to else [s[0]]) + ReplaceAll(s[1..], from, to)
  }

  /** Five replacements, one after the other over the whole text. */
  function EscapeValue(value: string): string {
    var r1 := ReplaceAll(value, '\\', "\\\\");
    var r2 := ReplaceAll(r1, ',', "\\,");
    var r3 := ReplaceAll(r2, '=', "\\=");
    var r4 := ReplaceAll(r3, '[', "\\[");
    ReplaceAll(r4, ']', "\\]")
  }

  function EscapeChar(c: char): string {
    if c in SPECIAL then ['\\', c] else [c]
  }

  /** One pass from left to right. */
  function EscapeOnce(value: string): string {
    if value == [] then [] else EscapeChar(value[0]) + EscapeOnce(value[1..])
  }

  lemma {:induction false} ReplaceAllAppend(s: string, t: string, from: char, to: string)
    ensures ReplaceAll(s + t, from, to) == ReplaceAll(s, from, to) + ReplaceAll(t, from, to)
  {
    if s == [] {
      assert s + t == t;
    } else {
      assert (s + t)[1..] == s[1..] + t;
      ReplaceAllAppend(s[1..], t, from, to);
    }
  }

  lemma EscapeAppend(s: string, t: string)
    ensures EscapeValue(s + t) == EscapeValue(s) + EscapeValue(t)
  {
    var s1, t1 := ReplaceAll(s, '\\', "\\\\"), ReplaceAll(t, '\\', "\\\\");
    ReplaceAllAppend(s, t, '\\', "\\\\");
    var s2, t2 := ReplaceAll(s1, ',', "\\,"), ReplaceAll(t1, ',', "\\,");
    ReplaceAllAppend(s1, t1, ',', "\\,");
    var s3, t3 := ReplaceAll(s2, '=', "\\="), ReplaceAll(t2, '=', "\\=");
    ReplaceAllAppend(s2, t2, '=', "\\=");
    var s4, t4 := ReplaceAll(s3, '[', "\\["), ReplaceAll(t3, '[', "\\[");
    ReplaceAllAppend(s3, t3, '[', "\\[");
    ReplaceAllAppend(s4, t4, ']', "\\]");
  }

  lemma ReplaceOne(c: char, from: char, to: string)
    ensures ReplaceAll([c], from, to) == if c == from then to else [c]
  {
    assert [c][1..] == [];
  }

  lemma ReplaceTwo(a: char, b: char, from: char, to: string)
    requires a != from
    ensures ReplaceAll([a, b], from, to) == [a] + (if b == from then to else [b])
  {
    assert [a, b][1..] == [b];
    ReplaceOne(b, from, to);
  }

  /** The backslash goes first, so no replacement meets the work of another. */
  lemma EscapeOneChar(c: char)
    ensures EscapeValue([c]) == EscapeChar(c)
    ensures EscapeValue([c]) == if c == '\\' || c == ',' || c == '=' || c == '[' || c == ']' then ['\\', c] else [c]
  {
    ReplaceOne(c, '\\', "\\\\");
    ReplaceOne(c, ',', "\\,");
    ReplaceOne(c, '=', "\\=");
    ReplaceOne(c, '[', "\\[");
    ReplaceOne(c, ']', "\\]");
    if c in SPECIAL {
      ReplaceTwo('\\', c, ',', "\\,");
      ReplaceTwo('\\', c, '=', "\\=");
      ReplaceTwo('\\', c, '[', "\\[");
      ReplaceTwo('\\', c, ']', "\\]");
    }
  }

  /** The ordered replacements are one pass that puts a backslash before each special character. */
  lemma {:induction false} EscapeIsOnePass(value: string)
    ensures EscapeValue(value) == EscapeOnce(value)
  {
    if value != [] {
      assert value == [value[0]] + value[1..];
      EscapeAppend([value[0]], value[1..]);
      EscapeOneChar(value[0]);
      EscapeIsOnePass(value[1..]);
    }
  }

  /** What a reader of `--set` undoes: a backslash stands for the character after it. */
  function Unescape(s: string): string {
    if s == [] then []
    else if s[0] == '\\' && |s| > 1 then [s[1]] + Unescape(s[2..])
    else [s[0]] + Unescape(s[1..])
  }

  lemma {:induction false} UnescapeOnce(value: string)
    ensures Unescape(EscapeOnce(value)) == value
  {
    if value != [] {
      var rest := EscapeOnce(value[1..]);
      UnescapeOnce(value[1..]);
      assert value == [value[0]] + value[1..];
      if value[0] in SPECIAL {
        assert EscapeOnce(value)[2..] == rest;
      } else {
        assert EscapeOnce(value)[1..] == rest;
      }
    }
  }

  lemma UnescapeUndoesEscape(value: string)
    ensures Unescape(EscapeValue(value)) == value
  {
    EscapeIsOnePass(value);
    UnescapeOnce(value);
  }

  lemma EscapeInjective(value: string, other: string)
    requires EscapeValue(value) == EscapeValue(other)
    ensures value == other
  {
    UnescapeUndoesEscape(value);
    UnescapeUndoesEscape(other);
  }

  /** Split at the separators that no backslash precedes. */
  function SplitBare(s: string, sep: char): (parts: seq<string>)
    ensures parts != []
  {
    if s == [] then [[]]
    else if s[0] == '\\' && |s| > 1 then
      var rest := SplitBare(s[2..], sep);
      [s[..2] + rest[0]] + rest[1..]
    else if s[0] == sep then [[]] + SplitBare(s[1..], sep)
    else
      var rest := SplitBare(s[1..], sep);
      [s[..1] + rest[0]] + rest[1..]
  }

  lemma EscapedCharIsPassedOver(c: char, after: string, sep: char)
    requires sep in SPECIAL && sep != '\\'
    ensures var rest := SplitBare(after, sep);
            SplitBare(EscapeChar(c) + after, sep) == [EscapeChar(c) + rest[0]] + rest[1..]
  {
    var s := EscapeChar(c) + after;
    if c in SPECIAL {
      assert s[..2] == EscapeChar(c) && s[2..] == after;
    } else {
      assert s[..1] == EscapeChar(c) && s[1..] == after;
    }
  }

  /** An escaped value is passed over whole, whatever follows it. */
  lemma {:induction false} EscapedIsPassedOver(value: string, after: string, sep: char)
    requires sep in SPECIAL && sep != '\\'
    ensures var rest := SplitBare(after, sep);
            SplitBare(EscapeOnce(value) + after, sep) == [EscapeOnce(value) + rest[0]] + rest[1..]
  {
    hide SplitBare;
    var rest := SplitBare(after, sep);
    if value == [] {
      assert [] + after == after && [] + rest[0] == rest[0];
    } else {
      var c, tail := value[0], EscapeOnce(value[1..]);
      EscapedIsPassedOver(value[1..], after, sep);
      EscapedCharIsPassedOver(c, tail + after, sep);
      Associate(EscapeChar(c), tail, after);
      Associate(EscapeChar(c), tail, rest[0]);
    }
  }

  function EscapeAll(values: seq<string>): (escaped: seq<string>)
    ensures |escaped| == |values|
  {
    if values == [] then [] else [EscapeValue(values[0])] + EscapeAll(values[1..])
  }

  /** A backslash-aware scan of joined escaped values finds the joints and nothing else. */
  lemma {:induction false} EscapedListSplitsBack(values: seq<string>, sep: char)
    requires values != [] && sep in SPECIAL && sep != '\\'
    ensures SplitBare(Join(EscapeAll(values), sep), sep) == EscapeAll(values)
  {
    hide EscapeValue, EscapeOnce;
    var first, later := EscapeOnce(values[0]), EscapeAll(values[1..]);
    EscapeIsOnePass(values[0]);
    if |values| == 1 {
      EscapedIsPassedOver(values[0], [], sep);
      assert first + [] == first;
    } else {
      EscapedListSplitsBack(values[1..], sep);
      var after := [sep] + Join(later, sep);
      assert after[1..] == Join(later, sep);
      EscapedIsPassedOver(values[0], after, sep);
      Associate(first, [sep], Join(later, sep));
      assert EscapeAll(values)[1..] == later;
      assert first + [] == first;
    }
  }
}
