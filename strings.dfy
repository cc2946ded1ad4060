/**
 * The parts of Go's `strings` package that the grant code relies on:
 * Join, Split on a one-character separator, Trim with a cut set,
 * ToUpper / ToLower (ASCII letters only), HasPrefix / HasSuffix,
 * plus the literal removal of spaces and back-ticks done with the
 * regular expression "[ `]".
 */
module Strings {

  /** strings.Join */
  function Join(parts: seq<string>, sep: string): string
  {
    if |parts| == 0 then ""
    else if |parts| == 1 then parts[0]
    else parts[0] + sep + Join(parts[1..], sep)
  }

  /** Number of occurrences of `c` in `s`. */
  function Count(s: string, c: char): nat
  {
    if s == [] then 0 else (if s[0] == c then 1 else 0) + Count(s[1..], c)
  }

  /** strings.Split with a one-character separator: n separators give n + 1 fields. */
  function Split(s: string, sep: char): (fields: seq<string>)
    ensures |fields| == Count(s, sep) + 1
    ensures forall i :: 0 <= i < |fields| ==> sep !in fields[i]
    ensures forall i, ch :: 0 <= i < |fields| && ch in fields[i] ==> ch in s
  {
    if s == [] then [""]
    else
      var rest := Split(s[1..], sep);
      assert forall ch :: ch in s[1..] ==> ch in s;
      if s[0] == sep then [""] + rest
      else [[s[0]] + rest[0]] + rest[1..]
  }

  lemma {:induction false} SplitAppend(a: string, b: string, c: char)
    requires c !in a
    ensures Split(a + [c] + b, c) == [a] + Split(b, c)
  {
    if a == [] {
      assert a + [c] + b == [c] + b;
      assert ([c] + b)[1..] == b;
    } else {
      assert (a + [c] + b)[1..] == a[1..] + [c] + b;
      SplitAppend(a[1..], b, c);
      assert [a[0]] + a[1..] == a;
    }
  }

  lemma {:induction false} SplitWithoutSeparator(s: string, c: char)
    requires c !in s
    ensures Split(s, c) == [s]
  {
    if s != [] {
      SplitWithoutSeparator(s[1..], c);
      assert [s[0]] + s[1..] == s;
    }
  }

  /** Splitting a join undoes it when no part holds the separator. */
  lemma {:induction false} SplitJoin(parts: seq<string>, c: char)
    requires |parts| > 0
    requires forall i :: 0 <= i < |parts| ==> c !in parts[i]
    ensures Split(Join(parts, [c]), c) == parts
  {
    if |parts| == 1 {
      SplitWithoutSeparator(parts[0], c);
    } else {
      SplitJoin(parts[1..], c);
      SplitAppend(parts[0], Join(parts[1..], [c]), c);
      assert [parts[0]] + parts[1..] == parts;
    }
  }

  /** Every character of a join comes from the separator or from one of the parts. */
  lemma {:induction false} JoinChars(parts: seq<string>, sep: string, ch: char)
    requires ch in Join(parts, sep)
    ensures ch in sep || exists i :: 0 <= i < |parts| && ch in parts[i]
  {
    if |parts| > 1 {
      var rest := Join(parts[1..], sep);
      if ch !in parts[0] && ch !in sep {
        assert ch in rest;
        JoinChars(parts[1..], sep, ch);
        var i :| 0 <= i < |parts[1..]| && ch in parts[1..][i];
        assert ch in parts[i + 1];
      }
    }
  }

  /** Position of the first `c` in `s`, or |s| when there is none (strings.IndexByte). */
  function IndexOf(s: string, c: char): (k: nat)
    ensures k <= |s|
    ensures k < |s| ==> s[k] == c
    ensures forall j :: 0 <= j < k ==> s[j] != c
  {
    if s == [] then 0 else if s[0] == c then 0 else 1 + IndexOf(s[1..], c)
  }

  lemma IndexOfFirst(x: string, rest: string, c: char)
    requires c !in x
    ensures IndexOf(x + [c] + rest, c) == |x|
  {
    var s := x + [c] + rest;
    assert s[|x|] == c;
    assert forall j :: 0 <= j < |x| ==> s[j] == x[j];
  }

  /** A string cut at the first occurrence of a character that the first part lacks is cut in one place only. */
  lemma CutAtFirst(x: string, r1: string, y: string, r2: string, c: char)
    requires c !in x && c !in y
    requires x + [c] + r1 == y + [c] + r2
    ensures x == y && r1 == r2
  {
    var s := x + [c] + r1;
    IndexOfFirst(x, r1, c);
    IndexOfFirst(y, r2, c);
    assert x == s[..|x|] && y == s[..|y|];
    assert r1 == s[|x| + 1..] && r2 == s[|y| + 1..];
  }

  /** strings.Trim: drop leading and trailing characters that are in `cutset`. */
  function TrimLeft(s: string, cutset: string): string
  {
    if s != [] && s[0] in cutset then TrimLeft(s[1..], cutset) else s
  }

  function TrimRight(s: string, cutset: string): string
  {
    if s != [] && s[|s| - 1] in cutset then TrimRight(s[..|s| - 1], cutset) else s
  }

  function Trim(s: string, cutset: string): string
  {
    TrimRight(TrimLeft(s, cutset), cutset)
  }

  lemma {:induction false} TrimLeftChars(s: string, cutset: string)
    ensures forall ch :: ch in TrimLeft(s, cutset) ==> ch in s
  {
    if s != [] && s[0] in cutset {
      TrimLeftChars(s[1..], cutset);
    }
  }

  lemma {:induction false} TrimRightChars(s: string, cutset: string)
    ensures forall ch :: ch in TrimRight(s, cutset) ==> ch in s
  {
    if s != [] && s[|s| - 1] in cutset {
      TrimRightChars(s[..|s| - 1], cutset);
    }
  }

  /** Trimming only removes characters. */
  lemma TrimChars(s: string, cutset: string)
    ensures forall ch :: ch in Trim(s, cutset) ==> ch in s
  {
    TrimLeftChars(s, cutset);
    TrimRightChars(TrimLeft(s, cutset), cutset);
  }

  /** Trimming a string that holds no character of the cut set leaves it unchanged. */
  lemma TrimNothingToCut(s: string, cutset: string)
    requires forall ch :: ch in s ==> ch !in cutset
    ensures Trim(s, cutset) == s
  {
  }

  /** Neither end of the string is a character of the cut set. */
  predicate TrimmedBy(s: string, cutset: string)
  {
    s == [] || (s[0] !in cutset && s[|s| - 1] !in cutset)
  }

  /** Trimming a string whose ends are not in the cut set leaves it unchanged. */
  lemma TrimOfTrimmed(s: string, cutset: string)
    requires TrimmedBy(s, cutset)
    ensures Trim(s, cutset) == s
  {
    assert TrimLeft(s, cutset) == s;
  }

  lemma {:induction false} TrimLeftStops(s: string, cutset: string)
    ensures var t := TrimLeft(s, cutset); t == [] || t[0] !in cutset
  {
    if s != [] && s[0] in cutset {
      TrimLeftStops(s[1..], cutset);
    }
  }

  lemma {:induction false} TrimRightStops(s: string, cutset: string)
    ensures var t := TrimRight(s, cutset);
      |t| <= |s| && t == s[..|t|] && (t == [] || t[|t| - 1] !in cutset)
  {
    if s != [] && s[|s| - 1] in cutset {
      var init := s[..|s| - 1];
      TrimRightStops(init, cutset);
      var t := TrimRight(init, cutset);
      assert init[..|t|] == s[..|t|];
    }
  }

  /** Whatever the input, a trimmed string has neither end in the cut set. */
  lemma TrimIsTrimmed(s: string, cutset: string)
    ensures TrimmedBy(Trim(s, cutset), cutset)
  {
    var t := TrimLeft(s, cutset);
    TrimLeftStops(s, cutset);
    TrimRightStops(t, cutset);
    var u := TrimRight(t, cutset);
    if u != [] {
      assert u[0] == t[0];
    }
  }

  /** Trimming keeps every character that is not in the cut set. */
  lemma TrimKeeps(s: string, cutset: string, ch: char)
    requires ch in s && ch !in cutset
    ensures ch in Trim(s, cutset)
  {
    TrimLeftKeeps(s, cutset, ch);
    TrimRightKeeps(TrimLeft(s, cutset), cutset, ch);
  }

  lemma {:induction false} TrimLeftKeeps(s: string, cutset: string, ch: char)
    requires ch in s && ch !in cutset
    ensures ch in TrimLeft(s, cutset)
  {
    if s[0] in cutset {
      assert ch in s[1..] by { assert s == [s[0]] + s[1..]; }
      TrimLeftKeeps(s[1..], cutset, ch);
    }
  }

  lemma {:induction false} TrimRightKeeps(s: string, cutset: string, ch: char)
    requires ch in s && ch !in cutset
    ensures ch in TrimRight(s, cutset)
  {
    if s[|s| - 1] in cutset {
      assert ch in s[..|s| - 1] by { assert s == s[..|s| - 1] + [s[|s| - 1]]; }
      TrimRightKeeps(s[..|s| - 1], cutset, ch);
    }
  }

  /** Trimming a name wrapped in one cut character gives the name back when it holds none. */
  lemma TrimWrapped(x: string, c: char, cutset: string)
    requires c in cutset
    requires forall ch :: ch in x ==> ch !in cutset
    ensures Trim([c] + x + [c], cutset) == x
  {
    var w := [c] + x + [c];
    assert w[1..] == x + [c];
    if x == [] {
      assert TrimLeft([c], cutset) == TrimLeft([], cutset);
    } else {
      assert x[0] in x;
      assert (x + [c])[0] == x[0];
      assert TrimLeft(w, cutset) == x + [c];
      assert (x + [c])[..|x|] == x;
      assert TrimRight(x + [c], cutset) == TrimRight(x, cutset);
      assert x[|x| - 1] in x;
      assert TrimRight(x, cutset) == x;
    }
  }

  function HasPrefix(s: string, prefix: string): bool
  {
    |prefix| <= |s| && s[..|prefix|] == prefix
  }

  function HasSuffix(s: string, suffix: string): bool
  {
    |suffix| <= |s| && s[|s| - |suffix|..] == suffix
  }

  /** A string begins with its first part and ends with its last. */
  lemma ConcatEnds(a: string, b: string)
    ensures HasPrefix(a + b, a) && HasSuffix(a + b, b)
  {
    assert (a + b)[..|a|] == a;
    assert (a + b)[|a|..] == b;
  }

  /** unicode.ToUpper / unicode.ToLower restricted to ASCII letters. */
  function UpperChar(c: char): char
  {
    if 'a' <= c <= 'z' then (c as int - 32) as char else c
  }

  function LowerChar(c: char): char
  {
    if 'A' <= c <= 'Z' then (c as int + 32) as char else c
  }

  function ToUpper(s: string): string
  {
    seq(|s|, i requires 0 <= i < |s| => UpperChar(s[i]))
  }

  function ToLower(s: string): string
  {
    seq(|s|, i requires 0 <= i < |s| => LowerChar(s[i]))
  }

  /** A string that ToUpper leaves as it is. */
  predicate IsUpper(s: string)
  {
    forall ch :: ch in s ==> UpperChar(ch) == ch
  }

  lemma UpperIsUpper(s: string)
    ensures IsUpper(ToUpper(s))
  {
    forall ch | ch in ToUpper(s) ensures UpperChar(ch) == ch {
      var i :| 0 <= i < |s| && ToUpper(s)[i] == ch;
    }
  }

  lemma ToUpperOfUpper(s: string)
    requires IsUpper(s)
    ensures ToUpper(s) == s
  {
    forall i | 0 <= i < |s| ensures ToUpper(s)[i] == s[i] {
      assert s[i] in s;
    }
  }

  /** The regular-expression replacement "[ `]" -> "": drop every space and back-tick. */
  function WithoutSpacesOrBackticks(s: string): string
  {
    if s == [] then []
    else (if s[0] == ' ' || s[0] == '`' then [] else [s[0]]) + WithoutSpacesOrBackticks(s[1..])
  }

  /** A string holding no space and no back-tick. */
  predicate Compact(s: string)
  {
    ' ' !in s && '`' !in s
  }

  lemma {:induction false} WithoutSpacesOrBackticksConcat(a: string, b: string)
    ensures WithoutSpacesOrBackticks(a + b) == WithoutSpacesOrBackticks(a) + WithoutSpacesOrBackticks(b)
  {
    if a == [] {
      assert a + b == b;
    } else {
      assert (a + b)[1..] == a[1..] + b;
      WithoutSpacesOrBackticksConcat(a[1..], b);
    }
  }

  lemma {:induction false} WithoutSpacesOrBackticksIsCompact(s: string)
    ensures Compact(WithoutSpacesOrBackticks(s))
    ensures forall ch :: ch in WithoutSpacesOrBackticks(s) ==> ch in s
  {
    if s != [] {
      WithoutSpacesOrBackticksIsCompact(s[1..]);
    }
  }

  lemma {:induction false} WithoutSpacesOrBackticksOfCompact(s: string)
    requires Compact(s)
    ensures WithoutSpacesOrBackticks(s) == s
  {
    if s != [] {
      assert s[0] in s;
      assert forall ch :: ch in s[1..] ==> ch in s;
      WithoutSpacesOrBackticksOfCompact(s[1..]);
      assert [s[0]] + s[1..] == s;
    }
  }

  lemma UpperPreservesCompact(s: string)
    requires Compact(s)
    ensures Compact(ToUpper(s))
  {
    forall i | 0 <= i < |s| ensures ToUpper(s)[i] != ' ' && ToUpper(s)[i] != '`' {
      assert s[i] in s;
    }
  }
}
