/**
 * The privilege canonicaliser of mysql/resource_grant.go: the tokenizer
 * extractPermTypes, and normalizePerms with its helpers normalizeColumnOrder
 * and removeUselessPerms.
 */
module Privileges {
  import opened Wrappers
  import opened Strings
  import opened Sorting

  // ---------------------------------------------------------------------------
  // extractPermTypes
  // ---------------------------------------------------------------------------

  /** unicode.IsSpace: the Latin-1 spaces plus the other Unicode White_Space code points. */
  predicate IsSpace(c: char)
  {
    c == '\t' || c == '\n' || c == '\U{B}' || c == '\U{C}' || c == '\r' || c == ' '
    || c == '\U{85}' || c == '\U{A0}' || c == '\U{1680}'
    || ('\U{2000}' <= c <= '\U{200A}') || c == '\U{2028}' || c == '\U{2029}' || c == '\U{202F}'
    || c == '\U{205F}' || c == '\U{3000}'
  }

  /** The tokenizer's single parenthesis flag: '(' sets it, ')' clears it, nothing nests. */
  function NextInParentheses(inParentheses: bool, c: char): bool
  {
    if c == '(' then true else if c == ')' then false else inParentheses
  }

  /** Commas met while the flag is clear, starting from flag `inParentheses`. */
  function TopLevelCommas(g: string, inParentheses: bool): nat
  {
    if g == [] then 0
    else (if g[0] == ',' && !inParentheses then 1 else 0)
         + TopLevelCommas(g[1..], NextInParentheses(inParentheses, g[0]))
  }

  /**
   * Reference split: cut `g` at every comma met while the flag is clear,
   * keeping every other character.
   */
  function Segments(g: string, inParentheses: bool): (segs: seq<string>)
    ensures |segs| == TopLevelCommas(g, inParentheses) + 1
  {
    if g == [] then [""]
    else
      var rest := Segments(g[1..], NextInParentheses(inParentheses, g[0]));
      if g[0] == ',' && !inParentheses then [""] + rest
      else [[g[0]] + rest[0]] + rest[1..]
  }

  /** Joining a list whose head is `x` and whose tail is non-empty. */
  lemma JoinHead(x: string, xs: seq<string>, sep: string)
    requires |xs| > 0
    ensures Join([x] + xs, sep) == x + sep + Join(xs, sep)
  {
    assert ([x] + xs)[1..] == xs;
  }

  /** Prepending a character to the first part of a list prepends it to the joined text. */
  lemma JoinExtendHead(c: char, xs: seq<string>, sep: string)
    requires |xs| > 0
    ensures Join([[c] + xs[0]] + xs[1..], sep) == [c] + Join(xs, sep)
  {
    if |xs| > 1 {
      JoinHead([c] + xs[0], xs[1..], sep);
      JoinHead(xs[0], xs[1..], sep);
      assert xs == [xs[0]] + xs[1..];
    } else {
      assert [[c] + xs[0]] + xs[1..] == [[c] + xs[0]];
    }
  }

  /** Joining the segments back with commas gives the input. */
  lemma {:induction false} SegmentsJoin(g: string, inParentheses: bool)
    ensures Join(Segments(g, inParentheses), ",") == g
  {
    if g != [] {
      var f := NextInParentheses(inParentheses, g[0]);
      var rest := Segments(g[1..], f);
      SegmentsJoin(g[1..], f);
      assert g == [g[0]] + g[1..];
      if g[0] == ',' && !inParentheses {
        JoinHead("", rest, ",");
      } else {
        JoinExtendHead(g[0], rest, ",");
      }
    }
  }

  /** Without an opening parenthesis, every comma splits: the tokenizer is plain strings.Split. */
  lemma {:induction false} SegmentsWithoutParentheses(g: string)
    requires '(' !in g
    ensures Segments(g, false) == Split(g, ',')
  {
    if g != [] {
      assert '(' !in g[1..] by { assert forall ch :: ch in g[1..] ==> ch in g; }
      SegmentsWithoutParentheses(g[1..]);
    }
  }

  /** Leading white space removed, as the tokenizer skips it while the current word is empty. */
  function DropLeadingSpace(s: string): string
  {
    if s != [] && IsSpace(s[0]) then DropLeadingSpace(s[1..]) else s
  }

  lemma {:induction false} DropLeadingSpaceSnoc(s: string, c: char)
    ensures DropLeadingSpace(s + [c])
         == if DropLeadingSpace(s) == [] && IsSpace(c) then [] else DropLeadingSpace(s) + [c]
  {
    if s == [] {
      assert s + [c] == [c];
      assert [c][1..] == [];
    } else {
      assert (s + [c])[1..] == s[1..] + [c];
      if IsSpace(s[0]) {
        DropLeadingSpaceSnoc(s[1..], c);
      }
    }
  }

  /** What extractPermTypes returns: each top-level segment without its leading white space. */
  function PermTypes(g: string): seq<string>
  {
    MapEach(DropLeadingSpace, Segments(g, false))
  }
  lemma SegmentsStep(g: string, i: nat, inParentheses: bool)
    requires i < |g|
    ensures var rest := Segments(g[i + 1..], NextInParentheses(inParentheses, g[i]));
      Segments(g[i..], inParentheses)
        == if g[i] == ',' && !inParentheses then [""] + rest else [[g[i]] + rest[0]] + rest[1..]
  {
    assert g[i..][0] == g[i];
    assert g[i..][1..] == g[i + 1..];
  }

  /**
   * The segments of the whole input, given the finished segments, the raw text of
   * the current one and the segments of what is still to be read.
   */
  function Rebuild(done: seq<string>, field: string, rest: seq<string>): seq<string>
    requires |rest| > 0
  {
    done + [field + rest[0]] + rest[1..]
  }

  lemma RebuildExtend(done: seq<string>, field: string, c: char, rest: seq<string>)
    requires |rest| > 0
    ensures Rebuild(done, field, [[c] + rest[0]] + rest[1..]) == Rebuild(done, field + [c], rest)
  {
    assert field + ([c] + rest[0]) == (field + [c]) + rest[0];
  }

  lemma RebuildCut(done: seq<string>, field: string, rest: seq<string>)
    requires |rest| > 0
    ensures Rebuild(done, field, [""] + rest) == Rebuild(done + [field], "", rest)
  {
    assert field + "" == field && "" + rest[0] == rest[0];
    assert rest == [rest[0]] + rest[1..];
  }

  /** Reading a top-level comma closes the current segment. */
  lemma RebuildCutStep(g: string, i: nat, done: seq<string>, field: string)
    requires i < |g| && g[i] == ','
    ensures Rebuild(done, field, Segments(g[i..], false)) == Rebuild(done + [field], "", Segments(g[i + 1..], false))
  {
    SegmentsStep(g, i, false);
    RebuildCut(done, field, Segments(g[i + 1..], false));
  }

  /** Reading any other character extends it, and moves the flag as the character says. */
  lemma RebuildKeepStep(g: string, i: nat, inParentheses: bool, next: bool, done: seq<string>, field: string)
    requires i < |g| && !(g[i] == ',' && !inParentheses)
    requires next == NextInParentheses(inParentheses, g[i])
    ensures Rebuild(done, field, Segments(g[i..], inParentheses)) == Rebuild(done, field + [g[i]], Segments(g[i + 1..], next))
  {
    SegmentsStep(g, i, inParentheses);
    RebuildExtend(done, field, g[i], Segments(g[i + 1..], next));
  }

  /**
   * One character of the tokenizer's loop, on the list so far, the current
   * word and the flag: a top-level comma closes the word, leading white space
   * is skipped, anything else extends the word, and parentheses move the flag.
   */
  function TokenStep(grants: seq<string>, word: string, inParentheses: bool, c: char): (seq<string>, string, bool)
  {
    if c == ',' && !inParentheses then (grants + [word], "", inParentheses)
    else (grants, if IsSpace(c) && |word| == 0 then word else word + [c], NextInParentheses(inParentheses, c))
  }

  /**
   * A step keeps the tokenizer in line with the reference split: the list so
   * far holds the finished segments without leading white space, the word is
   * the current segment without it, and the segments of the whole input are
   * the finished ones, the current one and those of the rest.
   */
  lemma TokenStepKeeps(g: string, i: nat, inParentheses: bool, grants: seq<string>, word: string,
                       fields: seq<string>, field: string, all: seq<string>)
      returns (fields': seq<string>, field': string)
    requires i < |g|
    requires grants == MapEach(DropLeadingSpace, fields) && word == DropLeadingSpace(field)
    requires all == Rebuild(fields, field, Segments(g[i..], inParentheses))
    ensures var next := TokenStep(grants, word, inParentheses, g[i]);
      && next.0 == MapEach(DropLeadingSpace, fields')
      && next.1 == DropLeadingSpace(field')
      && all == Rebuild(fields', field', Segments(g[i + 1..], next.2))
  {
    if g[i] == ',' && !inParentheses {
      RebuildCutStep(g, i, fields, field);
      MapEachSnoc(DropLeadingSpace, fields, field);
      fields', field' := fields + [field], "";
    } else {
      RebuildKeepStep(g, i, inParentheses, NextInParentheses(inParentheses, g[i]), fields, field);
      DropLeadingSpaceSnoc(field, g[i]);
      fields', field' := fields, field + [g[i]];
    }
  }

  /** Once every character is read, the finished segments and the last one are the tokens. */
  lemma FinishPermTypes(g: string, fields: seq<string>, field: string)
    requires Segments(g, false) == fields + [field]
    ensures MapEach(DropLeadingSpace, fields) + [DropLeadingSpace(field)] == PermTypes(g)
    ensures |PermTypes(g)| == |fields| + 1
  {
    MapEachSnoc(DropLeadingSpace, fields, field);
    MapEachAt(DropLeadingSpace, fields + [field]);
  }

  /**
   * extractPermTypes: split a privilege list on the commas outside parentheses,
   * dropping white space only while the current token is still empty.
   */
  method ExtractPermTypes(g: string) returns (grants: seq<string>)
    ensures grants == PermTypes(g)
    ensures |grants| == TopLevelCommas(g, false) + 1
  {
    grants := [];
    var inParentheses := false;
    var currentWord: string := [];
    ghost var fields: seq<string> := [];
    ghost var field: string := [];
    assert g[0..] == g;
    ghost var all := Segments(g, false);
    assert "" + all[0] == all[0] && all == [all[0]] + all[1..];
    for i := 0 to |g|
      invariant grants == MapEach(DropLeadingSpace, fields)
      invariant currentWord == DropLeadingSpace(field)
      invariant all == Rebuild(fields, field, Segments(g[i..], inParentheses))
    {
      var b := g[i];
      ghost var before := (grants, currentWord, inParentheses);
      fields, field := TokenStepKeeps(g, i, inParentheses, grants, currentWord, fields, field, all);
      match b
      case ',' =>
        if inParentheses {
          currentWord := currentWord + [b];
        } else {
          grants := grants + [currentWord];
          currentWord := [];
        }
      case '(' =>
        inParentheses := true;
        currentWord := currentWord + [b];
      case ')' =>
        inParentheses := false;
        currentWord := currentWord + [b];
      case _ =>
        if !(IsSpace(b) && |currentWord| == 0) {
          currentWord := currentWord + [b];
        }
      assert (grants, currentWord, inParentheses) == TokenStep(before.0, before.1, before.2, b);
    }
    assert g[|g|..] == [];
    assert field + "" == field;
    assert all == fields + [field];
    FinishPermTypes(g, fields, field);
    grants := grants + [currentWord];
  }

  // ---------------------------------------------------------------------------
  // normalizeColumnOrder
  // ---------------------------------------------------------------------------

  /**
   * The anchored expression ^([^(]*)\((.*)\)$ : a prefix free of '(' and, between
   * the first '(' and a final ')', a column list free of line breaks ('.' does
   * not match a newline; a negated class does).
   */
  function ColumnListMatch(perm: string): (m: Option<(string, string)>)
    ensures m.Some? ==> perm == m.value.0 + "(" + m.value.1 + ")"
    ensures m.Some? ==> '(' !in m.value.0 && '\n' !in m.value.1
  {
    var k := IndexOf(perm, '(');
    if k + 2 <= |perm| && perm[|perm| - 1] == ')' && '\n' !in perm[k + 1..|perm| - 1] then
      assert perm == perm[..k] + "(" + perm[k + 1..|perm| - 1] + ")";
      assert '(' !in perm[..k] by {
        forall ch | ch in perm[..k] ensures ch != '(' {
          var j :| 0 <= j < k && perm[..k][j] == ch;
        }
      }
      Some((perm[..k], perm[k + 1..|perm| - 1]))
    else
      None
  }

  /** The expression matches exactly the strings of that shape, and captures their two parts. */
  lemma ColumnListMatchOf(prefix: string, columns: string)
    requires '(' !in prefix && '\n' !in columns
    ensures ColumnListMatch(prefix + "(" + columns + ")") == Some((prefix, columns))
  {
    var perm := prefix + "(" + columns + ")";
    var k := IndexOf(perm, '(');
    assert perm[|prefix|] == '(';
    assert k == |prefix|;
    assert perm[..k] == prefix;
    assert perm[k + 1..|perm| - 1] == columns;
  }

  /** Every string of a list rewritten by f, in order. */
  function MapEach(f: string -> string, xs: seq<string>): seq<string>
  {
    if xs == [] then [] else [f(xs[0])] + MapEach(f, xs[1..])
  }

  lemma {:induction false} MapEachAt(f: string -> string, xs: seq<string>)
    ensures |MapEach(f, xs)| == |xs|
    ensures forall i :: 0 <= i < |xs| ==> MapEach(f, xs)[i] == f(xs[i])
  {
    if xs != [] {
      MapEachAt(f, xs[1..]);
    }
  }

  lemma {:induction false} MapEachConcat(f: string -> string, a: seq<string>, b: seq<string>)
    ensures MapEach(f, a + b) == MapEach(f, a) + MapEach(f, b)
  {
    if a == [] {
      assert a + b == b;
    } else {
      assert (a + b)[1..] == a[1..] + b;
      MapEachConcat(f, a[1..], b);
    }
  }

  lemma MapEachSnoc(f: string -> string, xs: seq<string>, x: string)
    ensures MapEach(f, xs + [x]) == MapEach(f, xs) + [f(x)]
  {
    MapEachConcat(f, xs, [x]);
    assert [x][1..] == [];
  }

  /** Taking out the element at k leaves the multiset without one copy of it. */
  lemma MultisetWithout(ys: seq<string>, k: nat)
    requires k < |ys|
    ensures multiset(ys[..k] + ys[k + 1..]) == multiset(ys) - multiset{ys[k]}
  {
    assert ys == ys[..k] + [ys[k]] + ys[k + 1..];
  }

  /** A list is its part before k, its element at k and its part after k. */
  lemma SplitAround(ys: seq<string>, k: nat)
    requires k < |ys|
    ensures ys == ys[..k] + [ys[k]] + ys[k + 1..]
  {
  }

  /** An element between two lists counts once more than the two lists joined. */
  lemma MultisetBetween(a: seq<string>, x: string, b: seq<string>)
    ensures multiset(a + [x] + b) == multiset(a + b) + multiset{x}
  {
  }

  /** Rewriting the element at k separately accounts for it in the rewritten multiset. */
  lemma MapEachWithout(f: string -> string, ys: seq<string>, k: nat)
    requires k < |ys|
    ensures multiset(MapEach(f, ys)) == multiset(MapEach(f, ys[..k] + ys[k + 1..])) + multiset{f(ys[k])}
  {
    var a, b := ys[..k], ys[k + 1..];
    SplitAround(ys, k);
    MapEachConcat(f, a + [ys[k]], b);
    MapEachSnoc(f, a, ys[k]);
    MapEachConcat(f, a, b);
    MultisetBetween(MapEach(f, a), f(ys[k]), MapEach(f, b));
  }

  /** Rewriting every element of two permutations of each other gives permutations of each other. */
  lemma {:induction false} MapEachPermutation(f: string -> string, xs: seq<string>, ys: seq<string>)
    requires multiset(xs) == multiset(ys)
    ensures multiset(MapEach(f, xs)) == multiset(MapEach(f, ys))
  {
    if xs == [] {
      assert |ys| == |multiset(ys)|;
    } else {
      assert xs[0] in multiset(ys);
      var k :| 0 <= k < |ys| && ys[k] == xs[0];
      var rest := ys[..k] + ys[k + 1..];
      MultisetWithout(ys, k);
      assert multiset(xs[1..]) == multiset(rest) by {
        assert xs == [xs[0]] + xs[1..];
      }
      calc {
        multiset(MapEach(f, xs));
        multiset([f(xs[0])] + MapEach(f, xs[1..]));
        multiset(MapEach(f, xs[1..])) + multiset{f(xs[0])};
        { MapEachPermutation(f, xs[1..], rest); }
        multiset(MapEach(f, rest)) + multiset{f(ys[k])};
        { MapEachWithout(f, ys, k); }
        multiset(MapEach(f, ys));
      }
    }
  }

  /** strings.Trim(part, "` ") of one column name. */
  function TrimColumn(part: string): string
  {
    Trim(part, "` ")
  }

  /** TrimColumn applied to every column name. */
  function TrimEach(parts: seq<string>): seq<string>
  {
    MapEach(TrimColumn, parts)
  }

  lemma TrimEachAt(parts: seq<string>)
    ensures |TrimEach(parts)| == |parts|
    ensures forall i :: 0 <= i < |parts| ==> TrimEach(parts)[i] == Trim(parts[i], "` ")
  {
    MapEachAt(TrimColumn, parts);
  }

  /** Trimming every column of two permutations of each other gives permutations of each other. */
  lemma TrimEachPermutation(xs: seq<string>, ys: seq<string>)
    requires multiset(xs) == multiset(ys)
    ensures multiset(TrimEach(xs)) == multiset(TrimEach(ys))
  {
    MapEachPermutation(TrimColumn, xs, ys);
  }

  /**
   * normalizeColumnOrder: a token `prefix(columns)` gets its columns trimmed of
   * back-ticks and spaces, sorted, and joined with ", "; any other token is
   * returned unchanged.
   */
  function NormalizeColumnOrder(perm: string): (r: string)
    ensures ColumnListMatch(perm).None? ==> r == perm
    ensures ColumnListMatch(perm).Some? ==>
      var (prefix, columns) := ColumnListMatch(perm).value;
      exists cols :: r == prefix + "(" + Join(cols, ", ") + ")"
                     && Sorted(cols) && multiset(cols) == multiset(TrimEach(Split(columns, ',')))
    ensures forall ch :: ch in r ==> ch in perm || ch == ',' || ch == ' '
  {
    match ColumnListMatch(perm)
    case None => perm
    case Some((prefix, columns)) =>
      var cols := SortStrings(TrimEach(Split(columns, ',')));
      RenderedColumnsChars(columns, cols);
      assert forall ch :: ch in prefix + "(" + Join(cols, ", ") + ")" ==>
        ch in prefix || ch == '(' || ch in Join(cols, ", ") || ch == ')';
      prefix + "(" + Join(cols, ", ") + ")"
  }

  /** The sorted, trimmed columns joined with ", " hold only characters of the column list, commas and spaces. */
  lemma RenderedColumnsChars(columns: string, cols: seq<string>)
    requires multiset(cols) == multiset(TrimEach(Split(columns, ',')))
    ensures forall ch :: ch in Join(cols, ", ") ==> ch in columns || ch == ',' || ch == ' '
  {
    var parts := Split(columns, ',');
    TrimEachAt(parts);
    forall ch | ch in Join(cols, ", ") ensures ch in columns || ch == ',' || ch == ' ' {
      JoinChars(cols, ", ", ch);
      if ch !in ", " {
        var i :| 0 <= i < |cols| && ch in cols[i];
        assert cols[i] in multiset(TrimEach(parts));
        var j :| 0 <= j < |parts| && TrimEach(parts)[j] == cols[i];
        TrimChars(parts[j], "` ");
      }
    }
  }

  /** A token that is not of the form prefix(columns) is left as it is. */
  lemma NormalizeColumnOrderPlain(perm: string)
    requires !HasSuffix(perm, ")") || '(' !in perm
    ensures NormalizeColumnOrder(perm) == perm
  {
  }

  /** Listing the same columns in another order gives the same normalized token. */
  lemma ColumnOrderIgnoresReordering(prefix: string, xs: seq<string>, ys: seq<string>)
    requires '(' !in prefix
    requires |xs| > 0 && multiset(xs) == multiset(ys)
    requires forall i :: 0 <= i < |xs| ==> ',' !in xs[i] && '\n' !in xs[i]
    ensures NormalizeColumnOrder(prefix + "(" + Join(xs, ",") + ")")
         == NormalizeColumnOrder(prefix + "(" + Join(ys, ",") + ")")
  {
    assert |ys| == |multiset(ys)| == |multiset(xs)| == |xs|;
    forall i | 0 <= i < |ys| ensures ',' !in ys[i] && '\n' !in ys[i] {
      assert ys[i] in multiset(xs);
    }
    if '\n' in Join(xs, ",") { JoinChars(xs, ",", '\n'); }
    if '\n' in Join(ys, ",") { JoinChars(ys, ",", '\n'); }
    ColumnListMatchOf(prefix, Join(xs, ","));
    ColumnListMatchOf(prefix, Join(ys, ","));
    SplitJoin(xs, ',');
    SplitJoin(ys, ',');
    TrimEachPermutation(xs, ys);
    SortIgnoresOrder(TrimEach(xs), TrimEach(ys));
  }

  // ---------------------------------------------------------------------------
  // normalizePerms and removeUselessPerms
  // ---------------------------------------------------------------------------

  /** `ALL` and `ALLPRIVILEGES` both stand for `ALL PRIVILEGES`. */
  function Alias(perm: string): string
  {
    if perm == "ALL" || perm == "ALLPRIVILEGES" then "ALL PRIVILEGES" else perm
  }

  /** One token as normalizePerms rewrites it, before USAGE is dropped. */
  function NormalizePerm(perm: string): (r: string)
    ensures IsUpper(r) && '`' !in r
  {
    var v := Alias(ToUpper(WithoutSpacesOrBackticks(perm)));
    AliasUpperCompact(perm);
    NormalizeColumnOrder(v)
  }

  /** Before its columns are sorted, a rewritten token is upper case and holds no back-tick. */
  lemma AliasUpperCompact(perm: string)
    ensures var v := Alias(ToUpper(WithoutSpacesOrBackticks(perm)));
      IsUpper(v) && '`' !in v
  {
    var u := ToUpper(WithoutSpacesOrBackticks(perm));
    WithoutSpacesOrBackticksIsCompact(perm);
    UpperPreservesCompact(WithoutSpacesOrBackticks(perm));
    UpperIsUpper(WithoutSpacesOrBackticks(perm));
    if Alias(u) != u {
      var all := "ALL PRIVILEGES";
      assert IsUpper(all) by {
        forall ch | ch in all ensures UpperChar(ch) == ch {
          assert ch in "ALPRIVEGS ";
        }
      }
    }
  }

  /** removeUselessPerms: every token except USAGE, in order. */
  function WithoutUsage(perms: seq<string>): (r: seq<string>)
    ensures "USAGE" !in r
    ensures |r| <= |perms|
    ensures forall x :: x in r <==> x in perms && x != "USAGE"
  {
    if perms == [] then []
    else (if perms[0] == "USAGE" then [] else [perms[0]]) + WithoutUsage(perms[1..])
  }

  lemma {:induction false} WithoutUsageAppend(a: seq<string>, b: seq<string>)
    ensures WithoutUsage(a + b) == WithoutUsage(a) + WithoutUsage(b)
  {
    if a == [] {
      assert a + b == b;
    } else {
      assert (a + b)[1..] == a[1..] + b;
      WithoutUsageAppend(a[1..], b);
    }
  }

  method RemoveUselessPerms(grants: seq<string>) returns (ret: seq<string>)
    ensures ret == WithoutUsage(grants)
  {
    ret := [];
    for i := 0 to |grants|
      invariant ret == WithoutUsage(grants[..i])
    {
      assert grants[..i + 1] == grants[..i] + [grants[i]];
      WithoutUsageAppend(grants[..i], [grants[i]]);
      if grants[i] != "USAGE" {
        ret := ret + [grants[i]];
      }
    }
    assert grants[..|grants|] == grants;
  }

  function MapNormalizePerm(perms: seq<string>): (r: seq<string>)
    ensures |r| == |perms|
  {
    if perms == [] then [] else [NormalizePerm(perms[0])] + MapNormalizePerm(perms[1..])
  }

  lemma {:induction false} MapNormalizePermAppend(a: seq<string>, b: seq<string>)
    ensures MapNormalizePerm(a + b) == MapNormalizePerm(a) + MapNormalizePerm(b)
  {
    if a == [] {
      assert a + b == b;
    } else {
      assert (a + b)[1..] == a[1..] + b;
      MapNormalizePermAppend(a[1..], b);
    }
  }

  lemma MapNormalizePermSnoc(perms: seq<string>, i: nat)
    requires i < |perms|
    ensures MapNormalizePerm(perms[..i + 1]) == MapNormalizePerm(perms[..i]) + [NormalizePerm(perms[i])]
  {
    assert perms[..i + 1] == perms[..i] + [perms[i]];
    MapNormalizePermAppend(perms[..i], [perms[i]]);
    assert [perms[i]][1..] == [];
  }

  /** What normalizePerms returns. */
  function NormalizedPerms(perms: seq<string>): seq<string>
  {
    WithoutUsage(MapNormalizePerm(perms))
  }

  /** normalizePerms: rewrite each token, then drop USAGE. */
  method NormalizePerms(perms: seq<string>) returns (ret: seq<string>)
    ensures ret == NormalizedPerms(perms)
    ensures "USAGE" !in ret && |ret| <= |perms|
  {
    ret := [];
    for i := 0 to |perms|
      invariant ret == MapNormalizePerm(perms[..i])
    {
      var permNorm := WithoutSpacesOrBackticks(perms[i]);
      var permUcase := ToUpper(permNorm);
      if permUcase == "ALL" || permUcase == "ALLPRIVILEGES" {
        permUcase := "ALL PRIVILEGES";
      }
      assert permUcase == Alias(ToUpper(WithoutSpacesOrBackticks(perms[i])));
      var permSortedColumns := NormalizeColumnOrder(permUcase);
      MapNormalizePermSnoc(perms, i);
      ret := ret + [permSortedColumns];
    }
    assert perms[..|perms|] == perms;
    ret := RemoveUselessPerms(ret);
  }

  /**
   * Token by token and in input order: normalizing a concatenation is the
   * concatenation of the normalized parts, and one token gives itself
   * normalized unless that is USAGE.
   */
  lemma NormalizedPermsAppend(a: seq<string>, b: seq<string>)
    ensures NormalizedPerms(a + b) == NormalizedPerms(a) + NormalizedPerms(b)
  {
    MapNormalizePermAppend(a, b);
    WithoutUsageAppend(MapNormalizePerm(a), MapNormalizePerm(b));
  }

  lemma NormalizedPermsSingle(perm: string)
    ensures NormalizedPerms([perm])
         == if NormalizePerm(perm) == "USAGE" then [] else [NormalizePerm(perm)]
  {
    assert [perm][1..] == [];
    assert MapNormalizePerm([perm]) == [NormalizePerm(perm)];
    assert [NormalizePerm(perm)][1..] == [];
  }

  /** `ALL` and `ALL PRIVILEGES`, in any case and with any spaces or back-ticks, become `ALL PRIVILEGES`. */
  lemma AllPrivilegesAlias(perm: string)
    requires ToUpper(WithoutSpacesOrBackticks(perm)) in {"ALL", "ALLPRIVILEGES"}
    ensures NormalizePerm(perm) == "ALL PRIVILEGES"
  {
    NormalizeColumnOrderPlain("ALL PRIVILEGES");
  }

  // ---------------------------------------------------------------------------
  // Normalizing twice equals normalizing once
  // ---------------------------------------------------------------------------

  /** A column name as normalizeColumnOrder leaves it. */
  predicate Atom(x: string)
  {
    Compact(x) && IsUpper(x) && ',' !in x && '\n' !in x
  }

  predicate AllAtoms(xs: seq<string>)
  {
    forall i :: 0 <= i < |xs| ==> Atom(xs[i])
  }

  lemma SortedColumnsAreAtoms(columns: string)
    requires Compact(columns) && IsUpper(columns) && '\n' !in columns
    ensures var sorted := SortStrings(TrimEach(Split(columns, ',')));
      |sorted| > 0 && Sorted(sorted) && AllAtoms(sorted)
  {
    var parts := Split(columns, ',');
    var trimmed := TrimEach(parts);
    var sorted := SortStrings(trimmed);
    TrimEachAt(parts);
    forall i | 0 <= i < |trimmed| ensures Atom(trimmed[i]) {
      TrimChars(parts[i], "` ");
    }
    forall i | 0 <= i < |sorted| ensures Atom(sorted[i]) {
      assert sorted[i] in multiset(trimmed);
      var j :| 0 <= j < |trimmed| && trimmed[j] == sorted[i];
    }
  }

  lemma {:induction false} StripJoin(xs: seq<string>)
    requires AllAtoms(xs)
    ensures WithoutSpacesOrBackticks(Join(xs, ", ")) == Join(xs, ",")
  {
    if |xs| == 1 {
      WithoutSpacesOrBackticksOfCompact(xs[0]);
    } else if |xs| > 1 {
      StripJoin(xs[1..]);
      WithoutSpacesOrBackticksOfCompact(xs[0]);
      WithoutSpacesOrBackticksConcat(xs[0], ", " + Join(xs[1..], ", "));
      WithoutSpacesOrBackticksConcat(", ", Join(xs[1..], ", "));
      assert WithoutSpacesOrBackticks(", ") == ",";
      assert xs[0] + ", " + Join(xs[1..], ", ") == xs[0] + (", " + Join(xs[1..], ", "));
    }
  }

  lemma JoinAtomsChars(xs: seq<string>)
    requires AllAtoms(xs)
    ensures IsUpper(Join(xs, ",")) && '\n' !in Join(xs, ",") && ' ' !in Join(xs, ",")
  {
    forall ch | ch in Join(xs, ",") ensures UpperChar(ch) == ch && ch != '\n' && ch != ' ' {
      JoinChars(xs, ",", ch);
    }
  }

  /** Parentheses survive the removal of spaces and back-ticks around their contents. */
  lemma StripGroup(j: string)
    ensures WithoutSpacesOrBackticks("(" + j + ")") == "(" + WithoutSpacesOrBackticks(j) + ")"
  {
    WithoutSpacesOrBackticksConcat("(", j + ")");
    WithoutSpacesOrBackticksConcat(j, ")");
    assert "(" + j + ")" == "(" + (j + ")");
    assert WithoutSpacesOrBackticks("(") == "(" && WithoutSpacesOrBackticks(")") == ")";
  }

  /** A compact prefix passes through the removal unchanged. */
  lemma StripCompactPrefix(prefix: string, rest: string)
    requires Compact(prefix)
    ensures WithoutSpacesOrBackticks(prefix + rest) == prefix + WithoutSpacesOrBackticks(rest)
  {
    WithoutSpacesOrBackticksOfCompact(prefix);
    WithoutSpacesOrBackticksConcat(prefix, rest);
  }

  /** Stripping a rewritten column list only removes the spaces after its commas. */
  lemma StripRenderedColumns(prefix: string, sorted: seq<string>)
    requires Compact(prefix) && AllAtoms(sorted)
    ensures WithoutSpacesOrBackticks(prefix + "(" + Join(sorted, ", ") + ")")
         == prefix + "(" + Join(sorted, ",") + ")"
  {
    var j, js := Join(sorted, ", "), Join(sorted, ",");
    calc {
      WithoutSpacesOrBackticks(prefix + "(" + j + ")");
      { assert prefix + "(" + j + ")" == prefix + ("(" + j + ")"); }
      WithoutSpacesOrBackticks(prefix + ("(" + j + ")"));
      { StripCompactPrefix(prefix, "(" + j + ")"); }
      prefix + WithoutSpacesOrBackticks("(" + j + ")");
      { StripGroup(j); StripJoin(sorted); }
      prefix + ("(" + js + ")");
      prefix + "(" + js + ")";
    }
  }

  lemma UpperRenderedColumns(prefix: string, sorted: seq<string>)
    requires IsUpper(prefix) && AllAtoms(sorted)
    ensures var w := prefix + "(" + Join(sorted, ",") + ")";
      ToUpper(w) == w && w[|w| - 1] == ')'
  {
    var w := prefix + "(" + Join(sorted, ",") + ")";
    JoinAtomsChars(sorted);
    assert IsUpper(w);
    ToUpperOfUpper(w);
  }

  lemma ResortRenderedColumns(prefix: string, sorted: seq<string>)
    requires '(' !in prefix && |sorted| > 0 && Sorted(sorted) && AllAtoms(sorted)
    ensures NormalizeColumnOrder(prefix + "(" + Join(sorted, ",") + ")")
         == prefix + "(" + Join(sorted, ", ") + ")"
  {
    JoinAtomsChars(sorted);
    ColumnListMatchOf(prefix, Join(sorted, ","));
    SplitJoin(sorted, ',');
    TrimEachAt(sorted);
    forall i | 0 <= i < |sorted| ensures Trim(sorted[i], "` ") == sorted[i] {
      TrimNothingToCut(sorted[i], "` ");
    }
    assert TrimEach(sorted) == sorted;
    SortSorted(sorted);
  }

  /** A prefix and sorted atoms rendered as normalizeColumnOrder renders them are left as they are. */
  lemma RenderedColumnsFixed(prefix: string, sorted: seq<string>)
    requires Compact(prefix) && IsUpper(prefix) && '(' !in prefix
    requires |sorted| > 0 && Sorted(sorted) && AllAtoms(sorted)
    ensures var o := prefix + "(" + Join(sorted, ", ") + ")";
      NormalizePerm(o) == o
  {
    var w := prefix + "(" + Join(sorted, ",") + ")";
    StripRenderedColumns(prefix, sorted);
    UpperRenderedColumns(prefix, sorted);
    assert Alias(w) == w;
    ResortRenderedColumns(prefix, sorted);
  }

  /** A rewritten column list is a fixed point of the rewriting. */
  lemma ColumnFormIdempotent(prefix: string, columns: string)
    requires Compact(prefix) && IsUpper(prefix) && '(' !in prefix
    requires Compact(columns) && IsUpper(columns) && '\n' !in columns
    ensures var o := NormalizeColumnOrder(prefix + "(" + columns + ")");
      NormalizePerm(o) == o
  {
    ColumnListMatchOf(prefix, columns);
    SortedColumnsAreAtoms(columns);
    RenderedColumnsFixed(prefix, SortStrings(TrimEach(Split(columns, ','))));
  }

  lemma StripOneSpace(a: string, b: string)
    requires Compact(a) && Compact(b)
    ensures WithoutSpacesOrBackticks(a + " " + b) == a + b
  {
    var w := WithoutSpacesOrBackticks(" ");
    assert w == [] by { assert " "[1..] == []; }
    calc {
      WithoutSpacesOrBackticks(a + " " + b);
      { WithoutSpacesOrBackticksConcat(a + " ", b); }
      WithoutSpacesOrBackticks(a + " ") + WithoutSpacesOrBackticks(b);
      { WithoutSpacesOrBackticksConcat(a, " "); }
      WithoutSpacesOrBackticks(a) + w + WithoutSpacesOrBackticks(b);
      { WithoutSpacesOrBackticksOfCompact(a); WithoutSpacesOrBackticksOfCompact(b); }
      a + w + b;
    }
  }

  /** `ALL PRIVILEGES` normalizes to itself. */
  lemma AllPrivilegesFixed(s: string)
    requires s == "ALL PRIVILEGES"
    ensures NormalizePerm(s) == s
  {
    var a, b := "ALL", "PRIVILEGES";
    assert s == a + " " + b;
    StripOneSpace(a, b);
    var ab := "ALLPRIVILEGES";
    assert a + b == ab;
    assert IsUpper(ab) by {
      forall ch | ch in ab ensures UpperChar(ch) == ch {
        assert ch in "ALPRIVEGS";
      }
    }
    ToUpperOfUpper(ab);
    AllPrivilegesAlias(s);
  }

  /** normalizePerms' rewriting of one token is idempotent. */
  lemma NormalizePermIdempotent(perm: string)
    ensures NormalizePerm(NormalizePerm(perm)) == NormalizePerm(perm)
  {
    var v := ToUpper(WithoutSpacesOrBackticks(perm));
    WithoutSpacesOrBackticksIsCompact(perm);
    UpperPreservesCompact(WithoutSpacesOrBackticks(perm));
    UpperIsUpper(WithoutSpacesOrBackticks(perm));
    if Alias(v) == "ALL PRIVILEGES" {
      NormalizeColumnOrderPlain("ALL PRIVILEGES");
      AllPrivilegesFixed(NormalizePerm(perm));
    } else {
      assert Alias(v) == v;
      match ColumnListMatch(v)
      case None =>
        WithoutSpacesOrBackticksOfCompact(v);
        ToUpperOfUpper(v);
      case Some((prefix, columns)) =>
        assert forall ch :: ch in prefix ==> ch in v;
        assert forall ch :: ch in columns ==> ch in v;
        ColumnFormIdempotent(prefix, columns);
    }
  }

  /** A privilege list that normalizePerms has already produced. */
  predicate Normalized(xs: seq<string>)
  {
    forall x :: x in xs ==> x != "USAGE" && NormalizePerm(x) == x
  }

  lemma {:induction false} MapNormalizePermAt(perms: seq<string>)
    ensures forall i :: 0 <= i < |perms| ==> MapNormalizePerm(perms)[i] == NormalizePerm(perms[i])
  {
    if perms != [] {
      MapNormalizePermAt(perms[1..]);
    }
  }

  /** Every token normalizePerms returns is a fixed point of the rewriting and is not USAGE. */
  lemma NormalizedPermsNormalized(perms: seq<string>)
    ensures Normalized(NormalizedPerms(perms))
  {
    MapNormalizePermAt(perms);
    forall x | x in NormalizedPerms(perms) ensures x != "USAGE" && NormalizePerm(x) == x {
      var i :| 0 <= i < |MapNormalizePerm(perms)| && MapNormalizePerm(perms)[i] == x;
      NormalizePermIdempotent(perms[i]);
    }
  }

  /** A normalized list is left as it is. */
  lemma {:induction false} NormalizedPermsFixed(xs: seq<string>)
    requires Normalized(xs)
    ensures NormalizedPerms(xs) == xs
  {
    if xs != [] {
      assert xs == [xs[0]] + xs[1..];
      assert xs[0] in xs;
      NormalizedPermsFixed(xs[1..]);
      NormalizedPermsAppend([xs[0]], xs[1..]);
      NormalizedPermsSingle(xs[0]);
    }
  }

  /** normalizePerms is idempotent: a normalized privilege list is its own normal form. */
  lemma NormalizedPermsIdempotent(perms: seq<string>)
    ensures NormalizedPerms(NormalizedPerms(perms)) == NormalizedPerms(perms)
  {
    NormalizedPermsNormalized(perms);
    NormalizedPermsFixed(NormalizedPerms(perms));
  }
}
