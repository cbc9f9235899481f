/** Small helper datatypes shared by the modules below. */
module Wrappers {
  datatype Option<+T> = None | Some(value: T)
}

/**
 * The few Python `str` and `list` operations the validation scripts rely on,
 * written as Dafny functions over `seq<char>` and `seq<T>`:
 * `pat in text`, `str.strip()`, `str.split(sep)`, `str.split()`, `str.lower()`
 * and list comprehensions with an `if` filter.
 */
module Text {
  import opened Wrappers

  /** Python's `str.isspace()` on one character: the code points that
      `str.strip()` removes and `str.split()` (no argument) splits on. */
  predicate IsSpace(c: char)
  {
    c == ' ' || ('\t' <= c <= '\r') || ('\U{1c}' <= c <= '\U{1f}')
    || c == '\U{85}' || c == '\U{a0}' || c == '\U{1680}'
    || ('\U{2000}' <= c <= '\U{200a}') || c == '\U{2028}' || c == '\U{2029}'
    || c == '\U{202f}' || c == '\U{205f}' || c == '\U{3000}'
  }

  /** No character of `s` is white space. */
  predicate NoSpace(s: string)
  {
    forall k :: 0 <= k < |s| ==> !IsSpace(s[k])
  }

  /** Every character of `s` is white space (vacuously so for ""). */
  predicate AllSpace(s: string)
  {
    forall k :: 0 <= k < |s| ==> IsSpace(s[k])
  }

  // ---------------------------------------------------------------------
  // Substring search: Python's `pat in text`
  // ---------------------------------------------------------------------

  /** `pat` occurs in `text` starting at index `i`. */
  predicate OccursAt(text: string, pat: string, i: int)
  {
    0 <= i && i + |pat| <= |text| && text[i..i + |pat|] == pat
  }

  /** Python's `pat in text`: a left-to-right search for `pat`. The empty
      pattern occurs in every text. */
  predicate Contains(text: string, pat: string)
    ensures pat == [] ==> Contains(text, pat)
    ensures Contains(text, pat) ==> |pat| <= |text|
    decreases |text|
  {
    |pat| <= |text| && (text[..|pat|] == pat || (|text| > 0 && Contains(text[1..], pat)))
  }

  /** The search agrees with the definition of an occurrence, both ways. */
  lemma {:induction false} ContainsIffOccurs(text: string, pat: string)
    ensures Contains(text, pat) <==> exists i :: OccursAt(text, pat, i)
    decreases |text|
  {
    if |pat| <= |text| && text[..|pat|] == pat {
      assert OccursAt(text, pat, 0);
    } else if |pat| <= |text| && |text| > 0 {
      ContainsIffOccurs(text[1..], pat);
      if exists i :: OccursAt(text, pat, i) {
        var i :| OccursAt(text, pat, i);
        assert i != 0;
        assert text[1..][i - 1..i - 1 + |pat|] == text[i..i + |pat|];
        assert OccursAt(text[1..], pat, i - 1);
      }
      if exists j :: OccursAt(text[1..], pat, j) {
        var j :| OccursAt(text[1..], pat, j);
        assert text[j + 1..j + 1 + |pat|] == text[1..][j..j + |pat|];
        assert OccursAt(text, pat, j + 1);
      }
    }
  }

  // ---------------------------------------------------------------------
  // str.strip()
  // ---------------------------------------------------------------------

  /** `s` with its leading white space removed. */
  function TrimStart(s: string): (r: string)
    ensures |r| <= |s|
    ensures r != [] ==> !IsSpace(r[0])
  {
    if s != [] && IsSpace(s[0]) then TrimStart(s[1..]) else s
  }

  /** What TrimStart keeps is a suffix, and what it drops is white space. */
  lemma {:induction false} TrimStartDrops(s: string)
    ensures var r := TrimStart(s); r == s[|s| - |r|..] && AllSpace(s[..|s| - |r|])
  {
    if s != [] && IsSpace(s[0]) {
      TrimStartDrops(s[1..]);
      var r := TrimStart(s[1..]);
      assert s[1..][..|s| - 1 - |r|] == s[1..|s| - |r|];
    }
  }

  /** `s` with its trailing white space removed. */
  function TrimEnd(s: string): (r: string)
    ensures |r| <= |s|
    ensures r != [] ==> !IsSpace(r[|r| - 1])
  {
    if s != [] && IsSpace(s[|s| - 1]) then TrimEnd(s[..|s| - 1]) else s
  }

  /** What TrimEnd keeps is a prefix, and what it drops is white space. */
  lemma {:induction false} TrimEndDrops(s: string)
    ensures var r := TrimEnd(s); r == s[..|r|] && AllSpace(s[|r|..])
  {
    if s != [] && IsSpace(s[|s| - 1]) {
      TrimEndDrops(s[..|s| - 1]);
      var r := TrimEnd(s[..|s| - 1]);
      assert s[..|s| - 1][|r|..] == s[|r|..|s| - 1];
    }
  }

  /** Python's `s.strip()`: neither starts nor ends with white space. */
  function Strip(s: string): (r: string)
    ensures r != [] ==> !IsSpace(r[0]) && !IsSpace(r[|r| - 1])
  {
    var t := TrimStart(s);
    TrimEndDrops(t);
    TrimEnd(t)
  }

  /** `s.strip()` is a slice of `s` with only white space cut off on either
      side. */
  lemma StripSlice(s: string)
    ensures exists i :: StrippedAt(s, Strip(s), i)
  {
    var t := TrimStart(s);
    var r := TrimEnd(t);
    TrimStartDrops(s);
    TrimEndDrops(t);
    var i := |s| - |t|;
    assert s[i..][..|r|] == s[i..i + |r|];
    assert s[i..][|r|..] == s[i + |r|..];
    assert StrippedAt(s, Strip(s), i);
  }

  /** `r` is `s[i..i + |r|]` and everything of `s` around it is white space. */
  predicate StrippedAt(s: string, r: string, i: int)
  {
    0 <= i <= |s| - |r| && s[i..i + |r|] == r && AllSpace(s[..i]) && AllSpace(s[i + |r|..])
  }

  /** `s.strip()` is empty exactly when `s` is all white space. */
  lemma StripEmpty(s: string)
    ensures Strip(s) == [] <==> AllSpace(s)
  {
    var t := TrimStart(s);
    var r := TrimEnd(t);
    TrimStartDrops(s);
    TrimEndDrops(t);
    var i := |s| - |t|;
    if r == [] {
      assert t[|r|..] == t;
      assert |t| == 0;
      assert s[..i] == s;
    } else {
      assert s[i] == t[0] == r[0];
    }
  }

  // ---------------------------------------------------------------------
  // str.split(sep) for a one-character separator, and its inverse
  // ---------------------------------------------------------------------

  /** Python's `sep.join(parts)` for a one-character separator. */
  function Join(parts: seq<string>, sep: char): string
  {
    if |parts| == 0 then ""
    else if |parts| == 1 then parts[0]
    else parts[0] + [sep] + Join(parts[1..], sep)
  }

  /** Python's `s.index(c)`: the position of the first `c` in `s`. */
  function IndexOf(s: string, c: char): (k: nat)
    requires c in s
    ensures k < |s| && s[k] == c && c !in s[..k]
  {
    if s[0] == c then 0
    else
      var k := 1 + IndexOf(s[1..], c);
      assert s[..k] == [s[0]] + s[1..][..k - 1];
      k
  }

  /** The first `c` in `p + [c] + x` is the one after `p`, when `p` has none. */
  lemma {:induction false} IndexOfAfter(p: string, c: char, x: string)
    requires c !in p
    ensures c in p + [c] + x && IndexOf(p + [c] + x, c) == |p|
  {
    var s := p + [c] + x;
    assert s[|p|] == c;
    if p != [] {
      assert s[1..] == p[1..] + [c] + x;
      IndexOfAfter(p[1..], c, x);
    }
  }

  /** Python's `s.split(sep)`: the pieces between separators, never an empty
      list (`"".split(sep) == [""]`), none containing `sep`, joined back
      they give `s`; there is more than one piece exactly when `sep` occurs. */
  function Split(s: string, sep: char): (parts: seq<string>)
    ensures |parts| >= 1
    ensures forall i :: 0 <= i < |parts| ==> sep !in parts[i]
    ensures Join(parts, sep) == s
    ensures |parts| == 1 <==> sep !in s
    decreases |s|
  {
    if sep !in s then [s]
    else
      var k := IndexOf(s, sep);
      var rest := Split(s[k + 1..], sep);
      var parts := [s[..k]] + rest;
      assert parts[1..] == rest;
      assert s == s[..k] + [sep] + s[k + 1..];
      parts
  }

  /** Splitting a text that starts with a separator-free piece and a
      separator gives that piece first. */
  lemma SplitCons(p: string, sep: char, x: string)
    requires sep !in p
    ensures Split(p + [sep] + x, sep) == [p] + Split(x, sep)
  {
    var s := p + [sep] + x;
    IndexOfAfter(p, sep, x);
    assert s[..|p|] == p;
    assert s[|p| + 1..] == x;
  }

  /** Splitting a join gives back the pieces, when none contains the separator. */
  lemma {:induction false} SplitJoin(parts: seq<string>, sep: char)
    requires |parts| >= 1
    requires forall i :: 0 <= i < |parts| ==> sep !in parts[i]
    ensures Split(Join(parts, sep), sep) == parts
  {
    if |parts| > 1 {
      SplitJoin(parts[1..], sep);
      SplitCons(parts[0], sep, Join(parts[1..], sep));
      assert parts == [parts[0]] + parts[1..];
    }
  }

  /** The first piece of `s.split(sep)`: the text before the first `sep`. */
  function FirstPiece(s: string, sep: char): (r: string)
    ensures |r| <= |s| && r == s[..|r|] && sep !in r
    ensures |r| < |s| ==> s[|r|] == sep
    ensures |r| == |s| <==> sep !in s
  {
    var parts := Split(s, sep);
    if |parts| > 1 then
      assert s == parts[0] + [sep] + Join(parts[1..], sep);
      parts[0]
    else
      parts[0]
  }

  /** The idiom `s.strip().split('\n') if s.strip() else []`: the lines of
      the stripped text, and none at all for a blank text. */
  function Lines(s: string): (r: seq<string>)
    ensures r != [] ==> Join(r, '\n') == Strip(s)
  {
    if Strip(s) != [] then Split(Strip(s), '\n') else []
  }

  /** A blank text has no lines, and only a blank one. */
  lemma LinesEmpty(s: string)
    ensures Lines(s) == [] <==> AllSpace(s)
  {
    StripEmpty(s);
  }

  // ---------------------------------------------------------------------
  // str.split() with no argument
  // ---------------------------------------------------------------------

  /** The longest prefix of `t` free of white space. */
  function Word(t: string): (w: string)
    ensures |w| <= |t| && w == t[..|w|] && NoSpace(w)
    ensures |w| < |t| ==> IsSpace(t[|w|])
    ensures t != [] && !IsSpace(t[0]) ==> |w| >= 1
  {
    if t == [] || IsSpace(t[0]) then []
    else
      var v := Word(t[1..]);
      assert t[..|v| + 1] == [t[0]] + t[1..][..|v|];
      [t[0]] + v
  }

  /** Python's `s.split()`: the maximal runs of non-white-space characters,
      each one non-empty and free of white space. */
  function Fields(s: string): (r: seq<string>)
    ensures forall i :: 0 <= i < |r| ==> r[i] != [] && NoSpace(r[i])
    decreases |s|
  {
    var t := TrimStart(s);
    if t == [] then []
    else
      var w := Word(t);
      [w] + Fields(t[|w|..])
  }

  lemma {:induction false} WordOfPrefix(w: string, rest: string)
    requires NoSpace(w)
    requires rest != [] ==> IsSpace(rest[0])
    ensures Word(w + rest) == w
    decreases |w|
  {
    if w != [] {
      assert (w + rest)[1..] == w[1..] + rest;
      WordOfPrefix(w[1..], rest);
    } else {
      assert w + rest == rest;
    }
  }

  /** A word followed by nothing or by white space is the first field. */
  lemma FieldsStep(w: string, tail: string)
    requires w != [] && NoSpace(w)
    requires tail != [] ==> IsSpace(tail[0])
    ensures Fields(w + tail) == [w] + Fields(tail)
  {
    var s := w + tail;
    assert TrimStart(s) == s;
    WordOfPrefix(w, tail);
    assert s[|w|..] == tail;
  }

  /** Leading white space does not change the fields. */
  lemma FieldsSkipSpace(c: char, j: string)
    requires IsSpace(c)
    ensures Fields([c] + j) == Fields(j)
  {
    assert ([c] + j)[1..] == j;
    assert TrimStart([c] + j) == TrimStart(j);
  }

  /** Every element is a non-empty run of non-white-space characters. */
  predicate AreWords(words: seq<string>)
  {
    words == [] || (words[0] != [] && NoSpace(words[0]) && AreWords(words[1..]))
  }

  /** `words[0] + gaps[0] + words[1] + gaps[1] + ...`: each word followed
      by the white space after it. */
  function Spaced(words: seq<string>, gaps: seq<string>): string
    requires |gaps| == |words|
  {
    if words == [] then [] else words[0] + gaps[0] + Spaced(words[1..], gaps[1..])
  }

  /** Every gap is white space, and every gap but the last is non-empty. */
  predicate AreGaps(gaps: seq<string>)
  {
    gaps == [] || (AllSpace(gaps[0]) && (|gaps| > 1 ==> gaps[0] != []) && AreGaps(gaps[1..]))
  }

  /** Leading white space of any length does not change the fields. */
  lemma {:induction false} FieldsSkipLead(lead: string, j: string)
    requires AllSpace(lead)
    ensures Fields(lead + j) == Fields(j)
  {
    if lead != [] {
      FieldsSkipLead(lead[1..], j);
      assert lead + j == [lead[0]] + (lead[1..] + j);
      FieldsSkipSpace(lead[0], lead[1..] + j);
    } else {
      assert lead + j == j;
    }
  }

  /** `s.split()` of words separated by runs of white space, with any white
      space before and after, gives back the words. */
  lemma {:induction false} FieldsOfSpaced(lead: string, words: seq<string>, gaps: seq<string>)
    requires AllSpace(lead) && AreWords(words) && |gaps| == |words| && AreGaps(gaps)
    ensures Fields(lead + Spaced(words, gaps)) == words
    decreases |words|
  {
    FieldsSkipLead(lead, Spaced(words, gaps));
    if words == [] {
      assert Fields([]) == [];
    } else {
      var w, g := words[0], gaps[0];
      var rest := Spaced(words[1..], gaps[1..]);
      assert w + g + rest == w + (g + rest);
      FieldsStep(w, g + rest);
      FieldsOfSpaced(g, words[1..], gaps[1..]);
      assert words == [w] + words[1..];
    }
  }

  /** One more word and gap in front. */
  lemma SpacedCons(w: string, g: string, words: seq<string>, gaps: seq<string>)
    requires |gaps| == |words|
    ensures Spaced([w] + words, [g] + gaps) == w + g + Spaced(words, gaps)
  {
    assert ([w] + words)[1..] == words;
    assert ([g] + gaps)[1..] == gaps;
  }

  /** A text that starts with white space and then has a field cannot have
      an empty gap before that field. */
  lemma GapBeforeField(rest: string, g: string, words: seq<string>, gaps: seq<string>)
    requires |gaps| == |words| && words != [] && words[0] != [] && NoSpace(words[0])
    requires rest == g + Spaced(words, gaps) && rest != [] && IsSpace(rest[0])
    ensures g != []
  {
  }

  /** The fields of a text with no leading white space: its first word,
      then the fields of what follows it. */
  lemma FieldsFront(t: string)
    requires t != [] && !IsSpace(t[0])
    ensures var w := Word(t);
      (|w| >= 1 && t == w + t[|w|..] && Fields(t) == [w] + Fields(t[|w|..])
       && (t[|w|..] != [] ==> IsSpace(t[|w|..][0])))
  {
    var w := Word(t);
    assert TrimStart(t) == t;
    assert t == t[..|w|] + t[|w|..];
  }

  /** Regrouping `lead + (w + (g + x))`. */
  lemma Regroup(s: string, lead: string, w: string, rest: string, g: string, x: string)
    requires s == lead + (w + rest) && rest == g + x
    ensures s == lead + (w + g + x)
  {
    assert w + (g + x) == w + g + x;
  }

  /** The white space before the first field. */
  function Lead(s: string): (lead: string)
    ensures AllSpace(lead) && s == lead + TrimStart(s)
  {
    TrimStartDrops(s);
    s[..|s| - |TrimStart(s)|]
  }

  /** The white space after each field of `s.split()`. */
  function GapsOf(s: string): seq<string>
    decreases |s|
  {
    var t := TrimStart(s);
    if t == [] then []
    else
      var rest := t[|Word(t)|..];
      [Lead(rest)] + GapsOf(rest)
  }

  /** Every text is white space, then its fields separated by runs of white
      space, then white space; with FieldsOfSpaced this fixes `s.split()`. */
  lemma {:induction false} SpacedFields(s: string)
    ensures var gaps := GapsOf(s);
      |gaps| == |Fields(s)| && AreGaps(gaps) && s == Lead(s) + Spaced(Fields(s), gaps)
    decreases |s|
  {
    var t := TrimStart(s);
    var lead := Lead(s);
    FieldsSkipLead(lead, t);
    if t == [] {
      assert Fields(s) == [];
      assert s == lead + Spaced([], []);
    } else {
      FieldsFront(t);
      var w := Word(t);
      var rest := t[|w|..];
      var fs := Fields(rest);
      SpacedFields(rest);
      var g, gaps := Lead(rest), GapsOf(rest);
      if fs != [] {
        GapBeforeField(rest, g, fs, gaps);
      }
      var all := [g] + gaps;
      assert GapsOf(s) == all;
      assert all[1..] == gaps;
      assert AreGaps(all);
      assert Fields(s) == [w] + fs;
      SpacedCons(w, g, fs, gaps);
      Regroup(s, lead, w, rest, g, Spaced(fs, gaps));
    }
  }

  /** Words and gaps ending in a word end in a character that is not white
      space. */
  lemma {:induction false} SpacedEndsInWord(words: seq<string>, gaps: seq<string>)
    requires AreWords(words) && words != [] && |gaps| == |words| && gaps[|gaps| - 1] == []
    ensures var x := Spaced(words, gaps); x != [] && !IsSpace(x[|x| - 1])
    decreases |words|
  {
    var w, g := words[0], gaps[0];
    var rest := Spaced(words[1..], gaps[1..]);
    if |words| == 1 {
      assert rest == [];
      assert Spaced(words, gaps) == w + g + rest == w;
    } else {
      SpacedEndsInWord(words[1..], gaps[1..]);
    }
  }

  /** Words and gaps without line breaks make a text without line breaks. */
  lemma {:induction false} SpacedOneLine(words: seq<string>, gaps: seq<string>)
    requires AreWords(words) && |gaps| == |words|
    requires forall i :: 0 <= i < |gaps| ==> '\n' !in gaps[i]
    ensures '\n' !in Spaced(words, gaps)
    decreases |words|
  {
    if words != [] {
      SpacedOneLine(words[1..], gaps[1..]);
      assert IsSpace('\n');
      assert '\n' !in words[0];
      assert '\n' !in gaps[0];
    }
  }

  /** Trailing white space after a character that is not white space is
      exactly what TrimEnd removes. */
  lemma {:induction false} TrimEndPadding(x: string, t: string)
    requires x != [] && !IsSpace(x[|x| - 1]) && AllSpace(t)
    ensures TrimEnd(x + t) == x
    decreases |t|
  {
    if t == [] {
      assert x + t == x;
    } else {
      var u := t[..|t| - 1];
      assert (x + t)[..|x + t| - 1] == x + u;
      TrimEndPadding(x, u);
    }
  }

  // ---------------------------------------------------------------------
  // str.lower() and list comprehensions
  // ---------------------------------------------------------------------

  /** Lower-case of one character; only ASCII letters change. */
  function LowerChar(c: char): char
  {
    if 'A' <= c <= 'Z' then (c as int + 32) as char else c
  }

  /** `s.lower()`, restricted to ASCII letters. */
  function Lower(s: string): (r: string)
    ensures |r| == |s|
    ensures forall i :: 0 <= i < |s| ==>
      if 'A' <= s[i] <= 'Z' then r[i] as int == s[i] as int + 32 else r[i] == s[i]
  {
    seq(|s|, i requires 0 <= i < |s| => LowerChar(s[i]))
  }

  /** `a` is `b` with some elements left out, order kept (matched from the end). */
  predicate IsSubsequence<T(==)>(a: seq<T>, b: seq<T>)
    decreases |b|
  {
    if a == [] then true
    else if b == [] then false
    else if a[|a| - 1] == b[|b| - 1] then IsSubsequence(a[..|a| - 1], b[..|b| - 1])
    else IsSubsequence(a, b[..|b| - 1])
  }

  /** Python's `[x for x in xs if keep(x)]`: exactly the elements of `xs` that
      `keep` accepts, in the order of `xs`. */
  function Filter<T(==,!new)>(xs: seq<T>, keep: T -> bool): (r: seq<T>)
    ensures |r| <= |xs|
    ensures forall x :: x in r <==> x in xs && keep(x)
    ensures forall x :: multiset(r)[x] == if keep(x) then multiset(xs)[x] else 0
    ensures IsSubsequence(r, xs)
  {
    if xs == [] then []
    else
      var init := Filter(xs[..|xs| - 1], keep);
      var last := xs[|xs| - 1];
      assert xs == xs[..|xs| - 1] + [last];
      if keep(last) then
        var r := init + [last];
        assert r[..|r| - 1] == init;
        r
      else
        assert init != [] ==> init[|init| - 1] in init;
        init
  }

  /** Python's `[p for p in patterns if p in text]`. */
  function Present(patterns: seq<string>, text: string): (r: seq<string>)
    ensures forall p :: p in r <==> p in patterns && Contains(text, p)
    ensures forall p :: multiset(r)[p] == if Contains(text, p) then multiset(patterns)[p] else 0
    ensures IsSubsequence(r, patterns)
  {
    Filter(patterns, p => Contains(text, p))
  }

  /** Some pattern is present exactly when one of them occurs in `text`. */
  lemma PresentBounds(patterns: seq<string>, text: string)
    ensures Present(patterns, text) != [] <==> exists p :: p in patterns && Contains(text, p)
    ensures |Present(patterns, text)| <= |patterns|
  {
    var r := Present(patterns, text);
    if r != [] {
      assert r[0] in r;
    }
  }

  /** The first of `patterns`, in list order, that occurs in `text`. */
  function FirstOccurring(patterns: seq<string>, text: string): (r: Option<string>)
    ensures r.None? <==> forall k :: 0 <= k < |patterns| ==> !Contains(text, patterns[k])
    ensures r.Some? ==> r.value in patterns && Contains(text, r.value)
  {
    FirstWhere(patterns, p => Contains(text, p))
  }

  /** Scanning in order, the first pattern that occurs is `patterns[j]`. */
  lemma FirstOccurringAt(patterns: seq<string>, text: string, j: int)
    requires 0 <= j < |patterns| && Contains(text, patterns[j])
    requires forall k :: 0 <= k < j ==> !Contains(text, patterns[k])
    ensures FirstOccurring(patterns, text) == Some(patterns[j])
  {
    var p := (p: string) => Contains(text, p);
    assert FirstAt(patterns, p, j);
    var r := FirstWhere(patterns, p);
  }

  /** Python's `[c for c in expected if c not in seen]`. */
  function Missing<T(==,!new)>(expected: seq<T>, seen: seq<T>): (r: seq<T>)
    ensures forall c :: c in r <==> c in expected && c !in seen
    ensures forall c :: multiset(r)[c] == if c in seen then 0 else multiset(expected)[c]
    ensures IsSubsequence(r, expected)
    ensures r == [] <==> forall c :: c in expected ==> c in seen
  {
    var r := Filter(expected, c => c !in seen);
    assert r != [] ==> r[0] in r;
    r
  }

  /** Nothing has been seen, so every expected element is missing. */
  lemma {:induction false} MissingFromNothing<T(!new)>(expected: seq<T>)
    ensures Missing(expected, []) == expected
  {
    if expected != [] {
      MissingFromNothing(expected[..|expected| - 1]);
      assert expected == expected[..|expected| - 1] + [expected[|expected| - 1]];
    }
  }

  /** The first element of `xs` that `p` accepts, if any: what a loop over
      `xs` that returns at the first accepted element finds, as the service
      scan (validate_system.py:75-77) and the placeholder scan
      (validate_system.py:260-262) do. */
  function FirstWhere<T(==)>(xs: seq<T>, p: T -> bool): (r: Option<T>)
    ensures r.None? <==> forall i :: 0 <= i < |xs| ==> !p(xs[i])
    ensures r.Some? ==> exists i :: FirstAt(xs, p, i) && xs[i] == r.value
  {
    if xs == [] then None
    else if p(xs[0]) then
      assert FirstAt(xs, p, 0);
      Some(xs[0])
    else
      var r := FirstWhere(xs[1..], p);
      if r.Some? then
        var i :| FirstAt(xs[1..], p, i) && xs[1..][i] == r.value;
        assert FirstAt(xs, p, i + 1);
        r
      else
        r
  }

  /** `xs[i]` is the first element of `xs` that `p` accepts. */
  predicate FirstAt<T>(xs: seq<T>, p: T -> bool, i: int)
  {
    0 <= i < |xs| && p(xs[i]) && forall j :: 0 <= j < i ==> !p(xs[j])
  }
}
