/** The pieces of JavaScript's String API that the converter uses:
    `trim`, `toUpperCase`, `toLowerCase`, `startsWith`, `endsWith`, `includes`
    and the first field of `split`. Strings are sequences of code points. */
module Text {

  /** ECMAScript's WhiteSpace and LineTerminator code points, the set that
      `String.prototype.trim` and `parseFloat` skip. */
  const WhiteSpace: set<char> := {
    '\t', '\n', '\U{000B}', '\U{000C}', '\r', ' ', '\U{00A0}', '\U{1680}',
    '\U{2000}', '\U{2001}', '\U{2002}', '\U{2003}', '\U{2004}', '\U{2005}',
    '\U{2006}', '\U{2007}', '\U{2008}', '\U{2009}', '\U{200A}',
    '\U{2028}', '\U{2029}', '\U{202F}', '\U{205F}', '\U{3000}', '\U{FEFF}'
  }

  predicate IsSpace(c: char)
  {
    c in WhiteSpace
  }

  /** Every code point of `s` from index `lo` up to `hi` is white space. */
  predicate SpaceBetween(s: string, lo: int, hi: int)
    requires 0 <= lo <= hi <= |s|
  {
    forall i :: lo <= i < hi ==> IsSpace(s[i])
  }

  /** The index of the first code point at or after `i` that is not white
      space, or `|s|`. */
  function SkipSpace(s: string, i: nat): (j: nat)
    requires i <= |s|
    ensures i <= j <= |s|
    decreases |s| - i
  {
    if i < |s| && IsSpace(s[i]) then SkipSpace(s, i + 1) else i
  }

  /** The index just after the last code point before `j` that is not white
      space, or 0. */
  function SkipSpaceBack(s: string, j: nat): (i: nat)
    requires j <= |s|
    ensures i <= j
  {
    if j > 0 && IsSpace(s[j - 1]) then SkipSpaceBack(s, j - 1) else j
  }

  lemma {:induction false} SkipSpaceShape(s: string, i: nat)
    requires i <= |s|
    ensures SpaceBetween(s, i, SkipSpace(s, i))
    ensures SkipSpace(s, i) < |s| ==> !IsSpace(s[SkipSpace(s, i)])
    decreases |s| - i
  {
    if i < |s| && IsSpace(s[i]) {
      SkipSpaceShape(s, i + 1);
    }
  }

  lemma {:induction false} SkipSpaceBackShape(s: string, j: nat)
    requires j <= |s|
    ensures SpaceBetween(s, SkipSpaceBack(s, j), j)
    ensures SkipSpaceBack(s, j) > 0 ==> !IsSpace(s[SkipSpaceBack(s, j) - 1])
  {
    if j > 0 && IsSpace(s[j - 1]) {
      SkipSpaceBackShape(s, j - 1);
    }
  }

  /** `s` with its leading white space removed. */
  function TrimStart(s: string): string
  {
    s[SkipSpace(s, 0)..]
  }

  /** `s` with its trailing white space removed. */
  function TrimEnd(s: string): string
  {
    s[..SkipSpaceBack(s, |s|)]
  }

  /** `String.prototype.trim`. */
  function Trim(s: string): string
  {
    TrimEnd(TrimStart(s))
  }

  /** A trimmed string neither starts nor ends with white space. */
  lemma TrimEdges(s: string)
    ensures |Trim(s)| > 0 ==> !IsSpace(Trim(s)[0]) && !IsSpace(Trim(s)[|Trim(s)| - 1])
  {
    var lo := SkipSpace(s, 0);
    var t := s[lo..];
    SkipSpaceShape(s, 0);
    SkipSpaceBackShape(t, |t|);
    var r := Trim(s);
    if |r| > 0 {
      assert r[0] == t[0];
    }
  }

  /** Only white space is cut from the front, and what is left does not start
      with white space. */
  lemma TrimStartShape(s: string)
    ensures |TrimStart(s)| <= |s| && TrimStart(s) == s[|s| - |TrimStart(s)|..]
    ensures SpaceBetween(s, 0, |s| - |TrimStart(s)|)
    ensures |TrimStart(s)| > 0 ==> !IsSpace(TrimStart(s)[0])
  {
    SkipSpaceShape(s, 0);
  }

  /** Cutting the leading white space twice is cutting it once. */
  lemma TrimStartIdempotent(s: string)
    ensures TrimStart(TrimStart(s)) == TrimStart(s)
  {
    TrimStartShape(s);
    var t := TrimStart(s);
    assert SkipSpace(t, 0) == 0;
    assert t[0..] == t;
  }

  /** Only white space is cut from the end, and what is left does not end
      with white space. */
  lemma TrimEndShape(s: string)
    ensures |TrimEnd(s)| <= |s| && TrimEnd(s) == s[..|TrimEnd(s)|]
    ensures SpaceBetween(s, |TrimEnd(s)|, |s|)
    ensures |TrimEnd(s)| > 0 ==> !IsSpace(TrimEnd(s)[|TrimEnd(s)| - 1])
  {
    SkipSpaceBackShape(s, |s|);
  }

  /** The trimmed string is the part of `s` between its leading and its
      trailing white space, and everything cut away is white space. */
  lemma TrimShape(s: string)
    ensures var lo := SkipSpace(s, 0);
            var r := Trim(s);
            lo + |r| <= |s| && r == s[lo..lo + |r|] && SpaceBetween(s, 0, lo) && SpaceBetween(s, lo + |r|, |s|)
  {
    var lo := SkipSpace(s, 0);
    var t := s[lo..];
    var hi := SkipSpaceBack(t, |t|);
    SkipSpaceShape(s, 0);
    SkipSpaceBackShape(t, |t|);
    assert Trim(s) == s[lo..lo + hi];
    assert forall k :: lo + hi <= k < |s| ==> s[k] == t[k - lo];
  }

  /** A text that neither starts nor ends with white space is its own trim. */
  lemma TrimUnpadded(s: string)
    requires |s| > 0 ==> !IsSpace(s[0]) && !IsSpace(s[|s| - 1])
    ensures Trim(s) == s
  {
    assert TrimStart(s) == s;
    if |s| > 0 {
      assert TrimEnd(s) == s;
    }
  }

  /** One blank on either side of such a text is trimmed away. */
  lemma TrimPadded(w: string)
    requires |w| > 0 && !IsSpace(w[0]) && !IsSpace(w[|w| - 1])
    ensures Trim(" " + w + " ") == w
  {
    var p := " " + w + " ";
    assert p[0] == ' ' && p[1] == w[0];
    assert SkipSpace(p, 1) == 1;
    assert TrimStart(p) == w + " ";
    var q := w + " ";
    assert q[|q| - 1] == ' ' && q[|q| - 2] == w[|w| - 1];
    assert SkipSpaceBack(q, |q| - 1) == |q| - 1;
    assert q[..|w|] == w;
  }

  /** Trimming twice is trimming once. */
  lemma TrimIdempotent(s: string)
    ensures Trim(Trim(s)) == Trim(s)
  {
    TrimEdges(s);
    TrimUnpadded(Trim(s));
  }

  /** The result of upper-casing one code point (`toUpperCase` on a one-character
      string). Exact for the Basic Latin and Latin-1 Supplement blocks, including
      the one-to-two mapping of U+00DF to "SS"; other code points are kept. */
  function UpperChar(c: char): string
  {
    var n := c as int;
    if ('a' <= c <= 'z') || (0xE0 <= n <= 0xFE && n != 0xF7) then [(n - 32) as char]
    else if n == 0xFF then ['\U{0178}']
    else if n == 0xB5 then ['\U{039C}']
    else if n == 0xDF then "SS"
    else [c]
  }

  /** A code point that upper-casing leaves as it is. */
  predicate IsUpperFixed(c: char)
  {
    UpperChar(c) == [c]
  }

  /** `String.prototype.toUpperCase`: no code point gets lost, and every
      code point of the result is one that upper-casing keeps. */
  function ToUpper(s: string): (r: string)
    ensures |r| >= |s|
    ensures forall i :: 0 <= i < |r| ==> IsUpperFixed(r[i])
  {
    if s == [] then []
    else
      var u := UpperChar(s[0]);
      assert forall i :: 0 <= i < |u| ==> IsUpperFixed(u[i]);
      u + ToUpper(s[1..])
  }

  /** The lower-case form of one code point, exact for U+0000..U+00FF. */
  function LowerChar(c: char): char
  {
    var n := c as int;
    if ('A' <= c <= 'Z') || (0xC0 <= n <= 0xDE && n != 0xD7) then (n + 32) as char else c
  }

  /** `String.prototype.toLowerCase`: one code point for one, each of them
      already in lower case. */
  function ToLower(s: string): (r: string)
    ensures |r| == |s|
    ensures forall i :: 0 <= i < |r| ==> LowerChar(r[i]) == r[i]
  {
    seq(|s|, i requires 0 <= i < |s| => LowerChar(s[i]))
  }

  /** Lower-casing neither makes nor removes white space. */
  lemma LowerCharKeepsSpace(c: char)
    ensures IsSpace(LowerChar(c)) == IsSpace(c)
  {
  }

  lemma {:induction false} SkipSpaceOfLower(s: string, i: nat)
    requires i <= |s|
    ensures SkipSpace(ToLower(s), i) == SkipSpace(s, i)
    decreases |s| - i
  {
    if i < |s| {
      LowerCharKeepsSpace(s[i]);
      if IsSpace(s[i]) {
        SkipSpaceOfLower(s, i + 1);
      }
    }
  }

  lemma {:induction false} SkipSpaceBackOfLower(s: string, j: nat)
    requires j <= |s|
    ensures SkipSpaceBack(ToLower(s), j) == SkipSpaceBack(s, j)
  {
    if j > 0 {
      LowerCharKeepsSpace(s[j - 1]);
      if IsSpace(s[j - 1]) {
        SkipSpaceBackOfLower(s, j - 1);
      }
    }
  }

  /** Trimming and lower-casing commute: `s.toLowerCase().trim()` is
      `s.trim().toLowerCase()`. */
  lemma TrimOfLower(s: string)
    ensures Trim(ToLower(s)) == ToLower(Trim(s))
  {
    var lo := SkipSpace(s, 0);
    SkipSpaceOfLower(s, 0);
    var t := s[lo..];
    assert ToLower(s)[lo..] == ToLower(t);
    SkipSpaceBackOfLower(t, |t|);
    var hi := SkipSpaceBack(t, |t|);
    assert ToLower(t)[..hi] == ToLower(t[..hi]);
  }

  lemma {:induction false} ToUpperAppend(a: string, b: string)
    ensures ToUpper(a + b) == ToUpper(a) + ToUpper(b)
  {
    if a != [] {
      assert (a + b)[0] == a[0];
      assert (a + b)[1..] == a[1..] + b;
      ToUpperAppend(a[1..], b);
      calc {
        ToUpper(a + b);
        UpperChar(a[0]) + ToUpper(a[1..] + b);
        UpperChar(a[0]) + (ToUpper(a[1..]) + ToUpper(b));
        (UpperChar(a[0]) + ToUpper(a[1..])) + ToUpper(b);
        ToUpper(a) + ToUpper(b);
      }
    } else {
      assert a + b == b;
    }
  }

  /** A string made of code points that upper-casing keeps is its own upper case. */
  lemma {:induction false} ToUpperOfFixed(s: string)
    requires forall i :: 0 <= i < |s| ==> IsUpperFixed(s[i])
    ensures ToUpper(s) == s
  {
    if s != [] {
      ToUpperOfFixed(s[1..]);
      assert s == [s[0]] + s[1..];
    }
  }

  /** Upper-casing is idempotent. */
  lemma ToUpperIdempotent(s: string)
    ensures ToUpper(ToUpper(s)) == ToUpper(s)
  {
    ToUpperOfFixed(ToUpper(s));
  }

  /** Upper-casing ignores case: a string and its lower-case form have the same
      upper-case form. */
  lemma {:induction false} ToUpperOfToLower(s: string)
    ensures ToUpper(ToLower(s)) == ToUpper(s)
  {
    if s != [] {
      assert ToLower(s) == [LowerChar(s[0])] + ToLower(s[1..]);
      assert UpperChar(LowerChar(s[0])) == UpperChar(s[0]);
      ToUpperOfToLower(s[1..]);
    }
  }

  /** `s.startsWith(prefix)`. */
  predicate StartsWith(s: string, prefix: string)
  {
    |prefix| <= |s| && s[..|prefix|] == prefix
  }

  /** `s.endsWith(suffix)`. */
  predicate EndsWith(s: string, suffix: string)
  {
    |suffix| <= |s| && s[|s| - |suffix|..] == suffix
  }

  /** `s.includes(part)`: only a part no longer than the text is found. */
  predicate Contains(s: string, part: string): (b: bool)
    ensures b ==> |part| <= |s|
  {
    StartsWith(s, part) || (|s| > 0 && Contains(s[1..], part))
  }

  /** A text contains every part found at some offset of it. */
  lemma {:induction false} ContainsAt(s: string, i: nat, part: string)
    requires i + |part| <= |s| && s[i..i + |part|] == part
    ensures Contains(s, part)
  {
    if i > 0 {
      assert s[1..][i - 1..i - 1 + |part|] == s[i..i + |part|];
      ContainsAt(s[1..], i - 1, part);
    }
  }

  /** A text that contains a part has it at some offset. */
  lemma {:induction false} ContainsFound(s: string, part: string)
    requires Contains(s, part)
    ensures exists i :: 0 <= i <= |s| && StartsWith(s[i..], part)
  {
    if StartsWith(s, part) {
      assert s[0..] == s;
    } else {
      ContainsFound(s[1..], part);
      var j :| 0 <= j <= |s| - 1 && StartsWith(s[1..][j..], part);
      assert s[1..][j..] == s[j + 1..];
    }
  }

  /** A text that lacks one of a part's code points does not contain the part. */
  lemma {:induction false} ContainsNeedsChar(s: string, part: string, c: char)
    requires c in part && c !in s
    ensures !Contains(s, part)
  {
    if |s| > 0 {
      ContainsNeedsChar(s[1..], part, c);
    }
  }

  /** `s.split(sep)[0]`. */
  function BeforeFirst(s: string, sep: char): (r: string)
    ensures |r| <= |s|
  {
    if s == [] || s[0] == sep then [] else [s[0]] + BeforeFirst(s[1..], sep)
  }

  /** The first field is the longest prefix of `s` without `sep`: a prefix,
      free of `sep`, and followed by `sep` unless it is all of `s`. */
  lemma {:induction false} BeforeFirstShape(s: string, sep: char)
    ensures sep !in BeforeFirst(s, sep)
    ensures StartsWith(s, BeforeFirst(s, sep))
    ensures |BeforeFirst(s, sep)| < |s| ==> s[|BeforeFirst(s, sep)|] == sep
  {
    if s != [] && s[0] != sep {
      BeforeFirstShape(s[1..], sep);
      var r := BeforeFirst(s, sep);
      assert r == [s[0]] + BeforeFirst(s[1..], sep);
      assert s[..|r|] == [s[0]] + s[1..][..|r| - 1];
    }
  }

  /** The first field of `a + sep + b` is `a` when `a` holds no separator. */
  lemma {:induction false} BeforeFirstOfJoin(a: string, sep: char, b: string)
    requires sep !in a
    ensures BeforeFirst(a + [sep] + b, sep) == a
  {
    var s := a + [sep] + b;
    if a != [] {
      assert s[0] == a[0] && s[1..] == a[1..] + [sep] + b;
      BeforeFirstOfJoin(a[1..], sep, b);
      assert a == [a[0]] + a[1..];
    }
  }

  /** A string without the separator is its own first field. */
  lemma BeforeFirstWithout(s: string, sep: char)
    requires sep !in s
    ensures BeforeFirst(s, sep) == s
  {
  }
}
