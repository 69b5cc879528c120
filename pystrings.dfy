/** The Python string operations the modelled code relies on, with Python's semantics:
    `str.strip`, `str.split()` (on runs of white space), `str.split(sep)`, `sep.join`, `str.replace`,
    `in` on strings, `str.rfind`, `str.upper`/`str.lower` (on ASCII letters), `str(int)` and `int(str)`. */
module PyStrings {
  import opened Wrappers

  /** The characters for which Python's `str.isspace()` is true. */
  predicate IsSpace(c: char) {
    || c == ' ' || ('\t' <= c <= '\r')
    || ('\U{1C}' <= c <= '\U{1F}') || c == '\U{85}' || c == '\U{A0}' || c == '\U{1680}'
    || ('\U{2000}' <= c <= '\U{200A}') || c == '\U{2028}' || c == '\U{2029}'
    || c == '\U{202F}' || c == '\U{205F}' || c == '\U{3000}'
  }

  // ---------- stripping -------------------------------------------------------------------

  /** `str.lstrip()`: the string without its leading white space. */
  function LStrip(s: string): string {
    if |s| > 0 && IsSpace(s[0]) then LStrip(s[1..]) else s
  }

  /** `str.rstrip()`: the string without its trailing white space. */
  function RStrip(s: string): string {
    if |s| > 0 && IsSpace(s[|s| - 1]) then RStrip(s[..|s| - 1]) else s
  }

  /** Left-stripping drops a leading run of white space and stops at the first other character. */
  lemma {:induction false} LStripSpec(s: string)
    ensures |LStrip(s)| <= |s| && LStrip(s) == s[|s| - |LStrip(s)|..]
    ensures |LStrip(s)| > 0 ==> !IsSpace(LStrip(s)[0])
    ensures forall k :: 0 <= k < |s| - |LStrip(s)| ==> IsSpace(s[k])
  {
    if |s| > 0 && IsSpace(s[0]) {
      var t := s[1..];
      LStripSpec(t);
      var l := LStrip(t);
      assert LStrip(s) == l;
      assert s[|s| - |l|..] == t[|t| - |l|..];
      forall k | 0 <= k < |s| - |l|
        ensures IsSpace(s[k])
      {
        if k > 0 {
          assert s[k] == t[k - 1];
        }
      }
    } else {
      assert LStrip(s) == s && s[0..] == s;
    }
  }

  /** Right-stripping drops a trailing run of white space and stops at the last other character. */
  lemma {:induction false} RStripSpec(s: string)
    ensures |RStrip(s)| <= |s| && RStrip(s) == s[..|RStrip(s)|]
    ensures |RStrip(s)| > 0 ==> !IsSpace(RStrip(s)[|RStrip(s)| - 1])
    ensures forall k :: |RStrip(s)| <= k < |s| ==> IsSpace(s[k])
  {
    if |s| > 0 && IsSpace(s[|s| - 1]) {
      var t := s[..|s| - 1];
      RStripSpec(t);
      var r := RStrip(t);
      assert RStrip(s) == r;
      assert s[..|r|] == t[..|r|];
      forall k | |r| <= k < |s|
        ensures IsSpace(s[k])
      {
        if k < |s| - 1 {
          assert s[k] == t[k];
        }
      }
    } else {
      assert RStrip(s) == s && s[..|s|] == s;
    }
  }

  /** `str.rstrip(c)` for one character. */
  function RStripChar(s: string, c: char): (r: string)
    ensures |r| <= |s|
  {
    if |s| > 0 && s[|s| - 1] == c then RStripChar(s[..|s| - 1], c) else s
  }

  /** Stripping `c` on the right drops a trailing run of `c` and stops at another character. */
  lemma {:induction false} RStripCharSpec(s: string, c: char)
    ensures |RStripChar(s, c)| <= |s| && RStripChar(s, c) == s[..|RStripChar(s, c)|]
    ensures |RStripChar(s, c)| > 0 ==> RStripChar(s, c)[|RStripChar(s, c)| - 1] != c
    ensures forall k :: |RStripChar(s, c)| <= k < |s| ==> s[k] == c
    ensures |s| > 0 && s[0] != c ==> |RStripChar(s, c)| > 0
  {
    if |s| > 0 && s[|s| - 1] == c {
      var t := s[..|s| - 1];
      RStripCharSpec(t, c);
      var r := RStripChar(t, c);
      assert s[..|r|] == t[..|r|];
      forall k | |r| <= k < |s|
        ensures s[k] == c
      {
        if k < |s| - 1 {
          assert s[k] == t[k];
        }
      }
    } else {
      assert s[..|s|] == s;
    }
  }

  /** Stripping a string that ends in a part not made only of `c` strips that part. */
  lemma {:induction false} RStripCharConcat(a: string, b: string, c: char)
    requires |b| > 0 && b[0] != c
    ensures RStripChar(a + b, c) == a + RStripChar(b, c)
  {
    var ab := a + b;
    if b[|b| - 1] == c {
      assert |b| > 1;
      var b' := b[..|b| - 1];
      assert ab[|ab| - 1] == c && ab[..|ab| - 1] == a + b';
      RStripCharConcat(a, b', c);
    }
  }

  /** Python's `str.strip()`. */
  function Strip(s: string): string {
    RStrip(LStrip(s))
  }

  /** Where the stripped string starts: after the leading white space. */
  function StripStart(s: string): nat {
    if |s| > 0 && IsSpace(s[0]) then 1 + StripStart(s[1..]) else 0
  }

  /** The stripped string is the slice of the original from `StripStart`, with no white space at
      either end, and everything cut off on either side is white space. */
  lemma StripSpec(s: string)
    ensures StripStart(s) + |Strip(s)| <= |s|
    ensures Strip(s) == s[StripStart(s)..StripStart(s) + |Strip(s)|]
    ensures forall k :: 0 <= k < StripStart(s) ==> IsSpace(s[k])
    ensures forall k :: StripStart(s) + |Strip(s)| <= k < |s| ==> IsSpace(s[k])
    ensures |Strip(s)| > 0 ==> !IsSpace(Strip(s)[0]) && !IsSpace(Strip(s)[|Strip(s)| - 1])
  {
    var l := LStrip(s);
    LStripSpec(s);
    RStripSpec(l);
    StripStartSpec(s);
  }

  lemma {:induction false} StripStartSpec(s: string)
    ensures StripStart(s) == |s| - |LStrip(s)|
  {
    if |s| > 0 && IsSpace(s[0]) {
      StripStartSpec(s[1..]);
    }
  }

  /** A string without white space at either end is its own strip. */
  lemma StripUnchanged(s: string)
    requires |s| > 0 ==> !IsSpace(s[0]) && !IsSpace(s[|s| - 1])
    ensures Strip(s) == s
  {
  }

  // ---------- splitting and joining -------------------------------------------------------

  /** The length of the leading run of non-space characters. */
  function WordLength(s: string): (n: nat)
    ensures n <= |s|
    ensures forall k :: 0 <= k < n ==> !IsSpace(s[k])
    ensures n < |s| ==> IsSpace(s[n])
  {
    if |s| == 0 || IsSpace(s[0]) then 0 else 1 + WordLength(s[1..])
  }

  /** Python's `str.split()`: the maximal runs of non-space characters, in order. */
  function Words(s: string): (r: seq<string>)
    ensures forall i :: 0 <= i < |r| ==> |r[i]| > 0
    ensures forall i, k :: 0 <= i < |r| && 0 <= k < |r[i]| ==> !IsSpace(r[i][k])
    decreases |s|
  {
    if |s| == 0 then []
    else if IsSpace(s[0]) then Words(s[1..])
    else
      var n := WordLength(s);
      [s[..n]] + Words(s[n..])
  }

  /** Python's `str.split(sep)` for a one-character separator: always at least one part. */
  function SplitOn(s: string, sep: char): (r: seq<string>)
    ensures |r| >= 1
    ensures forall i :: 0 <= i < |r| ==> sep !in r[i]
  {
    if |s| == 0 then [""]
    else
      var rest := SplitOn(s[1..], sep);
      if s[0] == sep then [""] + rest else [[s[0]] + rest[0]] + rest[1..]
  }

  /** Python's `sep.join(parts)`. */
  function Join(parts: seq<string>, sep: string): string {
    if |parts| == 0 then ""
    else if |parts| == 1 then parts[0]
    else parts[0] + sep + Join(parts[1..], sep)
  }

  /** The first part of a join of two or more parts, then the separator and the join of the rest. */
  lemma JoinCons(parts: seq<string>, sep: string)
    requires |parts| > 1
    ensures Join(parts, sep) == parts[0] + (sep + Join(parts[1..], sep))
  {
    var j := Join(parts[1..], sep);
    assert (parts[0] + sep) + j == parts[0] + (sep + j);
  }

  /** Joining the parts of a split with the separator gives the original string back. */
  lemma {:induction false} JoinSplitOn(s: string, sep: char)
    ensures Join(SplitOn(s, sep), [sep]) == s
  {
    if |s| > 0 {
      var rest := SplitOn(s[1..], sep);
      JoinSplitOn(s[1..], sep);
      if s[0] == sep {
        assert SplitOn(s, sep) == [""] + rest;
        assert s == [s[0]] + s[1..];
      } else {
        assert s == [s[0]] + s[1..];
        if |rest| > 1 {
          assert Join(rest, [sep]) == rest[0] + [sep] + Join(rest[1..], [sep]);
        }
      }
    }
  }

  /** Splitting a string whose first part is `p` yields `p` glued to the first part of the tail. */
  lemma {:induction false} SplitOnPrefix(p: string, tail: string, sep: char)
    requires sep !in p
    ensures SplitOn(p + tail, sep) == [p + SplitOn(tail, sep)[0]] + SplitOn(tail, sep)[1..]
  {
    if |p| > 0 {
      SplitOnPrefix(p[1..], tail, sep);
      var pt := p + tail;
      assert pt[0] == p[0] != sep;
      assert pt[1..] == p[1..] + tail;
      var t := SplitOn(tail, sep);
      var rest := SplitOn(pt[1..], sep);
      assert rest == [p[1..] + t[0]] + t[1..];
      assert SplitOn(pt, sep) == [[pt[0]] + rest[0]] + rest[1..];
      assert [pt[0]] + rest[0] == p + t[0];
      assert rest[1..] == t[1..];
    } else {
      var t := SplitOn(tail, sep);
      assert p + tail == tail;
      assert p + t[0] == t[0];
      assert [t[0]] + t[1..] == t;
    }
  }

  /** Splitting the join of separator-free parts gives the parts back. */
  lemma {:induction false} SplitOnJoin(parts: seq<string>, sep: char)
    requires |parts| >= 1
    requires forall i :: 0 <= i < |parts| ==> sep !in parts[i]
    ensures SplitOn(Join(parts, [sep]), sep) == parts
  {
    if |parts| == 1 {
      SplitOnPrefix(parts[0], "", sep);
      assert parts[0] + "" == parts[0];
    } else {
      var tail := [sep] + Join(parts[1..], [sep]);
      assert Join(parts, [sep]) == parts[0] + tail;
      SplitOnPrefix(parts[0], tail, sep);
      SplitOnJoin(parts[1..], sep);
      assert tail[1..] == Join(parts[1..], [sep]);
      assert SplitOn(tail, sep) == [""] + parts[1..];
      assert parts[0] + "" == parts[0];
    }
  }

  /** Python's `s.count(c)` for one character. */
  function Count(s: string, c: char): nat {
    if |s| == 0 then 0 else (if s[0] == c then 1 else 0) + Count(s[1..], c)
  }

  /** A split has one part more than the string has separators. */
  lemma {:induction false} SplitOnCount(s: string, sep: char)
    ensures |SplitOn(s, sep)| == Count(s, sep) + 1
  {
    if |s| > 0 {
      SplitOnCount(s[1..], sep);
    }
  }

  /** Replacing one character by another moves the first one's count onto the second. */
  lemma {:induction false} ReplaceCount(s: string, a: char, b: char)
    requires a != b
    ensures Count(Replace(s, [a], [b]), b) == Count(s, a) + Count(s, b)
    ensures Count(Replace(s, [a], [b]), a) == 0
  {
    if |s| > 0 {
      ReplaceCount(s[1..], a, b);
      var r := Replace(s[1..], [a], [b]);
      if s[0] == a {
        assert [a] <= s;
        assert Replace(s, [a], [b]) == [b] + r;
      } else {
        assert !([a] <= s);
        assert Replace(s, [a], [b]) == [s[0]] + r;
      }
    }
  }

  /** A separator between two strings splits them apart: the parts of the whole are the parts of the
      left string followed by the parts of the right one. */
  lemma {:induction false} SplitOnConcat(a: string, b: string, sep: char)
    ensures SplitOn(a + [sep] + b, sep) == SplitOn(a, sep) + SplitOn(b, sep)
  {
    var s := a + [sep] + b;
    if |a| == 0 {
      assert s == [sep] + b && s[1..] == b;
    } else {
      assert s[0] == a[0] && s[1..] == a[1..] + [sep] + b;
      SplitOnConcat(a[1..], b, sep);
      var left := SplitOn(a[1..], sep);
      var rest := SplitOn(s[1..], sep);
      assert rest == left + SplitOn(b, sep);
      if a[0] != sep {
        assert rest[0] == left[0] && rest[1..] == left[1..] + SplitOn(b, sep);
      }
    }
  }

  /** Every character of every part of a split occurs in the split string. */
  lemma {:induction false} SplitOnChars(s: string, sep: char)
    ensures forall i, k :: 0 <= i < |SplitOn(s, sep)| && 0 <= k < |SplitOn(s, sep)[i]| ==>
              SplitOn(s, sep)[i][k] in s
  {
    if |s| > 0 {
      SplitOnChars(s[1..], sep);
      var rest := SplitOn(s[1..], sep);
      assert forall c :: c in s[1..] ==> c in s;
      if s[0] != sep {
        var r := SplitOn(s, sep);
        assert r[0] == [s[0]] + rest[0] && r[1..] == rest[1..];
        forall i, k | 0 <= i < |r| && 0 <= k < |r[i]|
          ensures r[i][k] in s
        {
          if i == 0 && k > 0 {
            assert r[i][k] == rest[0][k - 1];
          } else if i > 0 {
            assert r[i] == rest[i];
          }
        }
      }
    }
  }

  // ---------- searching and replacing -----------------------------------------------------

  /** Python's `sub in s`. */
  predicate Contains(s: string, sub: string)
    decreases |s|
  {
    sub <= s || (|s| > 0 && Contains(s[1..], sub))
  }

  /** Python's `s.endswith(suffix)`. */
  predicate EndsWith(s: string, suffix: string) {
    |suffix| <= |s| && s[|s| - |suffix|..] == suffix
  }

  /** Python's `s.rfind(c)`: the last index holding `c`, or -1. */
  function RFind(s: string, c: char): (r: int)
    ensures -1 <= r < |s|
    ensures r >= 0 ==> s[r] == c
    ensures forall k :: r < k < |s| ==> s[k] != c
  {
    if |s| == 0 then -1
    else if s[|s| - 1] == c then |s| - 1
    else RFind(s[..|s| - 1], c)
  }

  /** Python's `s.replace(pat, rep)`: every non-overlapping occurrence, scanning left to right. */
  function Replace(s: string, pat: string, rep: string): string
    requires |pat| > 0
    decreases |s|
  {
    if |s| < |pat| then s
    else if pat <= s then rep + Replace(s[|pat|..], pat, rep)
    else [s[0]] + Replace(s[1..], pat, rep)
  }

  /** For a one-character pattern, `replace` maps every character independently. */
  lemma {:induction false} ReplaceChar(s: string, a: char, b: char)
    ensures |Replace(s, [a], [b])| == |s|
    ensures forall i :: 0 <= i < |s| ==> Replace(s, [a], [b])[i] == if s[i] == a then b else s[i]
  {
    if |s| > 0 {
      ReplaceChar(s[1..], a, b);
    }
  }

  /** A prefix without the pattern's first character is copied unchanged. */
  lemma {:induction false} ReplaceSkip(m: string, t: string, pat: string, rep: string)
    requires |pat| > 0 && pat[0] !in m
    ensures Replace(m + t, pat, rep) == m + Replace(t, pat, rep)
  {
    if |m| > 0 {
      var mt := m + t;
      assert mt[0] == m[0] && mt[1..] == m[1..] + t;
      ReplaceSkip(m[1..], t, pat, rep);
      if |mt| < |pat| {
        assert Replace(t, pat, rep) == t;
      }
    } else {
      assert m + t == t;
    }
  }

  /** A string without the pattern's first character is left unchanged. */
  lemma ReplaceNone(s: string, pat: string, rep: string)
    requires |pat| > 0 && pat[0] !in s
    ensures Replace(s, pat, rep) == s
  {
    ReplaceSkip(s, "", pat, rep);
    assert s + "" == s;
  }

  /** A first character where the pattern does not start is copied. */
  lemma ReplaceMismatch(c: char, t: string, pat: string, rep: string)
    requires |pat| > 0 && !(pat <= [c] + t)
    ensures Replace([c] + t, pat, rep) == [c] + Replace(t, pat, rep)
  {
    var s := [c] + t;
    assert s[0] == c && s[1..] == t;
    if |s| < |pat| {
      assert Replace(t, pat, rep) == t;
    }
  }

  /** An occurrence of the pattern at the start is replaced. */
  lemma ReplaceMatch(t: string, pat: string, rep: string)
    requires |pat| > 0
    ensures Replace(pat + t, pat, rep) == rep + Replace(t, pat, rep)
  {
    var s := pat + t;
    assert pat <= s && s[|pat|..] == t;
  }

  /** After the position `RFind` reports, the character does not occur; when it reports -1, nowhere. */
  lemma RFindLast(s: string, c: char)
    ensures RFind(s, c) < 0 ==> c !in s
    ensures RFind(s, c) >= 0 ==> c !in s[RFind(s, c) + 1..]
  {
    var r := RFind(s, c);
    var rest := s[r + 1..];
    forall i | 0 <= i < |rest|
      ensures rest[i] != c
    {
      assert rest[i] == s[r + 1 + i];
    }
  }

  // ---------- letter case -----------------------------------------------------------------

  function UpperChar(c: char): char {
    if 'a' <= c <= 'z' then (c as int - 32) as char else c
  }

  function LowerChar(c: char): char {
    if 'A' <= c <= 'Z' then (c as int + 32) as char else c
  }

  /** `str.upper()` on ASCII letters. */
  function Upper(s: string): (r: string)
    ensures |r| == |s| && forall i :: 0 <= i < |s| ==> r[i] == UpperChar(s[i])
  {
    if |s| == 0 then "" else [UpperChar(s[0])] + Upper(s[1..])
  }

  /** `str.lower()` on ASCII letters. */
  function Lower(s: string): (r: string)
    ensures |r| == |s| && forall i :: 0 <= i < |s| ==> r[i] == LowerChar(s[i])
  {
    if |s| == 0 then "" else [LowerChar(s[0])] + Lower(s[1..])
  }

  /** A string without upper-case letters is its own lower case. */
  lemma LowerUnchanged(s: string)
    requires forall k :: 0 <= k < |s| ==> !('A' <= s[k] <= 'Z')
    ensures Lower(s) == s
  {
    assert forall k :: 0 <= k < |s| ==> Lower(s)[k] == s[k];
  }

  // ---------- words of a joined name -----------------------------------------------------

  /** A non-empty word of upper-case-stable characters without white space or underscores. */
  predicate IsPlainWord(w: string) {
    |w| > 0 && forall k :: 0 <= k < |w| ==> !IsSpace(w[k]) && w[k] != '_' && UpperChar(w[k]) == w[k]
  }

  /** A non-empty word of upper-case ASCII letters and digits is plain. */
  lemma PlainWordOf(w: string)
    requires |w| > 0 && forall k :: 0 <= k < |w| ==> 'A' <= w[k] <= 'Z' || '0' <= w[k] <= '9'
    ensures IsPlainWord(w)
  {
  }

  /** `Upper` character by character. */
  lemma UpperIs(s: string, up: string)
    requires |s| == |up| && forall k :: 0 <= k < |s| ==> UpperChar(s[k]) == up[k]
    ensures Upper(s) == up
  {
  }

  lemma UpperConcat(a: string, b: string)
    ensures Upper(a + b) == Upper(a) + Upper(b)
  {
    var u, v := Upper(a + b), Upper(a) + Upper(b);
    assert |u| == |v|;
    forall i | 0 <= i < |u|
      ensures u[i] == v[i]
    {
      if i < |a| {
        assert (a + b)[i] == a[i];
      } else {
        assert (a + b)[i] == b[i - |a|];
      }
    }
  }

  lemma ReplaceCharConcat(a: string, b: string, x: char, y: char)
    ensures Replace(a + b, [x], [y]) == Replace(a, [x], [y]) + Replace(b, [x], [y])
  {
    ReplaceChar(a + b, x, y);
    ReplaceChar(a, x, y);
    ReplaceChar(b, x, y);
    assert forall i :: 0 <= i < |a + b| ==> Replace(a + b, [x], [y])[i] == (Replace(a, [x], [y]) + Replace(b, [x], [y]))[i];
  }

  /** A plain word followed by a space and more text splits off as the first word. */
  lemma WordsCons(w: string, rest: string)
    requires IsPlainWord(w)
    ensures Words(w + " " + rest) == [w] + Words(rest)
  {
    var s := w + " " + rest;
    assert s[|w|] == ' ';
    var n := WordLength(s);
    assert n == |w|;
    assert s[..n] == w && s[n..] == " " + rest && (" " + rest)[1..] == rest;
  }

  /** A plain word on its own is a single word. */
  lemma WordsSingle(w: string)
    requires IsPlainWord(w)
    ensures Words(w) == [w]
  {
    var n := WordLength(w);
    assert n == |w|;
    assert w[..n] == w && w[n..] == "";
  }

  /** Upper-casing a joined name upper-cases each word (the separators are not letters). */
  lemma {:induction false} UpperJoin(raw: seq<string>, parts: seq<string>, sep: string)
    requires |raw| == |parts| && forall i :: 0 <= i < |raw| ==> Upper(raw[i]) == parts[i]
    requires sep == "_" || sep == " "
    ensures Upper(Join(raw, sep)) == Join(parts, sep)
  {
    if |raw| > 1 {
      var rawTail, partsTail := raw[1..], parts[1..];
      assert forall i :: 0 <= i < |rawTail| ==> Upper(rawTail[i]) == partsTail[i] by {
        assert forall i :: 0 <= i < |rawTail| ==> rawTail[i] == raw[i + 1] && partsTail[i] == parts[i + 1];
      }
      UpperJoin(rawTail, partsTail, sep);
      var j := Join(rawTail, sep);
      UpperSeparator(sep);
      UpperConcat(raw[0], sep + j);
      UpperConcat(sep, j);
      JoinCons(raw, sep);
      JoinCons(parts, sep);
    }
  }

  lemma UpperSeparator(sep: string)
    requires sep == "_" || sep == " "
    ensures Upper(sep) == sep
  {
    assert Upper(sep)[0] == UpperChar(sep[0]);
  }

  /** Turning the underscores of a joined name of plain words into spaces gives the space-joined name. */
  lemma {:induction false} ReplaceJoin(parts: seq<string>, sep: string)
    requires forall i :: 0 <= i < |parts| ==> IsPlainWord(parts[i])
    requires sep == "_" || sep == " "
    ensures Replace(Join(parts, sep), "_", " ") == Join(parts, " ")
  {
    if |parts| > 0 {
      var w := parts[0];
      ReplaceChar(w, '_', ' ');
      assert Replace(w, "_", " ") == w;
      if |parts| > 1 {
        var tail := parts[1..];
        ReplaceJoin(tail, sep);
        var j := Join(tail, sep);
        JoinCons(parts, sep);
        JoinCons(parts, " ");
        ReplaceCharConcat(w, sep + j, '_', ' ');
        ReplaceCharConcat(sep, j, '_', ' ');
        ReplaceChar(sep, '_', ' ');
        assert Replace(sep, "_", " ") == " ";
      }
    }
  }

  /** Splitting a space-joined name of plain words gives back the words. */
  lemma {:induction false} WordsOfJoin(parts: seq<string>)
    requires |parts| > 0 && forall i :: 0 <= i < |parts| ==> IsPlainWord(parts[i])
    ensures Words(Join(parts, " ")) == parts
  {
    if |parts| == 1 {
      WordsSingle(parts[0]);
    } else {
      var tail := parts[1..];
      WordsOfJoin(tail);
      assert Join(parts, " ") == parts[0] + " " + Join(tail, " ");
      WordsCons(parts[0], Join(tail, " "));
      assert [parts[0]] + tail == parts;
    }
  }

  // ---------- decimal integers ------------------------------------------------------------

  predicate IsDigit(c: char) { '0' <= c <= '9' }

  predicate IsDigits(s: string) {
    |s| > 0 && forall k :: 0 <= k < |s| ==> IsDigit(s[k])
  }

  /** The value of a string of decimal digits (most significant first). */
  function DigitsValue(s: string): nat
    requires forall k :: 0 <= k < |s| ==> IsDigit(s[k])
  {
    if |s| == 0 then 0
    else
      assert IsDigit(s[|s| - 1]);
      DigitsValue(s[..|s| - 1]) * 10 + (s[|s| - 1] as int - '0' as int)
  }

  function Pow10(k: nat): nat {
    if k == 0 then 1 else 10 * Pow10(k - 1)
  }

  /** Ending in `k` zero digits multiplies the value of the rest by 10^k. */
  lemma {:induction false} DigitsTrailingZeros(s: string, k: nat)
    requires forall i :: 0 <= i < |s| ==> IsDigit(s[i])
    requires k <= |s| && forall i :: |s| - k <= i < |s| ==> s[i] == '0'
    ensures DigitsValue(s) == DigitsValue(s[..|s| - k]) * Pow10(k)
  {
    if k > 0 {
      var t := s[..|s| - 1];
      assert t[..|t| - (k - 1)] == s[..|s| - k];
      DigitsTrailingZeros(t, k - 1);
      assert s[|s| - 1] == '0';
      TimesTen(DigitsValue(s[..|s| - k]), Pow10(k - 1));
    } else {
      assert s[..|s|] == s;
    }
  }

  lemma TimesTen(v: nat, p: nat)
    ensures (v * p) * 10 == v * (10 * p)
  {
  }

  /** Python's `str(n)` for a non-negative integer. */
  function NatToString(n: nat): (r: string)
    ensures IsDigits(r)
    ensures |r| > 1 ==> r[0] != '0'
  {
    if n < 10 then [('0' as int + n) as char]
    else NatToString(n / 10) + [('0' as int + n % 10) as char]
  }

  /** Python's `str(n)` for any integer. */
  function IntToString(n: int): string {
    if n < 0 then "-" + NatToString(-n) else NatToString(n)
  }

  /** Reading back the digits printed for `n` gives `n`. */
  lemma {:induction false} NatToStringValue(n: nat)
    ensures DigitsValue(NatToString(n)) == n
  {
    if n >= 10 {
      NatToStringValue(n / 10);
      var s := NatToString(n);
      assert s[..|s| - 1] == NatToString(n / 10);
    }
  }

  /** Python's `int(s)`: optional surrounding white space, an optional sign and decimal digits. */
  function ParseInt(s: string): Option<int> {
    var t := Strip(s);
    if |t| > 0 && (t[0] == '-' || t[0] == '+') then
      if IsDigits(t[1..]) then
        Some(if t[0] == '-' then -(DigitsValue(t[1..]) as int) else DigitsValue(t[1..]))
      else None
    else if IsDigits(t) then Some(DigitsValue(t))
    else None
  }

  /** `int(str(n)) == n` for every integer. */
  lemma IntRoundTrip(n: int)
    ensures ParseInt(IntToString(n)) == Some(n)
  {
    if n < 0 {
      NegativeRoundTrip(-n);
    } else {
      NaturalRoundTrip(n);
    }
  }

  lemma NaturalRoundTrip(n: nat)
    ensures ParseInt(NatToString(n)) == Some(n)
  {
    StripUnchanged(NatToString(n));
    NatToStringValue(n);
  }

  lemma NegativeRoundTrip(n: nat)
    ensures ParseInt("-" + NatToString(n)) == Some(-(n as int))
  {
    var s := "-" + NatToString(n);
    StripUnchanged(s);
    NatToStringValue(n);
    assert s[1..] == NatToString(n);
  }

  // ---------- file names ------------------------------------------------------------------

  /** `pathlib.PurePath.suffix` of a final path component: from the last '.' on, unless that dot
      is the first or the last character. */
  function Suffix(name: string): (r: string)
    ensures r == "" || (r[0] == '.' && EndsWith(name, r) && |r| < |name|)
  {
    var i := RFind(name, '.');
    if 0 < i < |name| - 1 then name[i..] else ""
  }

  /** `pathlib.PurePath.stem`: the final component without its suffix. */
  function Stem(name: string): (r: string)
    ensures r + Suffix(name) == name
  {
    name[..|name| - |Suffix(name)|]
  }

  /** A Python script's file name: a non-empty base without dots, then ".py". */
  lemma PyFileName(base: string)
    requires |base| > 0 && '.' !in base
    ensures Suffix(base + ".py") == ".py" && Stem(base + ".py") == base
  {
    var name := base + ".py";
    var i := RFind(name, '.');
    assert name[|base|] == '.' && name[|base| + 1] == 'p' && name[|base| + 2] == 'y';
    assert i == |base| by {
      assert forall k :: 0 <= k < |base| ==> name[k] == base[k];
    }
    assert name[i..] == ".py";
  }
}
