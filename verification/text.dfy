/**
  The string operations of the Rust and Python standard libraries that the CI
  core relies on, over `string` (a sequence of Unicode scalar values):
  `trim`, `split_whitespace().next()`, `split(c)`, `lines()`, `replace`,
  `trim_start_matches`, `chars().take(n)`, ASCII upper-casing and `Path::join`.
 */
module Text {

  /** Rust's `char::is_whitespace`: the Unicode White_Space property. */
  predicate IsWhitespace(c: char) {
    || ('\t' <= c <= '\r')
    || c == ' '
    || c == '\U{85}'
    || c == '\U{A0}'
    || c == '\U{1680}'
    || ('\U{2000}' <= c <= '\U{200A}')
    || c == '\U{2028}'
    || c == '\U{2029}'
    || c == '\U{202F}'
    || c == '\U{205F}'
    || c == '\U{3000}'
  }

  predicate StartsWith(s: string, p: string) {
    |p| <= |s| && s[..|p|] == p
  }

  predicate EndsWith(s: string, p: string) {
    |p| <= |s| && s[|s| - |p|..] == p
  }

  /** `p` occurs somewhere in `s` (Rust `str::contains`, Python `in`). */
  predicate Contains(s: string, p: string)
    decreases |s|
  {
    StartsWith(s, p) || (|s| > 0 && Contains(s[1..], p))
  }

  /** An occurrence of `p` at offset `i` is an occurrence in `s`. */
  lemma {:induction false} ContainsAt(s: string, p: string, i: nat)
    requires i + |p| <= |s| && s[i..i + |p|] == p
    ensures Contains(s, p)
    decreases i
  {
    if i > 0 {
      assert s[1..][i - 1..i - 1 + |p|] == s[i..i + |p|];
      ContainsAt(s[1..], p, i - 1);
    }
  }

  // ---------------------------------------------------------------- trimming

  /** Rust `trim_start`: drop the leading whitespace. */
  function TrimStart(s: string): (r: string)
    ensures |r| <= |s| && r == s[|s| - |r|..]
    ensures forall i | 0 <= i < |s| - |r| :: IsWhitespace(s[i])
    ensures r == [] || !IsWhitespace(r[0])
    decreases |s|
  {
    if |s| > 0 && IsWhitespace(s[0]) then TrimStart(s[1..]) else s
  }

  /** Rust `trim_end`: drop the trailing whitespace. */
  function TrimEnd(s: string): (r: string)
    ensures |r| <= |s| && r == s[..|r|]
    ensures forall i | |r| <= i < |s| :: IsWhitespace(s[i])
    ensures r == [] || !IsWhitespace(r[|r| - 1])
    decreases |s|
  {
    if |s| > 0 && IsWhitespace(s[|s| - 1]) then TrimEnd(s[..|s| - 1]) else s
  }

  /** A string with neither leading nor trailing whitespace. */
  predicate IsTrimmed(s: string) {
    s == [] || (!IsWhitespace(s[0]) && !IsWhitespace(s[|s| - 1]))
  }

  /** Rust `trim`. */
  function Trim(s: string): (r: string)
    ensures IsTrimmed(r)
    ensures |r| <= |s|
    ensures IsTrimmed(s) ==> r == s
  {
    TrimEnd(TrimStart(s))
  }

  /** Trimming twice is trimming once. */
  lemma TrimIdempotent(s: string)
    ensures Trim(Trim(s)) == Trim(s)
  {
  }

  // ------------------------------------------------------------------ words

  /** The longest whitespace-free prefix of `s`. */
  function TakeWord(s: string): (r: string)
    ensures |r| <= |s| && r == s[..|r|]
    ensures forall i | 0 <= i < |r| :: !IsWhitespace(r[i])
    ensures |r| == |s| || IsWhitespace(s[|r|])
    decreases |s|
  {
    if |s| == 0 || IsWhitespace(s[0]) then "" else [s[0]] + TakeWord(s[1..])
  }

  /** Rust `s.split_whitespace().next().unwrap_or("")`. */
  function FirstWord(s: string): (r: string)
    ensures forall i | 0 <= i < |r| :: !IsWhitespace(r[i])
    ensures (forall i | 0 <= i < |s| :: IsWhitespace(s[i])) <==> r == []
  {
    TakeWord(TrimStart(s))
  }

  /** The first word of `w` followed by whitespace and anything is `w`: how the
      hash is read off a `git ls-remote` line "<hash>\t<ref>". */
  lemma {:induction false} FirstWordOfLine(w: string, sep: char, rest: string)
    requires forall i | 0 <= i < |w| :: !IsWhitespace(w[i])
    requires w != [] && IsWhitespace(sep)
    ensures FirstWord(w + [sep] + rest) == w
  {
    var s := w + [sep] + rest;
    assert TrimStart(s) == s;
    TakeWordPrefix(w, [sep] + rest);
    assert s == w + ([sep] + rest);
  }

  lemma {:induction false} TakeWordPrefix(w: string, tail: string)
    requires forall i | 0 <= i < |w| :: !IsWhitespace(w[i])
    requires tail != [] && IsWhitespace(tail[0])
    ensures TakeWord(w + tail) == w
    decreases |w|
  {
    if w == [] {
      assert w + tail == tail;
    } else {
      assert (w + tail)[1..] == w[1..] + tail;
      TakeWordPrefix(w[1..], tail);
      assert w == [w[0]] + w[1..];
    }
  }

  /** Rust `s.chars().take(n).collect()`. */
  function Take(s: string, n: nat): (r: string)
    ensures |r| == if |s| < n then |s| else n
    ensures r == s[..|r|]
  {
    if |s| <= n then s else s[..n]
  }

  // ------------------------------------------------------------ upper case

  /** ASCII upper-casing of one character; every other character is kept. */
  function UpperAscii(c: char): (u: char)
    ensures ('a' <= c <= 'z') ==> 'A' <= u <= 'Z' && u as int == c as int - 32
    ensures !('a' <= c <= 'z') ==> u == c
  {
    if 'a' <= c <= 'z' then (c as int - 32) as char else c
  }

  /** Rust `to_uppercase` restricted to ASCII letters. */
  function ToUpper(s: string): (r: string)
    ensures |r| == |s|
    ensures forall i | 0 <= i < |s| :: r[i] == UpperAscii(s[i])
    decreases |s|
  {
    if s == [] then [] else [UpperAscii(s[0])] + ToUpper(s[1..])
  }

  /** Upper-casing is idempotent and leaves no ASCII lower-case letter. */
  lemma ToUpperIdempotent(s: string)
    ensures ToUpper(ToUpper(s)) == ToUpper(s)
    ensures forall i | 0 <= i < |s| :: !('a' <= ToUpper(s)[i] <= 'z')
  {
  }

  /** ASCII lower-casing of one character; every other character is kept. */
  function LowerAscii(c: char): (l: char)
    ensures ('A' <= c <= 'Z') ==> 'a' <= l <= 'z' && l as int == c as int + 32
    ensures !('A' <= c <= 'Z') ==> l == c
  {
    if 'A' <= c <= 'Z' then (c as int + 32) as char else c
  }

  /** Python `str.lower` restricted to ASCII letters. */
  function ToLower(s: string): (r: string)
    ensures |r| == |s|
    ensures forall i | 0 <= i < |s| :: r[i] == LowerAscii(s[i])
    decreases |s|
  {
    if s == [] then [] else [LowerAscii(s[0])] + ToLower(s[1..])
  }

  /** Lower-casing changes case only: upper-casing afterwards gives what
      upper-casing gives directly, and it leaves no ASCII capital. */
  lemma ToLowerThenUpper(s: string)
    ensures ToUpper(ToLower(s)) == ToUpper(s)
    ensures forall i | 0 <= i < |s| :: !('A' <= ToLower(s)[i] <= 'Z')
  {
    forall i | 0 <= i < |s|
      ensures ToUpper(ToLower(s))[i] == ToUpper(s)[i]
    {
      UpperOfLower(s[i]);
    }
  }

  lemma UpperOfLower(c: char)
    ensures UpperAscii(LowerAscii(c)) == UpperAscii(c)
  {
  }

  // --------------------------------------------------------------- replace

  /** Rust `str::replace` for a non-empty pattern: every leftmost,
      non-overlapping occurrence of `pat`, scanning left to right, becomes `rep`. */
  function Replace(s: string, pat: string, rep: string): (r: string)
    requires pat != []
    ensures !Contains(s, pat) ==> r == s
    decreases |s|
  {
    if |s| < |pat| then s
    else if StartsWith(s, pat) then rep + Replace(s[|pat|..], pat, rep)
    else [s[0]] + Replace(s[1..], pat, rep)
  }

  /** Replacing a pattern by itself changes nothing. */
  lemma {:induction false} ReplaceBySelf(s: string, pat: string)
    requires pat != []
    ensures Replace(s, pat, pat) == s
    decreases |s|
  {
    if |s| < |pat| {
    } else if StartsWith(s, pat) {
      ReplaceBySelf(s[|pat|..], pat);
      assert s == s[..|pat|] + s[|pat|..];
    } else {
      ReplaceBySelf(s[1..], pat);
      assert s == [s[0]] + s[1..];
    }
  }

  /** The whole string being the pattern yields the replacement. */
  lemma ReplaceWhole(pat: string, rep: string)
    requires pat != []
    ensures Replace(pat, pat, rep) == rep
  {
    assert pat[|pat|..] == [];
    assert rep + [] == rep;
  }

  /** No occurrence of `pat` in `x + y` starts in `x` and ends in `y`. */
  predicate SeamFree(x: string, y: string, pat: string) {
    forall i | 0 <= i < |x| && |x| < i + |pat| :: !StartsWith((x + y)[i..], pat)
  }

  /** Dropping a prefix of `x` keeps the seam free. */
  lemma SeamFreeDrop(x: string, y: string, pat: string, n: nat)
    requires SeamFree(x, y, pat) && n <= |x|
    ensures SeamFree(x[n..], y, pat)
  {
    forall i | 0 <= i < |x[n..]| && |x[n..]| < i + |pat|
      ensures !StartsWith((x[n..] + y)[i..], pat)
    {
      assert (x[n..] + y)[i..] == (x + y)[i + n..];
    }
  }

  /** Replacement works piecewise on a concatenation when no occurrence
      crosses the seam. */
  lemma {:induction false} ReplaceAppend(x: string, y: string, pat: string, rep: string)
    requires pat != [] && SeamFree(x, y, pat)
    ensures Replace(x + y, pat, rep) == Replace(x, pat, rep) + Replace(y, pat, rep)
    decreases |x|
  {
    if x == [] {
      assert x + y == y;
    } else if |x + y| < |pat| {
    } else if StartsWith(x + y, pat) {
      assert (x + y)[0..] == x + y;
      SeamFreeDrop(x, y, pat, |pat|);
      ReplaceAppend(x[|pat|..], y, pat, rep);
      ReplaceAppendMatch(x, y, pat, rep);
    } else {
      SeamFreeDrop(x, y, pat, 1);
      ReplaceAppend(x[1..], y, pat, rep);
      ReplaceAppendSkip(x, y, pat, rep);
    }
  }

  /** The step of `ReplaceAppend` at an occurrence that lies inside `x`. */
  lemma ReplaceAppendMatch(x: string, y: string, pat: string, rep: string)
    requires pat != [] && |pat| <= |x| && StartsWith(x + y, pat)
    requires Replace(x[|pat|..] + y, pat, rep) == Replace(x[|pat|..], pat, rep) + Replace(y, pat, rep)
    ensures Replace(x + y, pat, rep) == Replace(x, pat, rep) + Replace(y, pat, rep)
  {
    assert x[..|pat|] == (x + y)[..|pat|];
    assert (x + y)[|pat|..] == x[|pat|..] + y;
  }

  /** The step of `ReplaceAppend` where `x + y` does not start with `pat`. */
  lemma ReplaceAppendSkip(x: string, y: string, pat: string, rep: string)
    requires pat != [] && x != [] && |pat| <= |x + y| && !StartsWith(x + y, pat)
    requires Replace(x[1..] + y, pat, rep) == Replace(x[1..], pat, rep) + Replace(y, pat, rep)
    ensures Replace(x + y, pat, rep) == Replace(x, pat, rep) + Replace(y, pat, rep)
  {
    KeepsHead(x, y, pat, rep);
    SkipHead(x + y, pat, rep);
    HeadTail(x, y);
    ConsAssoc(x[0], Replace(x[1..], pat, rep), Replace(y, pat, rep));
  }

  /** Where `s` does not start with `pat`, its first character is kept. */
  lemma SkipHead(s: string, pat: string, rep: string)
    requires pat != [] && |pat| <= |s| && !StartsWith(s, pat)
    ensures Replace(s, pat, rep) == [s[0]] + Replace(s[1..], pat, rep)
  {
  }

  /** Where `x + y` does not start with `pat`, neither does `x`, so the
      first character of `x` is kept too. */
  lemma KeepsHead(x: string, y: string, pat: string, rep: string)
    requires pat != [] && x != [] && !StartsWith(x + y, pat)
    ensures Replace(x, pat, rep) == [x[0]] + Replace(x[1..], pat, rep)
  {
    if |x| >= |pat| {
      assert x[..|pat|] == (x + y)[..|pat|];
    } else {
      assert x == [x[0]] + x[1..];
    }
  }

  lemma HeadTail(x: string, y: string)
    requires x != []
    ensures (x + y)[0] == x[0] && (x + y)[1..] == x[1..] + y
  {
  }

  lemma ConsAssoc(c: char, a: string, b: string)
    ensures [c] + (a + b) == ([c] + a) + b
  {
  }

  /** The first occurrence of `pat` (none starts earlier, in `a`) becomes
      `rep`; the text before it is kept and the rest is replaced in turn. */
  lemma ReplaceOccurrence(a: string, pat: string, rep: string, b: string)
    requires pat != [] && !Contains(a, pat) && SeamFree(a, pat + b, pat)
    ensures Replace(a + pat + b, pat, rep) == a + rep + Replace(b, pat, rep)
  {
    assert a + pat + b == a + (pat + b);
    ReplaceAppend(a, pat + b, pat, rep);
    assert (pat + b)[..|pat|] == pat;
    assert (pat + b)[|pat|..] == b;
  }

  /** A string without `c` contains no pattern that has `c`. */
  lemma {:induction false} MissingCharNotContains(s: string, pat: string, c: char)
    requires c in pat && c !in s
    ensures !Contains(s, pat)
    decreases |s|
  {
    if |pat| <= |s| {
      var k :| 0 <= k < |pat| && pat[k] == c;
      assert s[k] in s;
      assert s[..|pat|][k] != pat[k];
    }
    if |s| > 0 {
      assert forall x | x in s[1..] :: x in s;
      MissingCharNotContains(s[1..], pat, c);
    }
  }

  /** A pattern that starts and ends with `c` cannot cross a seam next to
      text without `c`. */
  lemma FramedSeamFree(x: string, y: string, pat: string, c: char)
    requires pat != [] && pat[0] == c && pat[|pat| - 1] == c && (c !in x || c !in y)
    ensures SeamFree(x, y, pat)
  {
    forall i | 0 <= i < |x| && |x| < i + |pat|
      ensures !StartsWith((x + y)[i..], pat)
    {
      var w := (x + y)[i..];
      if c !in x {
        assert w[0] == x[i] && x[i] in x;
      } else if |pat| <= |w| {
        assert w[|pat| - 1] == y[i + |pat| - 1 - |x|];
        assert y[i + |pat| - 1 - |x|] in y;
        assert w[..|pat|][|pat| - 1] != pat[|pat| - 1];
      }
    }
  }

  /** Text without `c` on both sides of `m` is left alone by a replacement of
      a pattern framed by `c`. */
  lemma ReplaceFramed(a: string, m: string, b: string, pat: string, rep: string, c: char)
    requires pat != [] && pat[0] == c && pat[|pat| - 1] == c && c !in a && c !in b
    ensures Replace(a + m + b, pat, rep) == a + Replace(m, pat, rep) + b
  {
    FramedSeamFree(a + m, b, pat, c);
    ReplaceAppend(a + m, b, pat, rep);
    FramedSeamFree(a, m, pat, c);
    ReplaceAppend(a, m, pat, rep);
    MissingCharNotContains(a, pat, c);
    MissingCharNotContains(b, pat, c);
  }

  // ----------------------------------------------------------------- split

  /** Rust `s.split(sep)`: the pieces between separators (always at least one). */
  function Split(s: string, sep: char): (r: seq<string>)
    ensures |r| >= 1
    ensures forall i | 0 <= i < |r| :: sep !in r[i]
    decreases |s|
  {
    if s == [] then [""]
    else
      var rest := Split(s[1..], sep);
      if s[0] == sep then [""] + rest
      else [[s[0]] + rest[0]] + rest[1..]
  }

  /** Python `sep.join(parts)` for a one-character separator. */
  function JoinWith(parts: seq<string>, sep: char): string
    decreases |parts|
  {
    if parts == [] then ""
    else if |parts| == 1 then parts[0]
    else parts[0] + [sep] + JoinWith(parts[1..], sep)
  }

  /** Splitting loses nothing: joining the pieces back gives the input. */
  lemma {:induction false} SplitJoin(s: string, sep: char)
    ensures JoinWith(Split(s, sep), sep) == s
    decreases |s|
  {
    if s != [] {
      var rest := Split(s[1..], sep);
      SplitJoin(s[1..], sep);
      if s[0] == sep {
        assert ([""] + rest)[1..] == rest;
        assert s == [sep] + s[1..];
      } else {
        var parts := [[s[0]] + rest[0]] + rest[1..];
        if |rest| == 1 {
          assert JoinWith(rest, sep) == rest[0];
        } else {
          assert parts[1..] == rest[1..];
          assert JoinWith(rest, sep) == rest[0] + [sep] + JoinWith(rest[1..], sep);
        }
        assert s == [s[0]] + s[1..];
      }
    }
  }

  /** A string without the separator is a single piece. */
  lemma {:induction false} SplitNoSeparator(s: string, sep: char)
    requires sep !in s
    ensures Split(s, sep) == [s]
    decreases |s|
  {
    if s != [] {
      SplitNoSeparator(s[1..], sep);
      assert s == [s[0]] + s[1..];
    }
  }

  /** A separator-free head becomes the first piece; the rest splits on its own. */
  lemma {:induction false} SplitAfterHead(a: string, sep: char, t: string)
    requires sep !in a
    ensures Split(a + [sep] + t, sep) == [a] + Split(t, sep)
    decreases |a|
  {
    var s := a + [sep] + t;
    if a == [] {
      assert s[1..] == t;
    } else {
      assert s[1..] == a[1..] + [sep] + t;
      SplitAfterHead(a[1..], sep, t);
      assert a == [a[0]] + a[1..];
    }
  }

  /** The first piece of `b + rest` is `b` when `rest` is empty or starts with the separator. */
  lemma SplitFirstPiece(b: string, sep: char, rest: string)
    requires sep !in b
    requires rest == [] || rest[0] == sep
    ensures Split(b + rest, sep)[0] == b
  {
    if rest == [] {
      assert b + rest == b;
      SplitNoSeparator(b, sep);
    } else {
      assert b + rest == b + [sep] + rest[1..];
      SplitAfterHead(b, sep, rest[1..]);
    }
  }

  /** Joining separator-free pieces and splitting again gives the pieces back. */
  lemma {:induction false} JoinSplit(parts: seq<string>, sep: char)
    requires parts != []
    requires forall i | 0 <= i < |parts| :: sep !in parts[i]
    ensures Split(JoinWith(parts, sep), sep) == parts
    decreases |parts|
  {
    if |parts| == 1 {
      SplitNoSeparator(parts[0], sep);
    } else {
      JoinSplit(parts[1..], sep);
      SplitAfterHead(parts[0], sep, JoinWith(parts[1..], sep));
      assert parts == [parts[0]] + parts[1..];
    }
  }

  /** The joined string starts with the first piece and ends with the last one. */
  lemma {:induction false} JoinWithEnds(parts: seq<string>, sep: char)
    requires parts != []
    ensures StartsWith(JoinWith(parts, sep), parts[0])
    ensures EndsWith(JoinWith(parts, sep), parts[|parts| - 1])
    decreases |parts|
  {
    if |parts| > 1 {
      JoinWithEnds(parts[1..], sep);
      var rest := JoinWith(parts[1..], sep);
      var j := parts[0] + [sep] + rest;
      assert j[..|parts[0]|] == parts[0];
      assert j[|j| - |rest|..] == rest;
      assert j[|j| - |parts[|parts| - 1]|..] == rest[|rest| - |parts[|parts| - 1]|..];
    }
  }

  /** Rust `str::lines` up to trailing carriage returns (which every caller trims
      away): the pieces between line feeds, without a final empty piece. */
  function Lines(s: string): (r: seq<string>)
    ensures forall i | 0 <= i < |r| :: '\n' !in r[i]
    ensures s == [] ==> r == []
  {
    var parts := Split(s, '\n');
    if parts[|parts| - 1] == "" then parts[..|parts| - 1] else parts
  }

  /** Rust `trim_start_matches(p)`: strip `p` from the front as often as it is there. */
  function TrimStartMatches(s: string, p: string): (r: string)
    requires p != []
    ensures |r| <= |s| && r == s[|s| - |r|..]
    ensures !StartsWith(r, p)
    decreases |s|
  {
    if StartsWith(s, p) then TrimStartMatches(s[|p|..], p) else s
  }

  /** A prefix of `p` is stripped, then stripping goes on as before. */
  lemma TrimStartMatchesPrefix(p: string, s: string)
    requires p != []
    ensures TrimStartMatches(p + s, p) == TrimStartMatches(s, p)
  {
    assert (p + s)[..|p|] == p;
    assert (p + s)[|p|..] == s;
  }

  // ------------------------------------------------------------------ paths

  /** Rust `Path::join` on Unix: an absolute component replaces the base, an
      empty base takes the component as is, otherwise one separator is put
      between them unless the base already ends with one. */
  function PathJoin(base: string, component: string): (r: string)
    ensures StartsWith(component, "/") ==> r == component
    ensures !StartsWith(component, "/") ==> EndsWith(r, component)
  {
    if StartsWith(component, "/") || base == [] then component
    else if base[|base| - 1] == '/' then base + component
    else base + "/" + component
  }
}
