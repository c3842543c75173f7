/**
  The parts of JavaScript's string library that the gate and the transcript
  formatter rely on: `String.prototype.trim`, the regular-expression class
  `\s`, `replace(/\s+/g, " ")`, `startsWith` and `toLowerCase` (restricted to
  ASCII letters).
*/
module Text {
  import opened Wrappers


  /** The characters that `trim` strips and `\s` matches: the ECMAScript
      WhiteSpace and LineTerminator code points. */
  predicate IsSpace(c: char) {
    ('\t' <= c <= '\r') || c == ' ' || c == '\U{00A0}' || c == '\U{1680}'
    || ('\U{2000}' <= c <= '\U{200A}') || c == '\U{2028}' || c == '\U{2029}'
    || c == '\U{202F}' || c == '\U{205F}' || c == '\U{3000}' || c == '\U{FEFF}'
  }

  predicate AllSpace(s: string) {
    forall i | 0 <= i < |s| :: IsSpace(s[i])
  }

  /** An optional text that is missing, or nothing but white space. */
  predicate Blank(s: Option<string>) {
    s.None? || AllSpace(s.value)
  }

  lemma AllSpaceFirst(s: string)
    requires s != []
    ensures AllSpace(s) <==> IsSpace(s[0]) && AllSpace(s[1..])
  {
    forall i | 0 < i < |s| ensures s[i] == s[1..][i - 1] { }
  }

  lemma AllSpaceLast(s: string)
    requires s != []
    ensures AllSpace(s) <==> AllSpace(s[..|s| - 1]) && IsSpace(s[|s| - 1])
  {
    forall i | 0 <= i < |s| - 1 ensures s[i] == s[..|s| - 1][i] { }
  }

  lemma AllSpaceCons(s: string, m: int)
    requires s != [] && 0 <= m <= |s| - 1 && IsSpace(s[0]) && AllSpace(s[1..][..m])
    ensures AllSpace(s[..m + 1])
  {
    forall i | 0 < i < m + 1 ensures IsSpace(s[i]) {
      assert s[i] == s[1..][..m][i - 1];
    }
  }

  lemma AllSpaceSnoc(s: string, k: int)
    requires 0 <= k < |s| && IsSpace(s[|s| - 1]) && AllSpace(s[..|s| - 1][k..])
    ensures AllSpace(s[k..])
  {
    forall i | k <= i < |s| - 1 ensures IsSpace(s[i]) {
      assert s[i] == s[..|s| - 1][k..][i - k];
    }
  }

  predicate StartsWith(s: string, prefix: string) {
    |prefix| <= |s| && s[..|prefix|] == prefix
  }

  predicate EndsWith(s: string, suffix: string) {
    |suffix| <= |s| && s[|s| - |suffix|..] == suffix
  }

  /** The characters of `s` that are not white space, in order. */
  function NonSpace(s: string): string {
    if s == [] then []
    else (if IsSpace(s[0]) then [] else [s[0]]) + NonSpace(s[1..])
  }

  /** Drops the leading white space: what remains is a suffix of `s` that does
      not start with white space, and everything dropped was white space. */
  function TrimStart(s: string): (r: string)
    ensures |r| <= |s| && r == s[|s| - |r|..]
    ensures AllSpace(s[..|s| - |r|])
    ensures r == [] || !IsSpace(r[0])
  {
    if s != [] && IsSpace(s[0]) then
      var r := TrimStart(s[1..]);
      AllSpaceCons(s, |s[1..]| - |r|);
      r
    else s
  }

  /** Drops the trailing white space: what remains is a prefix of `s` that does
      not end with white space, and everything dropped was white space. */
  function TrimEnd(s: string): (r: string)
    ensures |r| <= |s| && r == s[..|r|]
    ensures AllSpace(s[|r|..])
    ensures r == [] || !IsSpace(r[|r| - 1])
  {
    if s != [] && IsSpace(s[|s| - 1]) then
      var r := TrimEnd(s[..|s| - 1]);
      AllSpaceSnoc(s, |r|);
      r
    else s
  }

  /** `s.trim()`: the result has no white space at either end and keeps every
      other character of `s`; it is empty exactly when `s` is all white space. */
  function Trim(s: string): (r: string)
    ensures r == [] || (!IsSpace(r[0]) && !IsSpace(r[|r| - 1]))
    ensures NonSpace(r) == NonSpace(s)
    ensures r == [] <==> AllSpace(s)
  {
    var t := TrimStart(s);
    var r := TrimEnd(t);
    assert r == [] || r[0] == t[..|r|][0];
    TrimStartKeepsNonSpace(s);
    TrimEndKeepsNonSpace(TrimStart(s));
    NonSpaceEmpty(s);
    NonSpaceEmpty(r);
    r
  }

  /** `Trim` is a contiguous slice of its input, cut only at white space. */
  lemma TrimIsSlice(s: string)
    ensures exists lo, hi | 0 <= lo <= hi <= |s| ::
      Trim(s) == s[lo..hi] && AllSpace(s[..lo]) && AllSpace(s[hi..])
  {
    var t := TrimStart(s);
    var e := TrimEnd(t);
    var lo := |s| - |t|;
    var hi := lo + |e|;
    TrimSlices(s, t, e, lo);
    assert Trim(s) == e;
  }

  /** The slices `TrimIsSlice` names, for a given trim-start `t` and
      trim-end `e`. */
  lemma TrimSlices(s: string, t: string, e: string, lo: int)
    requires 0 <= lo <= |s| && t == s[lo..] && AllSpace(s[..lo])
    requires |e| <= |t| && e == t[..|e|] && AllSpace(t[|e|..])
    ensures e == s[lo..lo + |e|] && AllSpace(s[lo + |e|..])
  {
    SliceOfSuffix(s, lo, |e|);
  }

  lemma SliceOfSuffix(s: string, lo: int, n: int)
    requires 0 <= lo && 0 <= n && lo + n <= |s|
    ensures s[lo..][..n] == s[lo..lo + n] && s[lo..][n..] == s[lo + n..]
  {
  }

  lemma {:induction false} NonSpaceAppend(a: string, b: string)
    ensures NonSpace(a + b) == NonSpace(a) + NonSpace(b)
  {
    if a == [] {
      assert a + b == b;
    } else {
      assert (a + b)[0] == a[0];
      assert (a + b)[1..] == a[1..] + b;
      NonSpaceAppend(a[1..], b);
    }
  }

  lemma {:induction false} NonSpaceEmpty(s: string)
    ensures NonSpace(s) == [] <==> AllSpace(s)
  {
    if s != [] {
      NonSpaceEmpty(s[1..]);
      AllSpaceFirst(s);
    }
  }

  lemma AllSpaceNonSpace(s: string)
    requires AllSpace(s)
    ensures NonSpace(s) == []
  {
    NonSpaceEmpty(s);
  }

  lemma TrimStartKeepsNonSpace(s: string)
    ensures NonSpace(TrimStart(s)) == NonSpace(s)
  {
    var r := TrimStart(s);
    var k := |s| - |r|;
    assert s == s[..k] + r;
    NonSpaceAppend(s[..k], r);
    AllSpaceNonSpace(s[..k]);
  }

  lemma TrimEndKeepsNonSpace(s: string)
    ensures NonSpace(TrimEnd(s)) == NonSpace(s)
  {
    var r := TrimEnd(s);
    assert s == r + s[|r|..];
    NonSpaceAppend(r, s[|r|..]);
    AllSpaceNonSpace(s[|r|..]);
  }

  /** `s.replace(/\s+/g, " ")`: every maximal run of white space becomes one
      plain space. The result is empty only for empty input, and starts with
      white space exactly when the input does. */
  function CollapseSpaces(s: string): (r: string)
    ensures r == [] <==> s == []
    ensures s != [] ==> (IsSpace(r[0]) <==> IsSpace(s[0]))
  {
    CollapseFrom(s, false)
  }

  /** The collapse as a left-to-right scan. `inRun` says whether the character
      before `s` was white space; the space standing for that run has then
      already been written, so more white space adds nothing. */
  function CollapseFrom(s: string, inRun: bool): (r: string)
    ensures inRun ==> r == [] || !IsSpace(r[0])
    ensures !inRun ==> (r == [] <==> s == [])
    ensures !inRun && s != [] ==> (IsSpace(r[0]) <==> IsSpace(s[0]))
    decreases |s|
  {
    if s == [] then []
    else if !IsSpace(s[0]) then [s[0]] + CollapseFrom(s[1..], false)
    else if inRun then CollapseFrom(s[1..], true)
    else [' '] + CollapseFrom(s[1..], true)
  }

  /** Whether the scan is inside a run of white space after reading `x`. */
  function RunAfter(x: string, inRun: bool): bool {
    if x == [] then inRun else IsSpace(x[|x| - 1])
  }

  lemma {:induction false} CollapseFromNonSpace(s: string, inRun: bool)
    ensures NonSpace(CollapseFrom(s, inRun)) == NonSpace(s)
    decreases |s|
  {
    if s != [] {
      var c := s[0];
      var rest := CollapseFrom(s[1..], IsSpace(c));
      CollapseFromNonSpace(s[1..], IsSpace(c));
      assert s == [c] + s[1..];
      NonSpaceAppend([c], s[1..]);
      if !IsSpace(c) {
        NonSpaceAppend([c], rest);
      } else if !inRun {
        NonSpaceAppend([' '], rest);
      }
    }
  }

  /** The collapse keeps every character that is not white space, in order. */
  lemma CollapseKeepsNonSpace(s: string)
    ensures NonSpace(CollapseSpaces(s)) == NonSpace(s)
  {
    CollapseFromNonSpace(s, false);
  }

  lemma {:induction false} CollapseFromPlainSpacing(s: string, inRun: bool)
    ensures PlainSpacing(CollapseFrom(s, inRun))
    decreases |s|
  {
    if s != [] {
      var rest := CollapseFrom(s[1..], IsSpace(s[0]));
      CollapseFromPlainSpacing(s[1..], IsSpace(s[0]));
      if !IsSpace(s[0]) {
        PlainSpacingCons(s[0], rest);
      } else if !inRun {
        PlainSpacingCons(' ', rest);
      }
    }
  }

  /** The collapse leaves only plain spaces, never two in a row. */
  lemma CollapsePlainSpacing(s: string)
    ensures PlainSpacing(CollapseSpaces(s))
  {
    CollapseFromPlainSpacing(s, false);
  }

  /** The only white space is the plain space, and no two white-space
      characters are adjacent. */
  predicate PlainSpacing(s: string) {
    && (forall i | 0 <= i < |s| :: IsSpace(s[i]) ==> s[i] == ' ')
    && (forall i | 0 <= i < |s| - 1 :: !(IsSpace(s[i]) && IsSpace(s[i + 1])))
  }

  lemma PlainSpacingCons(c: char, s: string)
    requires PlainSpacing(s)
    requires IsSpace(c) ==> c == ' ' && (s == [] || !IsSpace(s[0]))
    ensures PlainSpacing([c] + s)
  {
    var t := [c] + s;
    forall i | 0 <= i < |t| ensures IsSpace(t[i]) ==> t[i] == ' ' {
      if i > 0 { assert t[i] == s[i - 1]; }
    }
    forall i | 0 <= i < |t| - 1 ensures !(IsSpace(t[i]) && IsSpace(t[i + 1])) {
      if i > 0 { assert t[i] == s[i - 1] && t[i + 1] == s[i]; }
    }
  }

  lemma PlainSpacingSlice(s: string, lo: int, hi: int)
    requires PlainSpacing(s) && 0 <= lo <= hi <= |s|
    ensures PlainSpacing(s[lo..hi])
  {
    var t := s[lo..hi];
    forall i | 0 <= i < |t| - 1 ensures !(IsSpace(t[i]) && IsSpace(t[i + 1])) {
      assert t[i] == s[lo + i] && t[i + 1] == s[lo + i + 1];
    }
  }

  lemma {:induction false} CollapseFromFixes(s: string, inRun: bool)
    requires PlainSpacing(s)
    requires inRun ==> s == [] || !IsSpace(s[0])
    ensures CollapseFrom(s, inRun) == s
    decreases |s|
  {
    if s != [] {
      var t := s[1..];
      PlainSpacingSlice(s, 1, |s|);
      if IsSpace(s[0]) {
        assert s[0] == ' ';
        assert t == [] || !IsSpace(t[0]) by {
          if t != [] { assert t[0] == s[1]; }
        }
      }
      CollapseFromFixes(t, IsSpace(s[0]));
      assert s == [s[0]] + t;
    }
  }

  /** Text already in plain spacing is left alone by the collapse. */
  lemma CollapseFixesPlainSpacing(s: string)
    requires PlainSpacing(s)
    ensures CollapseSpaces(s) == s
  {
    CollapseFromFixes(s, false);
  }

  /** A string with no white space at either end is its own trim. */
  lemma TrimFixesTrimmed(s: string)
    requires s == [] || (!IsSpace(s[0]) && !IsSpace(s[|s| - 1]))
    ensures Trim(s) == s
  {
  }

  /** ASCII lower-casing of one character. */
  function ToLowerChar(c: char): (d: char)
    ensures IsSpace(d) == IsSpace(c)
    ensures !('A' <= d <= 'Z')
  {
    if 'A' <= c <= 'Z' then (c as int + 32) as char else c
  }

  /** `s.toLowerCase()` on the ASCII letters; other characters are kept. */
  function ToLower(s: string): (r: string)
    ensures |r| == |s|
  {
    seq(|s|, i requires 0 <= i < |s| => ToLowerChar(s[i]))
  }

  /** Text without upper-case ASCII letters is already lower case. */
  lemma ToLowerFixesLower(s: string)
    requires forall i | 0 <= i < |s| :: !('A' <= s[i] <= 'Z')
    ensures ToLower(s) == s
  {
    forall i | 0 <= i < |s| ensures ToLower(s)[i] == s[i] { }
  }

  /** Lower-casing works character by character, so it keeps prefixes. */
  lemma ToLowerPrefix(a: string, b: string)
    ensures ToLower(a + b)[..|a|] == ToLower(a)
  {
    forall k | 0 <= k < |a| ensures ToLower(a + b)[k] == ToLower(a)[k] {
      assert (a + b)[k] == a[k];
    }
  }

  /** Appending a character that is not an upper-case letter appends it to
      the lower-cased text. */
  lemma ToLowerSnoc(a: string, c: char)
    requires !('A' <= c <= 'Z')
    ensures ToLower(a + [c]) == ToLower(a) + [c]
  {
    ToLowerPrefix(a, [c]);
  }

  lemma ToLowerIdempotent(s: string)
    ensures ToLower(ToLower(s)) == ToLower(s)
  {
  }

  lemma {:induction false} TrimStartToLower(s: string)
    ensures TrimStart(ToLower(s)) == ToLower(TrimStart(s))
  {
    if s != [] {
      assert ToLower(s)[1..] == ToLower(s[1..]);
      assert ToLower(s)[0] == ToLowerChar(s[0]);
      TrimStartToLower(s[1..]);
    }
  }

  lemma {:induction false} TrimEndToLower(s: string)
    ensures TrimEnd(ToLower(s)) == ToLower(TrimEnd(s))
  {
    if s != [] {
      assert ToLower(s)[..|s| - 1] == ToLower(s[..|s| - 1]);
      assert ToLower(s)[|s| - 1] == ToLowerChar(s[|s| - 1]);
      TrimEndToLower(s[..|s| - 1]);
    }
  }

  /** Trimming and lower-casing can be done in either order. */
  lemma TrimToLower(s: string)
    ensures Trim(ToLower(s)) == ToLower(Trim(s))
  {
    TrimStartToLower(s);
    TrimEndToLower(TrimStart(s));
  }

  lemma {:induction false} TrimStartAfterSpace(w: string, s: string)
    requires AllSpace(w)
    ensures TrimStart(w + s) == TrimStart(s)
  {
    if w == [] {
      assert w + s == s;
    } else {
      assert (w + s)[0] == w[0];
      assert (w + s)[1..] == w[1..] + s;
      assert AllSpace(w[1..]) by {
        forall i | 0 <= i < |w[1..]| ensures IsSpace(w[1..][i]) { assert w[1..][i] == w[i + 1]; }
      }
      TrimStartAfterSpace(w[1..], s);
    }
  }

  lemma {:induction false} TrimEndBeforeSpace(s: string, w: string)
    requires AllSpace(w)
    ensures TrimEnd(s + w) == TrimEnd(s)
  {
    if w == [] {
      assert s + w == s;
    } else {
      var v := w[..|w| - 1];
      assert (s + w)[|s + w| - 1] == w[|w| - 1];
      assert (s + w)[..|s + w| - 1] == s + v;
      assert AllSpace(v) by {
        forall i | 0 <= i < |v| ensures IsSpace(v[i]) { assert v[i] == w[i]; }
      }
      TrimEndBeforeSpace(s, v);
    }
  }

  lemma {:induction false} TrimStartAppend(s: string, w: string)
    requires !AllSpace(s)
    ensures TrimStart(s + w) == TrimStart(s) + w
  {
    assert s != [];
    assert (s + w)[0] == s[0];
    if IsSpace(s[0]) {
      assert (s + w)[1..] == s[1..] + w;
      AllSpaceFirst(s);
      TrimStartAppend(s[1..], w);
    }
  }

  lemma {:induction false} TrimEndPrepend(s: string, w: string)
    requires !AllSpace(w)
    ensures TrimEnd(s + w) == s + TrimEnd(w)
    decreases |w|
  {
    assert w != [];
    var n := |s + w|;
    assert (s + w)[n - 1] == w[|w| - 1];
    if IsSpace(w[|w| - 1]) {
      var v := w[..|w| - 1];
      assert (s + w)[..n - 1] == s + v;
      AllSpaceLast(w);
      TrimEndPrepend(s, v);
    }
  }

  lemma AllSpaceAppend(a: string, b: string)
    ensures AllSpace(a + b) <==> AllSpace(a) && AllSpace(b)
  {
    forall i | 0 <= i < |a| ensures (a + b)[i] == a[i] { }
    forall i | 0 <= i < |b| ensures (a + b)[|a| + i] == b[i] { }
  }

  /** Surrounding white space does not change the trim. */
  lemma TrimIgnoresSurroundingSpace(w1: string, s: string, w2: string)
    requires AllSpace(w1) && AllSpace(w2)
    ensures Trim(w1 + s + w2) == Trim(s)
  {
    var t := s + w2;
    assert w1 + s + w2 == w1 + t;
    TrimStartAfterSpace(w1, t);
    assert TrimStart(w1 + s + w2) == TrimStart(t);
    if AllSpace(s) {
      AllSpaceAppend(s, w2);
      TrimStartEmpty(t);
      TrimStartEmpty(s);
    } else {
      TrimStartAppend(s, w2);
      TrimEndBeforeSpace(TrimStart(s), w2);
    }
  }

  lemma TrimStartEmpty(s: string)
    ensures TrimStart(s) == [] <==> AllSpace(s)
  {
    var r := TrimStart(s);
    if r == [] {
      assert s[..|s|] == s;
    } else {
      assert r[0] == s[|s| - |r|];
    }
  }

  /** What the scan writes for the first character of `x`. */
  function Step(c: char, inRun: bool): string {
    if !IsSpace(c) then [c] else if inRun then [] else [' ']
  }

  lemma CollapseFromCons(x: string, inRun: bool)
    requires x != []
    ensures CollapseFrom(x, inRun) == Step(x[0], inRun) + CollapseFrom(x[1..], IsSpace(x[0]))
  {
  }

  /** The scan over `x + y` is the scan over `x` followed by the scan over
      `y` in the state `x` left it in. */
  lemma {:induction false} CollapseFromAppend(x: string, y: string, inRun: bool)
    ensures CollapseFrom(x + y, inRun)
      == CollapseFrom(x, inRun) + CollapseFrom(y, RunAfter(x, inRun))
    decreases |x|
  {
    if x == [] {
      assert x + y == y;
    } else {
      var head, tail := Step(x[0], inRun), CollapseFrom(x[1..], IsSpace(x[0]));
      var right := CollapseFrom(y, RunAfter(x, inRun));
      CollapseFromConsAppend(x, y, inRun);
      CollapseFromAppend(x[1..], y, IsSpace(x[0]));
      RunAfterTail(x, inRun);
      CollapseFromCons(x, inRun);
      Assoc(head, tail, right);
    }
  }

  lemma CollapseFromConsAppend(x: string, y: string, inRun: bool)
    requires x != []
    ensures CollapseFrom(x + y, inRun) == Step(x[0], inRun) + CollapseFrom(x[1..] + y, IsSpace(x[0]))
  {
    assert (x + y)[0] == x[0] && (x + y)[1..] == x[1..] + y;
    CollapseFromCons(x + y, inRun);
  }

  lemma RunAfterTail(x: string, inRun: bool)
    requires x != []
    ensures RunAfter(x[1..], IsSpace(x[0])) == RunAfter(x, inRun)
  {
    if |x| > 1 {
      assert x[1..][|x| - 2] == x[|x| - 1];
    }
  }

  /** Whether a run was in progress does not matter before a character that
      is not white space. */
  lemma CollapseFromWordStart(y: string)
    requires y == [] || !IsSpace(y[0])
    ensures CollapseFrom(y, true) == CollapseFrom(y, false)
  {
  }

  lemma {:induction false} CollapseFromAllSpace(w: string, inRun: bool)
    requires AllSpace(w)
    ensures CollapseFrom(w, inRun) == if inRun || w == [] then [] else " "
    decreases |w|
  {
    if w != [] {
      AllSpaceFirst(w);
      CollapseFromAllSpace(w[1..], true);
    }
  }

  /** Cutting between two characters that are not both white space commutes
      with collapsing: no run is split, so each side collapses on its own. */
  lemma CollapseAppend(x: string, y: string)
    requires x == [] || y == [] || !(IsSpace(x[|x| - 1]) && IsSpace(y[0]))
    ensures CollapseSpaces(x + y) == CollapseSpaces(x) + CollapseSpaces(y)
  {
    CollapseFromAppend(x, y, false);
    if RunAfter(x, false) {
      CollapseFromWordStart(y);
    }
  }

  /** A maximal run of white space, however long and of whatever kind,
      collapses to exactly one plain space. */
  lemma CollapseRun(a: string, w: string, b: string)
    requires a == [] || !IsSpace(a[|a| - 1])
    requires w != [] && AllSpace(w)
    requires b == [] || !IsSpace(b[0])
    ensures CollapseSpaces(a + w + b) == CollapseSpaces(a) + " " + CollapseSpaces(b)
  {
    Assoc(a, w, b);
    CollapseFromAppend(a, w + b, false);
    CollapseLeadingRun(w, b);
    Assoc(CollapseSpaces(a), " ", CollapseSpaces(b));
  }

  lemma CollapseLeadingRun(w: string, b: string)
    requires w != [] && AllSpace(w)
    requires b == [] || !IsSpace(b[0])
    ensures CollapseFrom(w + b, false) == " " + CollapseSpaces(b)
  {
    CollapseFromAppend(w, b, false);
    CollapseFromAllSpace(w, false);
    CollapseFromWordStart(b);
  }

  /** Collapsing white space yields white space only. */
  lemma CollapseAllSpace(w: string)
    requires AllSpace(w)
    ensures AllSpace(CollapseSpaces(w))
  {
    CollapseFromAllSpace(w, false);
  }

  /** A string that ends in a character other than white space collapses to
      one that ends in that same character. */
  lemma CollapseKeepsLast(a: string)
    requires a != [] && !IsSpace(a[|a| - 1])
    ensures var c := CollapseSpaces(a); c != [] && c[|c| - 1] == a[|a| - 1]
  {
    var n := |a| - 1;
    assert a == a[..n] + [a[n]];
    CollapseFromAppend(a[..n], [a[n]], false);
    assert CollapseFrom([a[n]], RunAfter(a[..n], false)) == [a[n]];
  }

  /** Trimming text that starts and ends inside words, whatever lies in
      between, trims only the outer ends. */
  lemma TrimBetweenWords(x: string, m: string, y: string)
    requires x != [] && !IsSpace(x[|x| - 1])
    requires y != [] && !IsSpace(y[0])
    ensures Trim(x + m + y) == Trim(x) + m + Trim(y)
  {
    AllSpaceLast(x);
    AllSpaceFirst(y);
    var sx := TrimStart(x);
    assert TrimEnd(sx) == sx by {
      TrimStartEmpty(x);
      assert sx[|sx| - 1] == x[|x| - 1];
    }
    assert TrimStart(y) == y;
    Assoc(x, m, y);
    TrimStartAppend(x, m + y);
    Assoc(sx, m, y);
    TrimEndPrepend(sx + m, y);
  }

  /** White space around a text does not change it once collapsed and
      trimmed. */
  lemma TrimCollapseIgnoresSurroundingSpace(w1: string, s: string, w2: string)
    requires AllSpace(w1) && AllSpace(w2)
    ensures Trim(CollapseSpaces(w1 + s + w2)) == Trim(CollapseSpaces(s))
  {
    if AllSpace(s) {
      AllSpaceAppend(w1, s);
      AllSpaceAppend(w1 + s, w2);
      CollapseAllSpace(w1 + s + w2);
      CollapseAllSpace(s);
      TrimAllSpace(CollapseSpaces(w1 + s + w2));
      TrimAllSpace(CollapseSpaces(s));
    } else {
      TrimIsSlice(s);
      var lo, hi :| 0 <= lo <= hi <= |s| && Trim(s) == s[lo..hi]
        && AllSpace(s[..lo]) && AllSpace(s[hi..]);
      var u, core, v := s[..lo], s[lo..hi], s[hi..];
      SliceThree(s, lo, hi);
      Regroup(w1, u, core, v, w2);
      AllSpaceAppend(w1, u);
      AllSpaceAppend(v, w2);
      TrimCollapseCore(w1 + u, core, v + w2);
      TrimCollapseCore(u, core, v);
    }
  }

  lemma TrimCollapseCore(u: string, core: string, v: string)
    requires AllSpace(u) && AllSpace(v)
    requires core != [] && !IsSpace(core[0]) && !IsSpace(core[|core| - 1])
    ensures Trim(CollapseSpaces(u + core + v)) == Trim(CollapseSpaces(core))
  {
    CollapseAppend(u, core);
    assert (u + core)[|u + core| - 1] == core[|core| - 1];
    CollapseAppend(u + core, v);
    CollapseAllSpace(u);
    CollapseAllSpace(v);
    TrimIgnoresSurroundingSpace(CollapseSpaces(u), CollapseSpaces(core), CollapseSpaces(v));
  }

  lemma Assoc(a: string, b: string, c: string)
    ensures a + (b + c) == (a + b) + c
  {
  }

  lemma SliceThree(s: string, lo: int, hi: int)
    requires 0 <= lo <= hi <= |s|
    ensures s == s[..lo] + s[lo..hi] + s[hi..]
  {
    assert s[..hi] == s[..lo] + s[lo..hi];
    assert s == s[..hi] + s[hi..];
  }

  lemma Regroup(a: string, b: string, c: string, d: string, e: string)
    ensures a + (b + c + d) + e == (a + b) + c + (d + e)
  {
    calc {
      a + (b + c + d) + e;
      { assert a + ((b + c) + d) == (a + (b + c)) + d;
        assert a + (b + c) == (a + b) + c; }
      ((a + b) + c) + d + e;
      { assert (((a + b) + c) + d) + e == ((a + b) + c) + (d + e); }
      (a + b) + c + (d + e);
    }
  }

  lemma TrimAllSpace(s: string)
    requires AllSpace(s)
    ensures Trim(s) == []
  {
  }

  lemma StartsWithPrefix(p: string, x: string)
    ensures StartsWith(p + x, p)
  {
    assert (p + x)[..|p|] == p;
  }

  /** Two prefixes that differ in their first character exclude each other. */
  lemma NotStartsWithOther(p: string, q: string, x: string)
    requires p != [] && q != [] && p[0] != q[0]
    ensures !StartsWith(p + x, q)
  {
    assert (p + x)[0] == p[0];
    if |q| <= |p + x| {
      assert (p + x)[..|q|][0] == p[0];
    }
  }
}
