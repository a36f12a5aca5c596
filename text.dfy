/** The Python `str` built-ins the service relies on: character classes,
    case mapping, `strip()`, `split()` and the `in` substring test.

    Character classes follow CPython exactly on U+0000..U+00FF (the range
    of Latin-1); every character above U+00FF is classified as not a digit,
    not alphanumeric and not whitespace. Case mapping is ASCII case mapping. */
module Text {

  // ---------------------------------------------------------------------
  // Character classes
  // ---------------------------------------------------------------------

  /** `c.isdigit()`: the ASCII digits and the superscripts two, three and one. */
  predicate IsDigit(c: char) {
    ('0' <= c <= '9') || c == '\U{B2}' || c == '\U{B3}' || c == '\U{B9}'
  }

  /** `c.isalpha()`: ASCII letters, the ordinal indicators, the micro sign
      and the Latin-1 letters (all of U+00C0..U+00FF but the multiplication
      and division signs). */
  predicate IsAlpha(c: char) {
    || ('A' <= c <= 'Z') || ('a' <= c <= 'z')
    || c == '\U{AA}' || c == '\U{B5}' || c == '\U{BA}'
    || ('\U{C0}' <= c <= '\U{D6}') || ('\U{D8}' <= c <= '\U{F6}') || ('\U{F8}' <= c <= '\U{FF}')
  }

  /** `c.isnumeric()`: the digits and the vulgar fractions one quarter, one half, three quarters. */
  predicate IsNumeric(c: char) {
    IsDigit(c) || ('\U{BC}' <= c <= '\U{BE}')
  }

  /** `c.isalnum()`. */
  predicate IsAlnum(c: char) {
    IsAlpha(c) || IsNumeric(c)
  }

  /** `c.isspace()`: what `strip()` removes and `split()` splits on. */
  predicate IsSpace(c: char) {
    || ('\t' <= c <= '\r') || ('\U{1C}' <= c <= '\U{1F}')
    || c == ' ' || c == '\U{85}' || c == '\U{A0}'
  }

  /** Every digit is alphanumeric. */
  lemma DigitIsAlnum(c: char)
    ensures IsDigit(c) ==> IsAlnum(c)
  {
  }

  /** The path separator is not alphanumeric. */
  lemma SlashIsNotAlnum()
    ensures !IsAlnum('/')
  {
  }

  // ---------------------------------------------------------------------
  // Case mapping
  // ---------------------------------------------------------------------

  function UpperChar(c: char): char {
    if 'a' <= c <= 'z' then (c as int - 32) as char else c
  }

  function LowerChar(c: char): char {
    if 'A' <= c <= 'Z' then (c as int + 32) as char else c
  }

  /** `s.upper()`, position by position. */
  function Upper(s: string): (r: string)
    ensures |r| == |s|
    ensures forall i :: 0 <= i < |s| ==> !('a' <= r[i] <= 'z')
  {
    seq(|s|, i requires 0 <= i < |s| => UpperChar(s[i]))
  }

  /** `s.lower()`, position by position. */
  function Lower(s: string): (r: string)
    ensures |r| == |s|
    ensures forall i :: 0 <= i < |s| ==> !('A' <= r[i] <= 'Z')
  {
    seq(|s|, i requires 0 <= i < |s| => LowerChar(s[i]))
  }

  /** Upper-casing twice is upper-casing once. */
  lemma UpperIdempotent(s: string)
    ensures Upper(Upper(s)) == Upper(s)
  {
    assert forall i :: 0 <= i < |s| ==> Upper(Upper(s))[i] == Upper(s)[i];
  }

  /** Two strings that differ only in the case of their letters upper-case alike. */
  lemma UpperIgnoresCase(s: string, t: string)
    requires |s| == |t|
    requires forall i :: 0 <= i < |s| ==> s[i] == t[i] || LowerChar(s[i]) == LowerChar(t[i])
    ensures Upper(s) == Upper(t)
  {
    assert forall i :: 0 <= i < |s| ==> Upper(s)[i] == Upper(t)[i];
  }

  // ---------------------------------------------------------------------
  // strip()
  // ---------------------------------------------------------------------

  /** The number of whitespace characters `s` starts with. */
  function LeadingSpace(s: string): (n: nat)
    ensures n <= |s|
    decreases |s|
  {
    if s != [] && IsSpace(s[0]) then 1 + LeadingSpace(s[1..]) else 0
  }

  /** `LeadingSpace` counts exactly the whitespace run at the start. */
  lemma {:induction false} LeadingSpaceSpec(s: string)
    ensures forall i :: 0 <= i < LeadingSpace(s) ==> IsSpace(s[i])
    ensures LeadingSpace(s) < |s| ==> !IsSpace(s[LeadingSpace(s)])
    decreases |s|
  {
    if s != [] && IsSpace(s[0]) {
      LeadingSpaceSpec(s[1..]);
    }
  }

  /** The number of whitespace characters `s` ends with. */
  function TrailingSpace(s: string): (n: nat)
    ensures n <= |s|
    decreases |s|
  {
    if s != [] && IsSpace(s[|s| - 1]) then 1 + TrailingSpace(s[..|s| - 1]) else 0
  }

  /** `TrailingSpace` counts exactly the whitespace run at the end. */
  lemma {:induction false} TrailingSpaceSpec(s: string)
    ensures forall i :: |s| - TrailingSpace(s) <= i < |s| ==> IsSpace(s[i])
    ensures TrailingSpace(s) < |s| ==> !IsSpace(s[|s| - 1 - TrailingSpace(s)])
    decreases |s|
  {
    if s != [] && IsSpace(s[|s| - 1]) {
      TrailingSpaceSpec(s[..|s| - 1]);
    }
  }

  /** `s.strip()`: `s` without its leading and trailing whitespace. */
  function Strip(s: string): string {
    var t := s[LeadingSpace(s)..];
    t[..|t| - TrailingSpace(t)]
  }

  /** What `strip()` returns: the infix of `s` that starts after the leading
      whitespace, with only whitespace cut off on either side; it is empty
      exactly when `s` is all whitespace, and otherwise it neither starts
      nor ends with whitespace. */
  lemma StripSpec(s: string)
    ensures var r, k := Strip(s), LeadingSpace(s);
            && k + |r| <= |s| && r == s[k..k + |r|]
            && (forall i :: 0 <= i < k ==> IsSpace(s[i]))
            && (forall i :: k + |r| <= i < |s| ==> IsSpace(s[i]))
            && (r == [] <==> forall i :: 0 <= i < |s| ==> IsSpace(s[i]))
            && (r != [] ==> !IsSpace(r[0]) && !IsSpace(r[|r| - 1]))
  {
    var k := LeadingSpace(s);
    var t := s[k..];
    var n := TrailingSpace(t);
    LeadingSpaceSpec(s);
    TrailingSpaceSpec(t);
    forall i | k + |t| - n <= i < |s| ensures IsSpace(s[i]) {
      assert s[i] == t[i - k];
    }
  }

  /** Stripping a stripped string changes nothing. */
  lemma StripIdempotent(s: string)
    ensures Strip(Strip(s)) == Strip(s)
  {
    StripSpec(s);
    var r := Strip(s);
    if r != [] {
      assert LeadingSpace(r) == 0;
      var t := r[0..];
      assert t == r;
      assert TrailingSpace(r) == 0;
    }
  }

  // ---------------------------------------------------------------------
  // split()
  // ---------------------------------------------------------------------

  /** `s.isspace()` or empty: every character is whitespace. */
  predicate AllSpace(s: string) {
    forall i :: 0 <= i < |s| ==> IsSpace(s[i])
  }

  predicate NoSpace(w: string) {
    forall i :: 0 <= i < |w| ==> !IsSpace(w[i])
  }

  /** The length of the run of non-whitespace characters `s` starts with. */
  function WordLength(s: string): (n: nat)
    ensures n <= |s|
    ensures s != [] && !IsSpace(s[0]) ==> n > 0
    decreases |s|
  {
    if s != [] && !IsSpace(s[0]) then 1 + WordLength(s[1..]) else 0
  }

  /** `WordLength` measures exactly the non-whitespace run at the start. */
  lemma {:induction false} WordLengthSpec(s: string)
    ensures NoSpace(s[..WordLength(s)])
    ensures WordLength(s) < |s| ==> IsSpace(s[WordLength(s)])
    decreases |s|
  {
    if s != [] && !IsSpace(s[0]) {
      WordLengthSpec(s[1..]);
      var n := WordLength(s);
      assert forall i :: 1 <= i < n ==> s[..n][i] == s[1..][..n - 1][i - 1];
    }
  }

  /** `s.split()` with no separator: the maximal runs of non-whitespace
      characters, in order. */
  function Split(s: string): (ws: seq<string>)
    ensures |ws| <= |s|
    decreases |s|
  {
    if s == [] then []
    else if IsSpace(s[0]) then Split(s[1..])
    else
      var n := WordLength(s);
      [s[..n]] + Split(s[n..])
  }

  /** Every token `split()` returns is non-empty and holds no whitespace. */
  lemma {:induction false} SplitWords(s: string)
    ensures forall k :: 0 <= k < |Split(s)| ==> Split(s)[k] != [] && NoSpace(Split(s)[k])
    decreases |s|
  {
    if s == [] {
    } else if IsSpace(s[0]) {
      SplitWords(s[1..]);
    } else {
      WordLengthSpec(s);
      SplitWords(s[WordLength(s)..]);
    }
  }

  /** A word followed by nothing or by whitespace is split off whole. */
  lemma {:induction false} SplitFirstWord(w: string, rest: string)
    requires w != [] && NoSpace(w)
    requires rest == [] || IsSpace(rest[0])
    ensures Split(w + rest) == [w] + Split(rest)
  {
    var s := w + rest;
    WordLengthOf(w, rest);
    assert s[..|w|] == w;
    assert s[|w|..] == rest;
  }

  lemma {:induction false} WordLengthOf(w: string, rest: string)
    requires NoSpace(w)
    requires rest == [] || IsSpace(rest[0])
    ensures WordLength(w + rest) == |w|
    decreases |w|
  {
    if w != [] {
      assert (w + rest)[1..] == w[1..] + rest;
      WordLengthOf(w[1..], rest);
    }
  }

  /** A string that starts and ends with non-whitespace, padded with
      whitespace on either side, strips back to itself. */
  lemma StripPadded(pre: string, x: string, post: string)
    requires AllSpace(pre) && AllSpace(post)
    requires x != [] && !IsSpace(x[0]) && !IsSpace(x[|x| - 1])
    ensures Strip(pre + x + post) == x
  {
    var s := pre + x + post;
    StripSpec(s);
    var r, k := Strip(s), LeadingSpace(s);
    assert !IsSpace(s[|pre|]);
    assert k == |pre|;
    assert !IsSpace(s[|pre| + |x| - 1]);
    assert |r| == |x|;
    assert r == s[|pre|..|pre| + |x|] == x;
  }

  /** Leading whitespace does not change the tokens. */
  lemma {:induction false} SplitSkipsSpace(pre: string, x: string)
    requires AllSpace(pre)
    ensures Split(pre + x) == Split(x)
    decreases |pre|
  {
    if pre == [] {
      assert pre + x == x;
    } else {
      assert (pre + x)[1..] == pre[1..] + x;
      SplitSkipsSpace(pre[1..], x);
    }
  }

  /** A word that stops before the end of `x` stops at the same place in any extension of `x`. */
  lemma {:induction false} WordLengthExtend(x: string, y: string)
    requires WordLength(x) < |x|
    ensures WordLength(x + y) == WordLength(x)
    decreases |x|
  {
    if !IsSpace(x[0]) {
      assert (x + y)[1..] == x[1..] + y;
      WordLengthExtend(x[1..], y);
    }
  }

  /** Trailing whitespace does not change the tokens. */
  lemma {:induction false} SplitDropsSpace(x: string, post: string)
    requires AllSpace(post)
    ensures Split(x + post) == Split(x)
    decreases |x|
  {
    if x == [] {
      SplitSkipsSpace(post, []);
      assert post + [] == post;
      assert x + post == post;
    } else if IsSpace(x[0]) {
      assert (x + post)[1..] == x[1..] + post;
      SplitDropsSpace(x[1..], post);
    } else {
      var n := WordLength(x);
      WordLengthSpec(x);
      if n < |x| {
        WordLengthExtend(x, post);
        assert (x + post)[..n] == x[..n];
        assert (x + post)[n..] == x[n..] + post;
        SplitDropsSpace(x[n..], post);
      } else {
        assert x[..n] == x;
        SplitFirstWord(x, post);
        SplitSkipsSpace(post, []);
        assert post + [] == post;
        assert x[n..] == [];
      }
    }
  }

  /** `s.strip().split()` is `s.split()`. */
  lemma SplitIgnoresStrip(s: string)
    ensures Split(Strip(s)) == Split(s)
  {
    StripSpec(s);
    var r, k := Strip(s), LeadingSpace(s);
    var pre, post := s[..k], s[k + |r|..];
    assert s == pre + (r + post);
    assert AllSpace(pre);
    assert AllSpace(post) by {
      forall i | 0 <= i < |post| ensures IsSpace(post[i]) {
        assert post[i] == s[k + |r| + i];
      }
    }
    SplitSkipsSpace(pre, r + post);
    SplitDropsSpace(r, post);
  }

  /** The words `ws`, each followed by its whitespace run in `gaps`. */
  function JoinRuns(ws: seq<string>, gaps: seq<string>): string
    requires |gaps| == |ws|
  {
    if ws == [] then [] else ws[0] + gaps[0] + JoinRuns(ws[1..], gaps[1..])
  }

  /** Non-empty whitespace-free words, each followed by whitespace; only the
      last word may be followed by nothing. */
  predicate WellSpaced(ws: seq<string>, gaps: seq<string>) {
    && |gaps| == |ws|
    && (forall k :: 0 <= k < |ws| ==> ws[k] != [] && NoSpace(ws[k]))
    && (forall k :: 0 <= k < |gaps| ==> AllSpace(gaps[k]))
    && (forall k :: 0 <= k < |gaps| - 1 ==> gaps[k] != [])
  }

  /** Round trip: splitting words separated by any whitespace runs gives the words back. */
  lemma {:induction false} SplitJoinRuns(ws: seq<string>, gaps: seq<string>)
    requires WellSpaced(ws, gaps)
    ensures Split(JoinRuns(ws, gaps)) == ws
    decreases |ws|
  {
    if ws != [] {
      var w, g := ws[0], gaps[0];
      assert WellSpaced(ws[1..], gaps[1..]) by {
        assert forall k :: 0 <= k < |ws| - 1 ==> ws[1..][k] == ws[k + 1] && gaps[1..][k] == gaps[k + 1];
      }
      var rest := JoinRuns(ws[1..], gaps[1..]);
      assert w + g + rest == w + (g + rest);
      if g == [] {
        assert ws[1..] == [];
        assert g + rest == [];
      } else {
        assert (g + rest)[0] == g[0];
      }
      SplitFirstWord(w, g + rest);
      SplitSkipsSpace(g, rest);
      SplitJoinRuns(ws[1..], gaps[1..]);
      assert ws == [w] + ws[1..];
    }
  }

  // ---------------------------------------------------------------------
  // Substring test
  // ---------------------------------------------------------------------

  /** `needle` occurs in `hay` starting at position `i`. */
  predicate OccursAt(hay: string, needle: string, i: nat) {
    i + |needle| <= |hay| && hay[i..i + |needle|] == needle
  }

  /** `needle in hay` on strings: an occurrence fits inside `hay`, and the
      empty string occurs everywhere. */
  function Contains(hay: string, needle: string): (b: bool)
    ensures b ==> |needle| <= |hay|
    ensures needle == [] ==> b
  {
    assert needle == [] ==> OccursAt(hay, needle, 0);
    exists i: nat | i <= |hay| :: OccursAt(hay, needle, i)
  }

  /** A string contains every infix of it. */
  lemma ContainsInfix(a: string, needle: string, b: string)
    ensures Contains(a + needle + b, needle)
  {
    assert OccursAt(a + needle + b, needle, |a|);
  }
}
