/** The string operations the validators rely on: `str.strip()`, the
    `\s+` to `' '` substitution, the `in` substring test, `str.lower()` as
    far as the blocked-phrase check can observe it, and `str.join`. */
module Text {

  /** The characters Python treats as whitespace, both for `str.strip()`
      and for the `\s` class of a `re` pattern over `str`. */
  predicate IsSpace(c: char) {
    || c == ' '
    || ('\t' <= c <= '\r')
    || ('\U{1C}' <= c <= '\U{1F}')
    || c == '\U{85}'
    || c == '\U{A0}'
    || c == '\U{1680}'
    || ('\U{2000}' <= c <= '\U{200A}')
    || c == '\U{2028}'
    || c == '\U{2029}'
    || c == '\U{202F}'
    || c == '\U{205F}'
    || c == '\U{3000}'
  }

  predicate AllSpace(s: string) {
    forall i :: 0 <= i < |s| ==> IsSpace(s[i])
  }

  /** Removes leading whitespace (`str.lstrip()`). */
  function TrimStart(s: string): (r: string)
    ensures |r| <= |s|
  {
    if s != [] && IsSpace(s[0]) then TrimStart(s[1..]) else s
  }

  /** Removes trailing whitespace (`str.rstrip()`). */
  function TrimEnd(s: string): string
  {
    if s != [] && IsSpace(s[|s| - 1]) then TrimEnd(s[..|s| - 1]) else s
  }

  /** `str.strip()`. */
  function Strip(s: string): string {
    TrimEnd(TrimStart(s))
  }

  /** `re.sub(r'\s+', ' ', s)`: every maximal run of whitespace becomes one
      space. */
  function Collapse(s: string): string
    decreases |s|
  {
    if s == [] then []
    else if IsSpace(s[0]) then [' '] + Collapse(TrimStart(s))
    else [s[0]] + Collapse(s[1..])
  }

  /** The non-whitespace characters of `s`, in order. */
  function NonSpace(s: string): string {
    if s == [] then []
    else if IsSpace(s[0]) then NonSpace(s[1..])
    else [s[0]] + NonSpace(s[1..])
  }

  /** No whitespace other than single `' '` characters, and none at either
      end: the shape of a message the validator accepts. */
  predicate Normalized(m: string) {
    && (m == [] || (!IsSpace(m[0]) && !IsSpace(m[|m| - 1])))
    && (forall i :: 0 <= i < |m| && IsSpace(m[i]) ==> m[i] == ' ')
    && (forall i :: 0 < i < |m| && m[i] == ' ' ==> m[i - 1] != ' ')
  }

  predicate OccursAt(w: string, s: string, i: int) {
    0 <= i && i + |w| <= |s| && s[i..i + |w|] == w
  }

  /** Python's `w in s` for strings. */
  predicate IsSubstring(w: string, s: string) {
    exists i | 0 <= i <= |s| - |w| :: OccursAt(w, s, i)
  }

  /** The lower-casing of one character as the blocked-phrase check sees it:
      ASCII capitals, and the Kelvin sign, which `str.lower()` maps to `k`. */
  function LowerChar(c: char): char {
    if 'A' <= c <= 'Z' then (c as int + 32) as char
    else if c == '\U{212A}' then 'k'
    else c
  }

  /** `str.lower()` as far as the blocked-phrase check can observe it. */
  function Lower(s: string): string {
    seq(|s|, i requires 0 <= i < |s| => LowerChar(s[i]))
  }

  /** Lower-casing leaves no ASCII capital and no Kelvin sign behind, so
      lower-casing twice is lower-casing once. */
  lemma LowerIdempotent(s: string)
    ensures forall i :: 0 <= i < |Lower(s)| ==> !('A' <= Lower(s)[i] <= 'Z') && Lower(s)[i] != '\U{212A}'
    ensures Lower(Lower(s)) == Lower(s)
  {
  }

  /** A `<` survives lower-casing, and none appears from nothing. */
  lemma LowerKeepsAngleBracket(s: string)
    ensures '<' in Lower(s) <==> '<' in s
  {
    if '<' in s {
      var i :| 0 <= i < |s| && s[i] == '<';
      assert Lower(s)[i] == '<';
    }
  }

  /** `sep.join(xs)`. */
  function Join(sep: string, xs: seq<string>): string
    decreases |xs|
  {
    if xs == [] then ""
    else if |xs| == 1 then xs[0]
    else xs[0] + sep + Join(sep, xs[1..])
  }

  // ---------------------------------------------------------------------
  // Properties of strip

  /** `TrimStart` removes a whitespace prefix and stops at a non-space. */
  lemma {:induction false} TrimStartShape(s: string)
    ensures var r := TrimStart(s);
      && r == s[|s| - |r|..]
      && AllSpace(s[..|s| - |r|])
      && (r == [] || !IsSpace(r[0]))
  {
    if s != [] && IsSpace(s[0]) {
      TrimStartShape(s[1..]);
      var r := TrimStart(s);
      assert s[..|s| - |r|] == [s[0]] + s[1..][..|s| - 1 - |r|];
    }
  }

  /** `TrimEnd` removes a whitespace suffix and stops at a non-space. */
  lemma {:induction false} TrimEndShape(s: string)
    ensures var r := TrimEnd(s);
      && |r| <= |s| && r == s[..|r|]
      && AllSpace(s[|r|..])
      && (r == [] || !IsSpace(r[|r| - 1]))
  {
    if s != [] && IsSpace(s[|s| - 1]) {
      TrimEndShape(s[..|s| - 1]);
      var r := TrimEnd(s);
      assert s[|r|..] == s[..|s| - 1][|r|..] + [s[|s| - 1]];
    }
  }

  /** `Strip(s)` is `s` with a whitespace prefix and a whitespace suffix
      removed, and it neither starts nor ends with whitespace. */
  lemma StripShape(s: string) returns (i: nat, j: nat)
    ensures i <= j <= |s| && Strip(s) == s[i..j]
    ensures AllSpace(s[..i]) && AllSpace(s[j..])
    ensures Strip(s) == [] || (!IsSpace(Strip(s)[0]) && !IsSpace(Strip(s)[|Strip(s)| - 1]))
  {
    var t := TrimStart(s);
    var r := TrimEnd(t);
    TrimStartShape(s);
    TrimEndShape(t);
    i := |s| - |t|;
    j := i + |r|;
    assert r == t[..|r|];
    assert t[|r|..] == s[j..];
    if r != [] {
      assert r[0] == t[0];
    }
  }

  /** Stripping is idempotent. */
  lemma StripIdempotent(s: string)
    ensures Strip(Strip(s)) == Strip(s)
  {
    var r := Strip(s);
    var _, _ := StripShape(s);
    assert TrimStart(r) == r;
    if r != [] {
      assert !IsSpace(r[|r| - 1]);
    }
  }

  /** Whitespace followed by text that starts with a non-space is trimmed to
      that text. */
  lemma {:induction false} TrimStartSkips(ws: string, rest: string)
    requires AllSpace(ws)
    requires rest == [] || !IsSpace(rest[0])
    ensures TrimStart(ws + rest) == rest
  {
    if ws != [] {
      assert (ws + rest)[1..] == ws[1..] + rest;
      TrimStartSkips(ws[1..], rest);
    }
  }

  // ---------------------------------------------------------------------
  // Properties of the whitespace collapse

  lemma {:induction false} NonSpaceOfSpaces(s: string)
    requires AllSpace(s)
    ensures NonSpace(s) == []
  {
    if s != [] {
      NonSpaceOfSpaces(s[1..]);
    }
  }

  lemma {:induction false} NonSpaceAppend(a: string, b: string)
    ensures NonSpace(a + b) == NonSpace(a) + NonSpace(b)
  {
    if a != [] {
      assert (a + b)[1..] == a[1..] + b;
      NonSpaceAppend(a[1..], b);
    } else {
      assert a + b == b;
    }
  }

  lemma NonSpaceTrimStart(s: string)
    ensures NonSpace(TrimStart(s)) == NonSpace(s)
  {
    var t := TrimStart(s);
    TrimStartShape(s);
    var k := |s| - |t|;
    assert s == s[..k] + t;
    NonSpaceAppend(s[..k], t);
    NonSpaceOfSpaces(s[..k]);
  }

  /** The collapse keeps every non-whitespace character, in order: only
      whitespace is rewritten. */
  lemma {:induction false} CollapseKeepsText(s: string)
    ensures NonSpace(Collapse(s)) == NonSpace(s)
    decreases |s|
  {
    if s == [] {
    } else if IsSpace(s[0]) {
      var t := TrimStart(s);
      CollapseKeepsText(t);
      NonSpaceTrimStart(s);
      NonSpaceAppend([' '], Collapse(t));
    } else {
      CollapseKeepsText(s[1..]);
      NonSpaceAppend([s[0]], Collapse(s[1..]));
    }
  }

  /** The collapse never lengthens its input. */
  lemma {:induction false} CollapseNoLonger(s: string)
    ensures |Collapse(s)| <= |s|
    decreases |s|
  {
    if s == [] {
    } else if IsSpace(s[0]) {
      CollapseNoLonger(TrimStart(s));
    } else {
      CollapseNoLonger(s[1..]);
    }
  }

  /** The first and last characters of a collapse are whitespace exactly
      when those of its input are. */
  lemma {:induction false} CollapseEnds(s: string)
    ensures |Collapse(s)| == 0 <==> |s| == 0
    ensures s != [] ==> (IsSpace(Collapse(s)[0]) <==> IsSpace(s[0]))
    ensures s != [] ==> (IsSpace(Collapse(s)[|Collapse(s)| - 1]) <==> IsSpace(s[|s| - 1]))
    decreases |s|
  {
    if s == [] {
    } else if IsSpace(s[0]) {
      var t := TrimStart(s);
      var c := Collapse(t);
      assert Collapse(s) == [' '] + c;
      TrimStartShape(s);
      CollapseEnds(t);
      if t == [] {
        assert AllSpace(s[..|s|]);
        assert s[..|s|][|s| - 1] == s[|s| - 1];
      } else {
        assert s[|s| - 1] == t[|t| - 1];
        assert Collapse(s)[|Collapse(s)| - 1] == c[|c| - 1];
      }
    } else {
      var c := Collapse(s[1..]);
      assert Collapse(s) == [s[0]] + c;
      CollapseEnds(s[1..]);
      if s[1..] != [] {
        assert s[1..][|s| - 2] == s[|s| - 1];
        assert Collapse(s)[|Collapse(s)| - 1] == c[|c| - 1];
      }
    }
  }

  /** A collapse holds no whitespace but single `' '` characters. */
  lemma {:induction false} CollapseSingleSpaced(s: string)
    ensures forall i :: 0 <= i < |Collapse(s)| && IsSpace(Collapse(s)[i]) ==> Collapse(s)[i] == ' '
    ensures forall i :: 0 < i < |Collapse(s)| && Collapse(s)[i] == ' ' ==> Collapse(s)[i - 1] != ' '
    decreases |s|
  {
    if s == [] {
    } else if IsSpace(s[0]) {
      var t := TrimStart(s);
      TrimStartShape(s);
      CollapseSingleSpaced(t);
      CollapseEnds(t);
    } else {
      CollapseSingleSpaced(s[1..]);
    }
  }

  /** What the validator does to whitespace yields a normalized string that
      has the input's text, and is the input's words joined by single
      spaces. */
  lemma StripCollapseNormalized(s: string)
    ensures Normalized(Collapse(Strip(s)))
    ensures NonSpace(Collapse(Strip(s))) == NonSpace(s)
    ensures Collapse(Strip(s)) == Join(" ", Words(s))
  {
    StripCollapseJoinsWords(s);
    var r := Strip(s);
    var i, j := StripShape(s);
    CollapseEnds(r);
    CollapseSingleSpaced(r);
    CollapseKeepsText(r);
    assert s == s[..i] + r + s[j..];
    NonSpaceAppend(s[..i] + r, s[j..]);
    NonSpaceAppend(s[..i], r);
    NonSpaceOfSpaces(s[..i]);
    NonSpaceOfSpaces(s[j..]);
  }

  /** A normalized string is a fixed point of the collapse, so collapsing
      twice is collapsing once. */
  lemma {:induction false} CollapseFixesNormalized(m: string)
    requires forall i :: 0 <= i < |m| && IsSpace(m[i]) ==> m[i] == ' '
    requires forall i :: 0 < i < |m| && m[i] == ' ' ==> m[i - 1] != ' '
    ensures Collapse(m) == m
    decreases |m|
  {
    if m == [] {
    } else if IsSpace(m[0]) {
      var t := TrimStart(m);
      if |m| > 1 {
        assert m[1] != ' ';
        assert !IsSpace(m[1]);
        assert TrimStart(m) == TrimStart(m[1..]);
        assert m[1..][0] == m[1];
        assert t == m[1..];
      } else {
        assert TrimStart(m) == TrimStart(m[1..]);
        assert t == [];
      }
      CollapseFixesNormalized(m[1..]);
    } else {
      CollapseFixesNormalized(m[1..]);
    }
  }

  lemma CollapseIdempotent(s: string)
    ensures Collapse(Collapse(s)) == Collapse(s)
  {
    CollapseSingleSpaced(s);
    CollapseFixesNormalized(Collapse(s));
  }

  /** A non-whitespace character occurs in `s` exactly when it occurs among
      its non-whitespace characters. */
  lemma {:induction false} InNonSpace(c: char, s: string)
    requires !IsSpace(c)
    ensures c in NonSpace(s) <==> c in s
  {
    if s != [] {
      InNonSpace(c, s[1..]);
      assert s == [s[0]] + s[1..];
    }
  }

  // ---------------------------------------------------------------------
  // Words: what strip and collapse keep of a text

  /** The length of the run of non-whitespace characters `s` starts with. */
  function WordLength(s: string): (n: nat)
    ensures n <= |s|
  {
    if s == [] || IsSpace(s[0]) then 0 else 1 + WordLength(s[1..])
  }

  /** The words of `s`: its maximal runs of non-whitespace characters, in
      order. */
  function Words(s: string): seq<string>
    decreases |s|
  {
    if s == [] then []
    else if IsSpace(s[0]) then Words(s[1..])
    else
      var n := WordLength(s);
      [s[..n]] + Words(s[n..])
  }

  /** A non-empty text without whitespace. */
  predicate IsWord(w: string) {
    w != [] && forall i :: 0 <= i < |w| ==> !IsSpace(w[i])
  }

  /** `WordLength` stops exactly at the first whitespace. */
  lemma {:induction false} WordLengthShape(s: string)
    ensures forall i :: 0 <= i < WordLength(s) ==> !IsSpace(s[i])
    ensures WordLength(s) < |s| ==> IsSpace(s[WordLength(s)])
    decreases |s|
  {
    if s != [] && !IsSpace(s[0]) {
      WordLengthShape(s[1..]);
      assert forall i :: 1 <= i < WordLength(s) ==> s[i] == s[1..][i - 1];
    }
  }

  /** Every word is non-empty and holds no whitespace. */
  lemma {:induction false} WordsShape(s: string)
    ensures forall k :: 0 <= k < |Words(s)| ==> IsWord(Words(s)[k])
    decreases |s|
  {
    if s == [] {
    } else if IsSpace(s[0]) {
      WordsShape(s[1..]);
    } else {
      var n := WordLength(s);
      WordLengthShape(s);
      WordsShape(s[n..]);
      assert IsWord(s[..n]);
    }
  }

  /** The collapse copies a leading run of non-whitespace unchanged. */
  lemma {:induction false} CollapseWord(s: string, n: nat)
    requires n <= |s|
    requires forall i :: 0 <= i < n ==> !IsSpace(s[i])
    ensures Collapse(s) == s[..n] + Collapse(s[n..])
    decreases n
  {
    if n > 0 {
      CollapseWord(s[1..], n - 1);
      assert s[1..][n - 1..] == s[n..];
      assert s[..n] == [s[0]] + s[1..][..n - 1];
    }
  }

  /** Leading whitespace holds no word. */
  lemma {:induction false} WordsSkipSpaces(s: string)
    ensures Words(TrimStart(s)) == Words(s)
    decreases |s|
  {
    if s != [] && IsSpace(s[0]) {
      WordsSkipSpaces(s[1..]);
    }
  }

  lemma {:induction false} WordsOfSpaces(s: string)
    requires AllSpace(s)
    ensures Words(s) == []
    decreases |s|
  {
    if s != [] {
      WordsOfSpaces(s[1..]);
    }
  }

  lemma {:induction false} WordLengthAppendSpaces(a: string, ws: string)
    requires ws == [] || IsSpace(ws[0])
    ensures WordLength(a + ws) == WordLength(a)
    decreases |a|
  {
    if a == [] {
      assert a + ws == ws;
    } else if !IsSpace(a[0]) {
      assert (a + ws)[1..] == a[1..] + ws;
      WordLengthAppendSpaces(a[1..], ws);
    }
  }

  /** Trailing whitespace holds no word. */
  lemma {:induction false} WordsAppendSpaces(a: string, ws: string)
    requires AllSpace(ws)
    ensures Words(a + ws) == Words(a)
    decreases |a|
  {
    if a == [] {
      assert a + ws == ws;
      WordsOfSpaces(ws);
    } else if IsSpace(a[0]) {
      assert (a + ws)[1..] == a[1..] + ws;
      WordsAppendSpaces(a[1..], ws);
    } else {
      var n := WordLength(a);
      WordLengthAppendSpaces(a, ws);
      assert (a + ws)[..n] == a[..n];
      assert (a + ws)[n..] == a[n..] + ws;
      WordsAppendSpaces(a[n..], ws);
    }
  }

  /** Stripping keeps every word. */
  lemma WordsStrip(s: string)
    ensures Words(Strip(s)) == Words(s)
  {
    var t := TrimStart(s);
    TrimStartShape(s);
    TrimEndShape(t);
    var r := TrimEnd(t);
    assert t == r + t[|r|..];
    WordsAppendSpaces(r, t[|r|..]);
    WordsSkipSpaces(s);
  }

  /** On a text with no whitespace at either end, the collapse is its words
      joined by single spaces: every run of whitespace between two words
      becomes one `' '` in its place. */
  lemma {:induction false} CollapseJoinsWords(s: string)
    requires s == [] || (!IsSpace(s[0]) && !IsSpace(s[|s| - 1]))
    ensures Collapse(s) == Join(" ", Words(s))
    decreases |s|
  {
    if s != [] {
      var n := WordLength(s);
      WordLengthShape(s);
      CollapseWord(s, n);
      var rest := s[n..];
      if rest == [] {
        assert s[..n] == s;
        assert Words(s) == [s] + Words([]);
      } else {
        var u := TrimStart(rest);
        TrimStartShape(rest);
        assert rest[|rest| - 1] == s[|s| - 1];
        assert u != [];
        assert u[|u| - 1] == rest[|rest| - 1];
        CollapseJoinsWords(u);
        WordsSkipSpaces(rest);
        assert Collapse(rest) == [' '] + Collapse(u);
        var m := WordLength(u);
        assert Words(u) == [u[..m]] + Words(u[m..]);
        var ws := [s[..n]] + Words(u);
        assert Words(s) == ws;
        assert ws[1..] == Words(u);
        assert Join(" ", ws) == s[..n] + " " + Join(" ", Words(u));
      }
    }
  }

  /** What the validator does to whitespace: the stripped, collapsed text is
      exactly the input's words joined by single spaces. */
  lemma StripCollapseJoinsWords(s: string)
    ensures Collapse(Strip(s)) == Join(" ", Words(s))
  {
    var _, _ := StripShape(s);
    CollapseJoinsWords(Strip(s));
    WordsStrip(s);
  }

  // ---------------------------------------------------------------------
  // Properties of join

  /** Every part of a join occurs in it. */
  lemma {:induction false} JoinContainsParts(sep: string, xs: seq<string>, k: int)
    requires 0 <= k < |xs|
    ensures IsSubstring(xs[k], Join(sep, xs))
    decreases |xs|
  {
    var j := Join(sep, xs);
    if |xs| == 1 {
      assert OccursAt(xs[0], j, 0);
    } else if k == 0 {
      assert j[0..|xs[0]|] == xs[0];
      assert OccursAt(xs[0], j, 0);
    } else {
      JoinContainsParts(sep, xs[1..], k - 1);
      var rest := Join(sep, xs[1..]);
      var p := |xs[0] + sep|;
      var i :| 0 <= i <= |rest| - |xs[k]| && OccursAt(xs[k], rest, i);
      assert j == (xs[0] + sep) + rest;
      assert j[p + i..p + i + |xs[k]|] == rest[i..i + |xs[k]|];
      assert OccursAt(xs[k], j, p + i);
    }
  }

  /** An occurrence in a suffix is an occurrence in the whole. */
  lemma SubstringOfSuffix(w: string, prefix: string, s: string)
    requires IsSubstring(w, s)
    ensures IsSubstring(w, prefix + s)
  {
    var i :| 0 <= i <= |s| - |w| && OccursAt(w, s, i);
    assert (prefix + s)[|prefix| + i..|prefix| + i + |w|] == s[i..i + |w|];
    assert OccursAt(w, prefix + s, |prefix| + i);
  }

  /** An occurrence in a prefix is an occurrence in the whole. */
  lemma SubstringOfPrefix(w: string, s: string, suffix: string)
    requires IsSubstring(w, s)
    ensures IsSubstring(w, s + suffix)
  {
    var i :| 0 <= i <= |s| - |w| && OccursAt(w, s, i);
    assert (s + suffix)[i..i + |w|] == s[i..i + |w|];
    assert OccursAt(w, s + suffix, i);
  }
}
