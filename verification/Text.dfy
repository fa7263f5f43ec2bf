/** Characters and Python's whitespace handling: `re.sub(r"\s+", " ", s)` and `str.strip()`. */
module Text {

  /** `str.isspace()` on one character, which `\s` and `strip` share. */
  predicate IsSpace(c: char) {
    || '\U{09}' <= c <= '\U{0D}' || '\U{1C}' <= c <= ' '
    || c == '\U{85}' || c == '\U{A0}' || c == '\U{1680}'
    || '\U{2000}' <= c <= '\U{200A}'
    || c == '\U{2028}' || c == '\U{2029}' || c == '\U{202F}' || c == '\U{205F}' || c == '\U{3000}'
  }

  /** The whitespace of Python's `str.isspace()`, by code point. */
  lemma SpacesAre(c: char)
    ensures IsSpace(c) <==>
      || c as int in {9, 10, 11, 12, 13, 28, 29, 30, 31, 32, 133, 160, 5760, 8232, 8233, 8239, 8287, 12288}
      || 8192 <= c as int <= 8202
  {
  }

  /** A decimal digit. */
  function Digit(n: nat): char
    requires n < 10
  {
    ('0' as int + n) as char
  }

  predicate Blank(s: string) { forall k :: 0 <= k < |s| ==> IsSpace(s[k]) }

  function DropSpaces(s: string): (r: string)
    ensures |r| <= |s|
    ensures r != [] ==> !IsSpace(r[0])
  {
    if s != [] && IsSpace(s[0]) then DropSpaces(s[1..]) else s
  }

  /** `re.sub(r"\s+", " ", s)`: every maximal run of whitespace becomes one space. */
  function Collapse(s: string): string
    decreases |s|
  {
    if s == [] then []
    else if IsSpace(s[0]) then " " + Collapse(DropSpaces(s[1..]))
    else [s[0]] + Collapse(s[1..])
  }

  function StripRight(s: string): string {
    if s != [] && IsSpace(s[|s| - 1]) then StripRight(s[..|s| - 1]) else s
  }

  /** `s.strip()`. */
  function Strip(s: string): string { StripRight(DropSpaces(s)) }

  /** The visible characters of a text, in order. */
  function Visible(s: string): string {
    if s == [] then [] else if IsSpace(s[0]) then Visible(s[1..]) else [s[0]] + Visible(s[1..])
  }

  // ------------------------------------------------------------ collapsing

  /** Whitespace occurs only as single spaces. */
  predicate Single(s: string) {
    forall k :: 0 <= k < |s| && IsSpace(s[k]) ==> s[k] == ' ' && (k + 1 < |s| ==> !IsSpace(s[k + 1]))
  }

  lemma {:induction false} CollapseShape(s: string)
    ensures Single(Collapse(s))
    ensures s != [] && !IsSpace(s[0]) ==> Collapse(s) != [] && Collapse(s)[0] == s[0]
    decreases |s|
  {
    if s != [] {
      if IsSpace(s[0]) {
        var d := DropSpaces(s[1..]);
        CollapseShape(d);
        assert Collapse(s) == " " + Collapse(d);
        if d == [] {
          assert Collapse(d) == [];
        }
      } else {
        CollapseShape(s[1..]);
      }
    }
  }

  /** A text is left unchanged exactly when its whitespace is single spaces already. */
  lemma {:induction false} CollapseFixed(s: string)
    ensures Collapse(s) == s <==> Single(s)
    decreases |s|
  {
    if Single(s) && s != [] {
      assert Single(s[1..]);
      CollapseFixed(s[1..]);
      if IsSpace(s[0]) {
        assert DropSpaces(s[1..]) == s[1..];
      }
    }
    CollapseShape(s);
  }

  lemma {:induction false} CollapseVisible(s: string)
    ensures Visible(Collapse(s)) == Visible(s)
    decreases |s|
  {
    if s != [] {
      if IsSpace(s[0]) {
        CollapseVisible(DropSpaces(s[1..]));
        DropVisible(s[1..]);
      } else {
        CollapseVisible(s[1..]);
      }
    }
  }

  lemma DropVisible(s: string)
    ensures Visible(DropSpaces(s)) == Visible(s)
  {
  }

  // ------------------------------------------------------------- stripping

  predicate Trimmed(s: string) { s == [] || (!IsSpace(s[0]) && !IsSpace(s[|s| - 1])) }

  lemma {:induction false} StripRightPrefix(s: string)
    ensures |StripRight(s)| <= |s| && StripRight(s) == s[..|StripRight(s)|]
    ensures StripRight(s) != [] ==> !IsSpace(StripRight(s)[|StripRight(s)| - 1])
    ensures StripRight(s) == [] ==> Blank(s)
  {
    if s != [] && IsSpace(s[|s| - 1]) {
      var t := s[..|s| - 1];
      StripRightPrefix(t);
      assert StripRight(s) == t[..|StripRight(t)|];
      assert forall k :: 0 <= k < |t| ==> s[k] == t[k];
    }
  }

  lemma DropSuffix(s: string)
    ensures DropSpaces(s) == s[|s| - |DropSpaces(s)|..]
    ensures DropSpaces(s) == [] ==> Blank(s)
  {
  }

  lemma StripTrims(s: string)
    ensures Trimmed(Strip(s))
    ensures Strip(s) == [] <==> Blank(s)
    ensures Strip(s) == s <==> Trimmed(s)
  {
    var d := DropSpaces(s);
    DropSuffix(s);
    StripRightPrefix(d);
    if Blank(s) {
      BlankDrop(s);
    }
  }

  lemma BlankDrop(s: string)
    requires Blank(s)
    ensures DropSpaces(s) == []
  {
  }

  lemma VisibleConcat(a: string, b: string)
    ensures Visible(a + b) == Visible(a) + Visible(b)
  {
    if a == [] {
      assert a + b == b;
    } else {
      assert (a + b)[1..] == a[1..] + b;
    }
  }

  lemma {:induction false} StripRightVisible(s: string)
    ensures Visible(StripRight(s)) == Visible(s)
  {
    if s != [] && IsSpace(s[|s| - 1]) {
      StripRightVisible(s[..|s| - 1]);
      VisibleConcat(s[..|s| - 1], [s[|s| - 1]]);
      assert s == s[..|s| - 1] + [s[|s| - 1]];
    }
  }

  lemma StripVisible(s: string)
    ensures Visible(Strip(s)) == Visible(s)
  {
    DropVisible(s);
    StripRightVisible(DropSpaces(s));
  }

  /** Stripping a text keeps single spaces single. */
  lemma StripSingle(s: string)
    requires Single(s)
    ensures Single(Strip(s))
  {
    var d := DropSpaces(s);
    DropSuffix(s);
    StripRightPrefix(d);
    var n := |s| - |d|;
    assert forall k :: 0 <= k < |Strip(s)| ==> Strip(s)[k] == s[n + k];
  }

  // ------------------------------------------------------------------ words

  predicate Word(w: string) { w != [] && forall k :: 0 <= k < |w| ==> !IsSpace(w[k]) }

  /** Length of the word that a text begins with. */
  function WordLength(s: string): (n: nat)
    ensures n <= |s|
    ensures forall k :: 0 <= k < n ==> !IsSpace(s[k])
    ensures n < |s| ==> IsSpace(s[n])
  {
    if s == [] || IsSpace(s[0]) then 0 else 1 + WordLength(s[1..])
  }

  lemma WordLengthIs(w: string, rest: string)
    requires Word(w) && (rest != [] ==> IsSpace(rest[0]))
    ensures WordLength(w + rest) == |w|
  {
    assert forall k :: 0 <= k < |w| ==> (w + rest)[k] == w[k];
    assert rest != [] ==> (w + rest)[|w|] == rest[0];
  }
}
