/**
  Name normalisation (`norm` in app/app.py): the key under which every good,
  ingredient and recipe entry is looked up.

  The Python function is the pipeline
    missing -> ""
    replace NBSP by a space, en and em dashes by '-'
    re.sub(r"\s+", " ", s)      every run of white space becomes one space
    .strip()                    white space at both ends removed
    .lower()
  and each stage is one function below.
*/
module Normalize {
  import opened Wrappers

  const NO_BREAK_SPACE: char := '\U{00A0}'
  const EN_DASH: char := '\U{2013}'
  const EM_DASH: char := '\U{2014}'

  /** White space as Python's `\s` and `str.strip()` see it in a `str` (`str.isspace`). */
  predicate IsSpace(c: char) {
    || c == ' '
    || '\t' <= c <= '\r'
    || '\U{001C}' <= c <= '\U{001F}'
    || c == '\U{0085}'
    || c == NO_BREAK_SPACE
    || c == '\U{1680}'
    || '\U{2000}' <= c <= '\U{200A}'
    || c == '\U{2028}'
    || c == '\U{2029}'
    || c == '\U{202F}'
    || c == '\U{205F}'
    || c == '\U{3000}'
  }

  predicate IsUpper(c: char) {
    'A' <= c <= 'Z'
  }

  function LowerChar(c: char): char {
    if IsUpper(c) then (c as int + 32) as char else c
  }

  /** `str.lower()` on the ASCII letters. */
  function Lower(s: string): string {
    seq(|s|, i requires 0 <= i < |s| => LowerChar(s[i]))
  }

  function ReplaceChar(c: char): char {
    if c == NO_BREAK_SPACE then ' '
    else if c == EN_DASH || c == EM_DASH then '-'
    else c
  }

  /** The three `str.replace` calls; each swaps one character for one, so together they act char by char. */
  function ReplacePunctuation(s: string): string {
    seq(|s|, i requires 0 <= i < |s| => ReplaceChar(s[i]))
  }

  /** Drops the white space at the front. */
  function TrimStart(s: string): string {
    if s != [] && IsSpace(s[0]) then TrimStart(s[1..]) else s
  }

  /** What is left is a suffix of `s` that starts with no white space; all that was dropped is white space. */
  lemma {:induction false} TrimStartSpec(s: string)
    ensures |TrimStart(s)| <= |s| && TrimStart(s) == s[|s| - |TrimStart(s)|..]
    ensures TrimStart(s) != [] ==> !IsSpace(TrimStart(s)[0])
    ensures forall i :: 0 <= i < |s| - |TrimStart(s)| ==> IsSpace(s[i])
    decreases |s|
  {
    if s != [] && IsSpace(s[0]) {
      TrimStartSpec(s[1..]);
      assert forall i :: 1 <= i < |s| ==> s[1..][i - 1] == s[i];
    }
  }

  /** Drops the white space at the back. */
  function TrimEnd(s: string): string {
    if s != [] && IsSpace(s[|s| - 1]) then TrimEnd(s[..|s| - 1]) else s
  }

  /** What is left is a prefix of `s` that ends in no white space; all that was dropped is white space. */
  lemma {:induction false} TrimEndSpec(s: string)
    ensures |TrimEnd(s)| <= |s| && TrimEnd(s) == s[..|TrimEnd(s)|]
    ensures TrimEnd(s) != [] ==> !IsSpace(TrimEnd(s)[|TrimEnd(s)| - 1])
    ensures forall i :: |TrimEnd(s)| <= i < |s| ==> IsSpace(s[i])
    decreases |s|
  {
    if s != [] && IsSpace(s[|s| - 1]) {
      TrimEndSpec(s[..|s| - 1]);
    }
  }

  /** Where `Strip` starts cutting: the length of the white space at the front. */
  function StripOffset(s: string): (lo: nat)
    ensures lo <= |s|
  {
    TrimStartSpec(s);
    |s| - |TrimStart(s)|
  }

  /** `str.strip()`. */
  function Strip(s: string): string {
    TrimEnd(TrimStart(s))
  }

  /** `Strip` keeps the slice of `s` from `StripOffset(s)` on whose two ends are not white space; all outside it is. */
  lemma StripSpec(s: string)
    ensures |Strip(s)| <= |s| - StripOffset(s)
    ensures Strip(s) == s[StripOffset(s)..StripOffset(s) + |Strip(s)|]
    ensures Strip(s) != [] ==> !IsSpace(Strip(s)[0]) && !IsSpace(Strip(s)[|Strip(s)| - 1])
    ensures forall i :: 0 <= i < StripOffset(s) ==> IsSpace(s[i])
    ensures forall i :: StripOffset(s) + |Strip(s)| <= i < |s| ==> IsSpace(s[i])
  {
    var t := TrimStart(s);
    TrimStartSpec(s);
    TrimEndSpec(t);
    var lo := StripOffset(s);
    assert forall i :: lo + |Strip(s)| <= i < |s| ==> s[i] == t[i - lo];
  }

  /**
    `re.sub(r"\s+", " ", s)`: every maximal run of white space becomes a single
    space. The result keeps every other character, holds no white space but
    ' ', never two spaces in a row, and starts as `s` does.
  */
  function CollapseSpace(s: string): (r: string)
    ensures |r| <= |s|
    ensures s != [] ==> r != [] && r[0] == (if IsSpace(s[0]) then ' ' else s[0])
    ensures forall i :: 0 <= i < |r| ==> (IsSpace(r[i]) ==> r[i] == ' ')
    ensures forall i :: 0 <= i < |r| ==> (!IsSpace(r[i]) ==> r[i] in s)
    ensures forall i :: 0 <= i < |r| - 1 ==> !(r[i] == ' ' && r[i + 1] == ' ')
    decreases |s|
  {
    if s == [] then []
    else if IsSpace(s[0]) then
      var rest := s[1..];
      var t := TrimStart(rest);
      TrimStartSpec(rest);
      assert forall c :: c in t ==> c in s;
      [' '] + CollapseSpace(t)
    else
      [s[0]] + CollapseSpace(s[1..])
  }

  /** Collapsing keeps every character other than white space, in order. */
  lemma {:induction false} CollapseKeepsText(s: string)
    ensures DropSpace(CollapseSpace(s)) == DropSpace(s)
    decreases |s|
  {
    if s != [] {
      var r := CollapseSpace(s);
      if IsSpace(s[0]) {
        var rest := s[1..];
        var t := TrimStart(rest);
        TrimStartSpec(rest);
        var dropped := rest[..|rest| - |t|];
        assert rest == dropped + t;
        DropSpaceAppend(dropped, t);
        DropSpaceOfSpaces(dropped);
        CollapseKeepsText(t);
        assert r == [' '] + CollapseSpace(t);
        assert r[1..] == CollapseSpace(t);
      } else {
        CollapseKeepsText(s[1..]);
        assert r == [s[0]] + CollapseSpace(s[1..]);
        assert r[1..] == CollapseSpace(s[1..]);
      }
    }
  }

  /** The white space at the front of `w + y` is exactly `w` when `y` does not start with white space. */
  lemma {:induction false} TrimStartOfRun(w: string, y: string)
    requires forall i :: 0 <= i < |w| ==> IsSpace(w[i])
    requires y == [] || !IsSpace(y[0])
    ensures TrimStart(w + y) == y
    decreases |w|
  {
    if w == [] {
      assert w + y == y;
    } else {
      assert (w + y)[1..] == w[1..] + y;
      TrimStartOfRun(w[1..], y);
    }
  }

  /** A non-empty run of white space in front of text that does not start with white space becomes one `' '`. */
  lemma CollapseRun(w: string, y: string)
    requires w != [] && forall i :: 0 <= i < |w| ==> IsSpace(w[i])
    requires y == [] || !IsSpace(y[0])
    ensures CollapseSpace(w + y) == [' '] + CollapseSpace(y)
  {
    assert (w + y)[0] == w[0];
    assert (w + y)[1..] == w[1..] + y;
    TrimStartOfRun(w[1..], y);
  }

  /** No run of white space crosses the end of a text that ends in another character, so the two sides collapse apart. */
  lemma {:induction false} CollapseAppend(x: string, z: string)
    requires x == [] || !IsSpace(x[|x| - 1])
    ensures CollapseSpace(x + z) == CollapseSpace(x) + CollapseSpace(z)
    decreases |x|
  {
    if x == [] {
      assert x + z == z;
    } else {
      var head: string, t: string;
      if IsSpace(x[0]) {
        var rest := x[1..];
        assert rest != [] && rest[|rest| - 1] == x[|x| - 1];
        t := TrimStart(rest);
        TrimStartSpec(rest);
        assert t != [] && t[|t| - 1] == x[|x| - 1];
        head := [' '];
        assert CollapseSpace(x + z) == head + CollapseSpace(t + z) by {
          var dropped := rest[..|rest| - |t|];
          assert rest == dropped + t;
          assert (x + z)[1..] == dropped + (t + z);
          TrimStartOfRun(dropped, t + z);
        }
      } else {
        t := x[1..];
        head := [x[0]];
        assert CollapseSpace(x + z) == head + CollapseSpace(t + z) by {
          assert (x + z)[0] == x[0] && (x + z)[1..] == t + z;
        }
      }
      assert CollapseSpace(x) == head + CollapseSpace(t);
      CollapseAppend(t, z);
      ConcatAssoc(head, CollapseSpace(t), CollapseSpace(z));
    }
  }

  lemma ConcatAssoc(a: string, b: string, c: string)
    ensures a + (b + c) == (a + b) + c
  {
  }

  /** `re.sub(r"\s+", " ", ...)`: a run of white space between two other characters becomes exactly one `' '`. */
  lemma CollapseRunBetween(x: string, w: string, y: string)
    requires x == [] || !IsSpace(x[|x| - 1])
    requires w != [] && forall i :: 0 <= i < |w| ==> IsSpace(w[i])
    requires y == [] || !IsSpace(y[0])
    ensures CollapseSpace(x + (w + y)) == CollapseSpace(x) + ([' '] + CollapseSpace(y))
  {
    CollapseRun(w, y);
    CollapseAppend(x, w + y);
  }

  /** The characters of `s` other than white space, in order. */
  function DropSpace(s: string): string {
    if s == [] then [] else (if IsSpace(s[0]) then [] else [s[0]]) + DropSpace(s[1..])
  }

  lemma {:induction false} DropSpaceAppend(a: string, b: string)
    ensures DropSpace(a + b) == DropSpace(a) + DropSpace(b)
    decreases |a|
  {
    if a != [] {
      var head := if IsSpace(a[0]) then [] else [a[0]];
      assert (a + b)[0] == a[0] && (a + b)[1..] == a[1..] + b;
      DropSpaceAppend(a[1..], b);
      assert DropSpace(a + b) == head + (DropSpace(a[1..]) + DropSpace(b));
    } else {
      assert a + b == b;
    }
  }

  lemma {:induction false} DropSpaceOfSpaces(a: string)
    requires forall i :: 0 <= i < |a| ==> IsSpace(a[i])
    ensures DropSpace(a) == []
    decreases |a|
  {
    if a != [] {
      DropSpaceOfSpaces(a[1..]);
    }
  }

  /**
    `norm` on a string cell. Its output has no upper-case letter, no dash
    variant, no white space but single inner spaces, and no space at either end.
  */
  function NormText(s: string): (r: string)
    ensures IsNormalized(r)
  {
    var a := ReplacePunctuation(s);
    var b := CollapseSpace(a);
    CollapseKeepsDashesOut(a);
    var c := Strip(b);
    StripKeepsShape(b);
    LowerKeepsShape(c);
    Lower(c)
  }

  /** `norm`: a missing (NaN) cell normalises to the empty string. */
  function Norm(cell: Option<string>): (r: string)
    ensures cell.None? ==> r == ""
    ensures IsNormalized(r)
  {
    match cell
    case None => ""
    case Some(s) => NormText(s)
  }

  /** The shape every output of `norm` has. */
  predicate IsNormalized(t: string) {
    && (forall i :: 0 <= i < |t| ==>
          && !IsUpper(t[i])
          && t[i] != EN_DASH && t[i] != EM_DASH
          && (IsSpace(t[i]) ==> t[i] == ' '))
    && (t != [] ==> t[0] != ' ' && t[|t| - 1] != ' ')
    && (forall i :: 0 <= i < |t| - 1 ==> !(t[i] == ' ' && t[i + 1] == ' '))
  }

  lemma CollapseKeepsDashesOut(a: string)
    requires forall i :: 0 <= i < |a| ==> a[i] != EN_DASH && a[i] != EM_DASH && a[i] != NO_BREAK_SPACE
    ensures forall i :: 0 <= i < |CollapseSpace(a)| ==> CollapseSpace(a)[i] != EN_DASH && CollapseSpace(a)[i] != EM_DASH
  {
    var b := CollapseSpace(a);
    forall i | 0 <= i < |b| ensures b[i] != EN_DASH && b[i] != EM_DASH {
      if !IsSpace(b[i]) {
        assert b[i] in a;
      }
    }
  }

  /** Stripping keeps every per-character property and adjacency, and leaves no space at either end. */
  lemma StripKeepsShape(b: string)
    requires forall i :: 0 <= i < |b| ==> b[i] != EN_DASH && b[i] != EM_DASH && (IsSpace(b[i]) ==> b[i] == ' ')
    requires forall i :: 0 <= i < |b| - 1 ==> !(b[i] == ' ' && b[i + 1] == ' ')
    ensures var c := Strip(b);
      && (forall i :: 0 <= i < |c| ==> c[i] != EN_DASH && c[i] != EM_DASH && (IsSpace(c[i]) ==> c[i] == ' '))
      && (forall i :: 0 <= i < |c| - 1 ==> !(c[i] == ' ' && c[i + 1] == ' '))
      && (c != [] ==> c[0] != ' ' && c[|c| - 1] != ' ')
  {
    var c := Strip(b);
    var lo := StripOffset(b);
    StripSpec(b);
    assert forall i :: 0 <= i < |c| ==> c[i] == b[lo + i];
  }

  lemma LowerKeepsShape(c: string)
    requires forall i :: 0 <= i < |c| ==> c[i] != EN_DASH && c[i] != EM_DASH && (IsSpace(c[i]) ==> c[i] == ' ')
    requires forall i :: 0 <= i < |c| - 1 ==> !(c[i] == ' ' && c[i + 1] == ' ')
    requires c != [] ==> c[0] != ' ' && c[|c| - 1] != ' '
    ensures IsNormalized(Lower(c))
  {
    var d := Lower(c);
    assert forall i :: 0 <= i < |d| ==> d[i] == LowerChar(c[i]);
    assert forall i :: 0 <= i < |d| ==> (d[i] == ' ' <==> c[i] == ' ');
  }

  /** Collapsing leaves a string alone whose only white space is single spaces. */
  lemma {:induction false} CollapseFixes(t: string)
    requires forall i :: 0 <= i < |t| ==> (IsSpace(t[i]) ==> t[i] == ' ')
    requires forall i :: 0 <= i < |t| - 1 ==> !(t[i] == ' ' && t[i + 1] == ' ')
    ensures CollapseSpace(t) == t
    decreases |t|
  {
    if t != [] {
      var rest := t[1..];
      assert forall i :: 0 <= i < |rest| ==> rest[i] == t[i + 1];
      CollapseFixes(rest);
      if IsSpace(t[0]) {
        assert rest == [] || !IsSpace(rest[0]);
        assert TrimStart(rest) == rest;
        assert CollapseSpace(t) == [' '] + CollapseSpace(rest);
      } else {
        assert CollapseSpace(t) == [t[0]] + CollapseSpace(rest);
      }
      assert t == [t[0]] + rest;
    }
  }

  /** A normalised string is a fixed point of `norm`. */
  lemma NormFixes(t: string)
    requires IsNormalized(t)
    ensures NormText(t) == t
  {
    assert ReplacePunctuation(t) == t;
    CollapseFixes(t);
    assert TrimStart(t) == t;
    assert TrimEnd(t) == t;
    assert Lower(t) == t;
  }

  /** `norm` is idempotent. */
  lemma NormIdempotent(s: string)
    ensures NormText(NormText(s)) == NormText(s)
  {
    NormFixes(NormText(s));
  }
}
