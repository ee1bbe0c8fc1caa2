/** String helpers shared by the analyzer stages: case-insensitive substring tests,
    JavaScript's `trim`, `Array.prototype.join` and decimal rendering of integers. */
module TextUtil {

  /** The canonical form a case-insensitive (`/i`) JavaScript regex gives an
      ASCII letter. A non-ASCII character never folds onto an ASCII one. */
  function FoldCase(c: char): char
  {
    if 'A' <= c <= 'Z' then (c as int + 32) as char else c
  }

  /** `s` begins with `p`, comparing characters as a `/i` regex does. */
  predicate StartsWithFolded(s: string, p: string)
    decreases p
  {
    p == [] || (s != [] && FoldCase(s[0]) == FoldCase(p[0]) && StartsWithFolded(s[1..], p[1..]))
  }

  /** `s` contains `p` somewhere, comparing as a `/i` regex does: the outcome of
      `/p/i.test(s)` for a pattern `p` without special characters. */
  predicate ContainsFolded(s: string, p: string)
    decreases |s|
  {
    StartsWithFolded(s, p) || (s != [] && ContainsFolded(s[1..], p))
  }

  /** The two strings agree character by character up to case folding. */
  ghost predicate EqualFolded(a: string, b: string)
  {
    |a| == |b| && forall k :: 0 <= k < |a| ==> FoldCase(a[k]) == FoldCase(b[k])
  }

  lemma {:induction false} StartsWithFoldedIsPrefix(s: string, p: string)
    ensures StartsWithFolded(s, p) <==> |p| <= |s| && EqualFolded(s[..|p|], p)
    decreases p
  {
    if p != [] && s != [] {
      StartsWithFoldedIsPrefix(s[1..], p[1..]);
      if |p| <= |s| {
        assert s[1..][..|p| - 1] == s[..|p|][1..];
        if EqualFolded(s[..|p|], p) {
          assert EqualFolded(s[1..][..|p| - 1], p[1..]) by {
            forall k | 0 <= k < |p| - 1
              ensures FoldCase(s[1..][..|p| - 1][k]) == FoldCase(p[1..][k])
            {
              assert s[1..][..|p| - 1][k] == s[..|p|][k + 1];
            }
          }
        }
        if StartsWithFolded(s, p) {
          forall k | 0 <= k < |p|
            ensures FoldCase(s[..|p|][k]) == FoldCase(p[k])
          {
            if k > 0 {
              assert s[..|p|][k] == s[1..][..|p| - 1][k - 1];
            }
          }
        }
      }
    }
  }

  /** A window of `s` starting at `i` equals `p` up to case. */
  ghost predicate FoldedAt(s: string, i: int, p: string)
  {
    0 <= i && i + |p| <= |s| && EqualFolded(s[i..i + |p|], p)
  }

  /** Independent characterisation of `ContainsFolded`: some window of `s`
      equals `p` up to case. */
  lemma {:induction false} ContainsFoldedIffWindow(s: string, p: string)
    ensures ContainsFolded(s, p) <==> exists i :: FoldedAt(s, i, p)
    decreases |s|
  {
    StartsWithFoldedIsPrefix(s, p);
    if |p| <= |s| { assert s[0..|p|] == s[..|p|]; }
    if StartsWithFolded(s, p) {
      assert FoldedAt(s, 0, p);
    }
    if s != [] {
      ContainsFoldedIffWindow(s[1..], p);
      if ContainsFolded(s[1..], p) {
        var i :| FoldedAt(s[1..], i, p);
        assert s[1..][i..i + |p|] == s[i + 1..i + 1 + |p|];
        assert FoldedAt(s, i + 1, p);
      }
      if exists i :: FoldedAt(s, i, p) {
        var i :| FoldedAt(s, i, p);
        if i > 0 {
          assert s[1..][i - 1..i - 1 + |p|] == s[i..i + |p|];
          assert FoldedAt(s[1..], i - 1, p);
        } else {
          assert s[..|p|] == s[i..i + |p|];
        }
      }
    } else {
      if exists i :: FoldedAt(s, i, p) {
        var i :| FoldedAt(s, i, p);
        assert s[..|p|] == s[i..i + |p|];
      }
    }
  }

  /** `/(a|b|...)/i.test(s)` for an alternation of plain words `alts`. */
  predicate ContainsAnyFolded(s: string, alts: seq<string>)
  {
    alts != [] && (ContainsFolded(s, alts[0]) || ContainsAnyFolded(s, alts[1..]))
  }

  lemma {:induction false} ContainsAnyFoldedIffSome(s: string, alts: seq<string>)
    ensures ContainsAnyFolded(s, alts) <==> exists j :: 0 <= j < |alts| && ContainsFolded(s, alts[j])
  {
    if alts != [] {
      ContainsAnyFoldedIffSome(s, alts[1..]);
      if exists j :: 0 <= j < |alts| && ContainsFolded(s, alts[j]) {
        var j :| 0 <= j < |alts| && ContainsFolded(s, alts[j]);
        if j > 0 { assert alts[1..][j - 1] == alts[j]; }
      }
    }
  }

  /** The characters JavaScript's `String.prototype.trim` removes: WhiteSpace
      (tab, vertical tab, form feed, no-break space, BOM and every space
      separator) and LineTerminator (LF, CR, U+2028, U+2029). */
  predicate IsJsWhitespace(c: char)
  {
    c == '\t' || c == '\n' || c == '\U{B}' || c == '\U{C}' || c == '\r' || c == ' '
    || c == '\U{A0}' || c == '\U{1680}' || ('\U{2000}' <= c <= '\U{200A}')
    || c == '\U{2028}' || c == '\U{2029}' || c == '\U{202F}' || c == '\U{205F}'
    || c == '\U{3000}' || c == '\U{FEFF}'
  }

  function TrimStart(s: string): string
  {
    if s != [] && IsJsWhitespace(s[0]) then TrimStart(s[1..]) else s
  }

  function TrimEnd(s: string): string
  {
    if s != [] && IsJsWhitespace(s[|s| - 1]) then TrimEnd(s[..|s| - 1]) else s
  }

  /** `s.trim()`. */
  function Trim(s: string): string
  {
    TrimEnd(TrimStart(s))
  }

  /** `s` has a character that `trim` would keep. */
  ghost predicate HasVisible(s: string)
  {
    exists i :: 0 <= i < |s| && !IsJsWhitespace(s[i])
  }

  lemma {:induction false} TrimStartKeepsVisible(s: string)
    ensures HasVisible(TrimStart(s)) <==> HasVisible(s)
  {
    if s != [] && IsJsWhitespace(s[0]) {
      TrimStartKeepsVisible(s[1..]);
      if HasVisible(s[1..]) {
        var i :| 0 <= i < |s[1..]| && !IsJsWhitespace(s[1..][i]);
        assert s[i + 1] == s[1..][i];
      }
      if HasVisible(s) {
        var i :| 0 <= i < |s| && !IsJsWhitespace(s[i]);
        assert s[1..][i - 1] == s[i];
      }
    }
  }

  lemma {:induction false} TrimEndEmptyIffBlank(s: string)
    ensures |TrimEnd(s)| > 0 <==> HasVisible(s)
  {
    if s != [] {
      if IsJsWhitespace(s[|s| - 1]) {
        TrimEndEmptyIffBlank(s[..|s| - 1]);
        if HasVisible(s[..|s| - 1]) {
          var i :| 0 <= i < |s| - 1 && !IsJsWhitespace(s[..|s| - 1][i]);
          assert s[i] == s[..|s| - 1][i];
        }
        if HasVisible(s) {
          var i :| 0 <= i < |s| && !IsJsWhitespace(s[i]);
          assert s[..|s| - 1][i] == s[i];
        }
      } else {
        assert !IsJsWhitespace(s[|s| - 1]);
      }
    }
  }

  /** `s.trim().length > 0` holds exactly when `s` has a character that is not
      JavaScript whitespace. */
  lemma TrimNonEmptyIffVisible(s: string)
    ensures |Trim(s)| > 0 <==> HasVisible(s)
  {
    TrimEndEmptyIffBlank(TrimStart(s));
    TrimStartKeepsVisible(s);
  }

  /** `parts.join(sep)`. */
  function Join(parts: seq<string>, sep: string): string
  {
    if parts == [] then []
    else if |parts| == 1 then parts[0]
    else parts[0] + sep + Join(parts[1..], sep)
  }

  /** `p` occurs in `s` at position `i`. */
  ghost predicate OccursAt(p: string, s: string, i: int)
  {
    0 <= i && i + |p| <= |s| && s[i..i + |p|] == p
  }

  ghost predicate IsSubstring(p: string, s: string)
  {
    exists i :: OccursAt(p, s, i)
  }

  /** Concatenation regroups. */
  lemma AppendAssoc(a: string, b: string, c: string)
    ensures a + b + c == a + (b + c)
  {
  }

  lemma OccursAsPrefix(a: string, b: string)
    ensures OccursAt(a, a + b, 0)
  {
    assert (a + b)[..|a|] == a;
  }

  lemma OccursAsSuffix(a: string, b: string)
    ensures OccursAt(b, a + b, |a|)
  {
    assert (a + b)[|a|..|a| + |b|] == b;
  }

  /** A substring stays one when text is added on the left... */
  lemma SubstringOfRight(p: string, prefix: string, s: string)
    requires IsSubstring(p, s)
    ensures IsSubstring(p, prefix + s)
  {
    var i :| OccursAt(p, s, i);
    assert (prefix + s)[|prefix| + i..|prefix| + i + |p|] == s[i..i + |p|];
    assert OccursAt(p, prefix + s, |prefix| + i);
  }

  /** ... or on the right. */
  lemma SubstringOfLeft(p: string, s: string, suffix: string)
    requires IsSubstring(p, s)
    ensures IsSubstring(p, s + suffix)
  {
    var i :| OccursAt(p, s, i);
    assert (s + suffix)[i..i + |p|] == s[i..i + |p|];
    assert OccursAt(p, s + suffix, i);
  }

  lemma SubstringOfAppend(p: string, s: string, prefix: string, suffix: string)
    requires IsSubstring(p, s)
    ensures IsSubstring(p, prefix + s + suffix)
  {
    SubstringOfRight(p, prefix, s);
    SubstringOfLeft(p, prefix + s, suffix);
  }

  /** A substring of a substring is a substring. */
  lemma SubstringTransitive(p: string, q: string, s: string)
    requires IsSubstring(p, q) && IsSubstring(q, s)
    ensures IsSubstring(p, s)
  {
    var i :| OccursAt(p, q, i);
    var k :| OccursAt(q, s, k);
    var w, a, b := s[k..k + |q|], s[k + i..k + i + |p|], q[i..i + |p|];
    forall y | 0 <= y < |p|
      ensures a[y] == b[y]
    {
      assert w[i + y] == s[k + i + y];
    }
    assert a == b;
    assert OccursAt(p, s, k + i);
  }

  /** Every part is shown literally in the joined string. */
  lemma {:induction false} JoinShowsEveryPart(parts: seq<string>, sep: string, j: nat)
    requires j < |parts|
    ensures IsSubstring(parts[j], Join(parts, sep))
  {
    var s := Join(parts, sep);
    if |parts| == 1 || j == 0 {
      assert s[0..|parts[0]|] == parts[0];
      assert OccursAt(parts[j], s, 0);
    } else {
      JoinShowsEveryPart(parts[1..], sep, j - 1);
      SubstringOfRight(parts[j], parts[0] + sep, Join(parts[1..], sep));
    }
  }

  function DigitChar(d: nat): char
    requires d < 10
  {
    ('0' as int + d) as char
  }

  /** Decimal rendering of a natural number, as `${n}` produces it. */
  function NatToString(n: nat): (s: string)
    ensures |s| >= 1
    ensures forall i :: 0 <= i < |s| ==> '0' <= s[i] <= '9'
    ensures |s| > 1 ==> s[0] != '0'
  {
    if n < 10 then [DigitChar(n)] else NatToString(n / 10) + [DigitChar(n % 10)]
  }

  /** Decimal rendering of an integer, with a leading `-` when negative. */
  function IntToString(n: int): string
  {
    if n < 0 then "-" + NatToString(-n) else NatToString(n)
  }

  /** Reads back a string of decimal digits. */
  function ParseNat(s: string): nat
  {
    if s == [] then 0
    else 10 * ParseNat(s[..|s| - 1]) + (if '0' <= s[|s| - 1] <= '9' then s[|s| - 1] as int - '0' as int else 0)
  }

  /** Decimal rendering loses nothing: parsing it back gives the number. */
  lemma {:induction false} ParseNatToString(n: nat)
    ensures ParseNat(NatToString(n)) == n
  {
    var s := NatToString(n);
    if n >= 10 {
      ParseNatToString(n / 10);
      assert s[..|s| - 1] == NatToString(n / 10);
    }
  }
}
