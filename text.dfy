/**
 The two string operations the promo-code field applies to what the user typed:
 JavaScript's `String.prototype.toUpperCase` and `String.prototype.trim`.
 Strings are sequences of Unicode scalar values.
 */
module Text {

  /** The characters `trim` strips: ECMAScript WhiteSpace (tab, vertical tab,
      form feed, the byte order mark and every space separator) and
      LineTerminator (line feed, carriage return, U+2028, U+2029). */
  predicate IsSpace(c: char) {
    || c == '\t' || c == '\n' || c == '\U{B}' || c == '\U{C}' || c == '\r'
    || c == ' ' || c == '\U{A0}' || c == '\U{1680}'
    || ('\U{2000}' <= c <= '\U{200A}')
    || c == '\U{2028}' || c == '\U{2029}' || c == '\U{202F}' || c == '\U{205F}'
    || c == '\U{3000}' || c == '\U{FEFF}'
  }

  predicate AllSpace(s: string) {
    forall i :: 0 <= i < |s| ==> IsSpace(s[i])
  }

  /** A string with no space at either end, as `trim` leaves it. */
  predicate Tight(s: string) {
    s == [] || (!IsSpace(s[0]) && !IsSpace(s[|s| - 1]))
  }

  /** Upper case of one character. The ASCII letters are mapped, and so are the
      two other characters whose upper case is a single ASCII letter: dotless i
      (U+0131) and long s (U+017F). Every other character is its own upper case
      here. */
  function UpperChar(c: char): char {
    if 'a' <= c <= 'z' then (c as int - 32) as char
    else if c == '\U{131}' then 'I'
    else if c == '\U{17F}' then 'S'
    else c
  }

  /** `toUpperCase`: character by character. */
  function Upper(s: string): (r: string)
    ensures |r| == |s|
    ensures forall i :: 0 <= i < |s| ==> r[i] == UpperChar(s[i])
  {
    if s == [] then [] else [UpperChar(s[0])] + Upper(s[1..])
  }

  /** Number of characters `trim` removes from the front. */
  function LeadingSpace(s: string): (k: nat)
    ensures k <= |s|
    ensures AllSpace(s[..k])
    ensures k < |s| ==> !IsSpace(s[k])
  {
    if s == [] || !IsSpace(s[0]) then 0
    else
      var k' := LeadingSpace(s[1..]);
      assert s[..1 + k'] == [s[0]] + s[1..][..k'];
      1 + k'
  }

  /** Number of characters `trim` removes from the back. */
  function TrailingSpace(s: string): (k: nat)
    ensures k <= |s|
    ensures AllSpace(s[|s| - k..])
    ensures k < |s| ==> !IsSpace(s[|s| - 1 - k])
  {
    if s == [] || !IsSpace(s[|s| - 1]) then 0
    else
      var init := s[..|s| - 1];
      var k' := TrailingSpace(init);
      assert s[|s| - (1 + k')..] == init[|init| - k'..] + [s[|s| - 1]];
      1 + k'
  }

  /** `trim`: the result is the block of `s` that starts after the leading
      spaces, is followed only by spaces, and has no space at either end. */
  function Trim(s: string): (r: string)
    ensures LeadingSpace(s) + |r| <= |s|
    ensures r == s[LeadingSpace(s)..LeadingSpace(s) + |r|]
    ensures AllSpace(s[LeadingSpace(s) + |r|..])
    ensures Tight(r)
  {
    var a := LeadingSpace(s);
    var t := s[a..];
    var b := TrailingSpace(t);
    var r := t[..|t| - b];
    assert r == s[a..a + |r|];
    assert s[a + |r|..] == t[|t| - b..];
    assert r != [] ==> r[0] == s[a] && r[|r| - 1] == t[|t| - 1 - b];
    r
  }

  lemma UpperCharIdempotent(c: char)
    ensures UpperChar(UpperChar(c)) == UpperChar(c)
  {
  }

  /** Upper-casing never turns a space into a non-space or back. */
  lemma UpperCharSpace(c: char)
    ensures IsSpace(UpperChar(c)) <==> IsSpace(c)
    ensures IsSpace(c) ==> UpperChar(c) == c
  {
  }

  lemma UpperConcat(a: string, b: string)
    ensures Upper(a + b) == Upper(a) + Upper(b)
  {
    assert forall i :: 0 <= i < |a + b| ==> Upper(a + b)[i] == (Upper(a) + Upper(b))[i];
  }

  lemma UpperIdempotent(s: string)
    ensures Upper(Upper(s)) == Upper(s)
  {
    forall i | 0 <= i < |s|
      ensures Upper(Upper(s))[i] == Upper(s)[i]
    {
      UpperCharIdempotent(s[i]);
    }
  }

  /** A run of spaces is its own upper case. */
  lemma UpperOfSpace(s: string)
    requires AllSpace(s)
    ensures Upper(s) == s
  {
    forall i | 0 <= i < |s|
      ensures Upper(s)[i] == s[i]
    {
      UpperCharSpace(s[i]);
    }
  }

  lemma UpperAllSpace(s: string)
    ensures AllSpace(Upper(s)) <==> AllSpace(s)
  {
    forall i | 0 <= i < |s|
      ensures IsSpace(Upper(s)[i]) <==> IsSpace(s[i])
    {
      UpperCharSpace(s[i]);
    }
  }

  /** The front count is determined by its two defining properties. */
  lemma LeadingSpaceUnique(s: string, k: nat)
    requires k <= |s| && AllSpace(s[..k])
    requires k < |s| ==> !IsSpace(s[k])
    ensures LeadingSpace(s) == k
  {
    var l := LeadingSpace(s);
    SpacePrefix(s, k);
    SpacePrefix(s, l);
  }

  lemma SpacePrefix(s: string, k: nat)
    requires k <= |s| && AllSpace(s[..k])
    ensures forall i :: 0 <= i < k ==> IsSpace(s[i])
  {
    forall i | 0 <= i < k ensures IsSpace(s[i]) {
      assert s[..k][i] == s[i];
    }
  }

  lemma SpaceSuffix(s: string, k: nat)
    requires k <= |s| && AllSpace(s[k..])
    ensures forall i :: k <= i < |s| ==> IsSpace(s[i])
  {
    forall i | k <= i < |s| ensures IsSpace(s[i]) {
      assert s[k..][i - k] == s[i];
    }
  }

  /** `trim` keeps exactly the block `s[a..a + n]` when only spaces come
      before and after it and it has none at either end. */
  lemma TrimBlock(s: string, a: nat, n: nat)
    requires a + n <= |s|
    requires AllSpace(s[..a]) && AllSpace(s[a + n..])
    requires Tight(s[a..a + n])
    ensures Trim(s) == s[a..a + n]
  {
    if n == 0 {
      SpacePrefix(s, a);
      SpaceSuffix(s, a);
      assert s[..|s|] == s;
      LeadingSpaceUnique(s, |s|);
    } else {
      assert s[a..a + n][0] == s[a];
      LeadingSpaceUnique(s, a);
      var r := Trim(s);
      SpaceSuffix(s, a + |r|);
      SpaceSuffix(s, a + n);
      assert s[a..a + n][n - 1] == s[a + n - 1];
      assert |r| > 0 ==> !IsSpace(s[a + |r| - 1]) by {
        if |r| > 0 { assert r[|r| - 1] == s[a + |r| - 1]; }
      }
      assert |r| == n;
    }
  }

  /** `trim` is characterised by what it leaves: padding a tight string with
      spaces on both sides and trimming gives the tight string back. */
  lemma TrimUnique(l: string, m: string, t: string)
    requires AllSpace(l) && AllSpace(t) && Tight(m)
    ensures Trim(l + m + t) == m
  {
    var s := l + m + t;
    assert s[..|l|] == l;
    assert s[|l| + |m|..] == t;
    assert s[|l|..|l| + |m|] == m;
    TrimBlock(s, |l|, |m|);
  }

  /** Every string is its trimmed block with spaces on either side. */
  lemma TrimSplit(w: string)
    ensures w == w[..LeadingSpace(w)] + Trim(w) + w[LeadingSpace(w) + |Trim(w)|..]
    ensures AllSpace(w[..LeadingSpace(w)]) && AllSpace(w[LeadingSpace(w) + |Trim(w)|..])
  {
    var a := LeadingSpace(w);
    var m := Trim(w);
    assert w[..a] + w[a..a + |m|] + w[a + |m|..] == w;
  }

  /** Spaces around a string do not change what `trim` makes of it. */
  lemma TrimPadding(l: string, w: string, t: string)
    requires AllSpace(l) && AllSpace(t)
    ensures Trim(l + w + t) == Trim(w)
  {
    TrimSplit(w);
    var m := Trim(w);
    var l', t' := w[..LeadingSpace(w)], w[LeadingSpace(w) + |m|..];
    AllSpaceConcat(l, l');
    AllSpaceConcat(t', t);
    TrimUnique(l + l', m, t' + t);
    ConcatRegroup(l, l', m, t', t);
  }

  lemma ConcatRegroup(a: string, b: string, c: string, d: string, e: string)
    ensures a + (b + c + d) + e == (a + b) + c + (d + e)
  {
  }

  lemma AllSpaceConcat(a: string, b: string)
    requires AllSpace(a) && AllSpace(b)
    ensures AllSpace(a + b)
  {
    forall i | 0 <= i < |a + b| ensures IsSpace((a + b)[i]) {
      if i < |a| { assert (a + b)[i] == a[i]; } else { assert (a + b)[i] == b[i - |a|]; }
    }
  }

  /** `trim` gives the empty string exactly when the input is all spaces. */
  lemma TrimEmpty(s: string)
    ensures Trim(s) == [] <==> AllSpace(s)
  {
    if AllSpace(s) {
      assert s == [] + [] + s;
      TrimUnique([], [], s);
    }
    if Trim(s) == [] {
      var a := LeadingSpace(s);
      SpacePrefix(s, a);
      SpaceSuffix(s, a);
    }
  }

  lemma TrimIdempotent(s: string)
    ensures Trim(Trim(s)) == Trim(s)
  {
    var m := Trim(s);
    assert [] + m + [] == m;
    TrimUnique([], m, []);
  }
}
