/** The string handling the board relies on: ECMAScript's String.prototype.trim,
    used to reject a blank title or a blank checklist entry. */
module Text {

  /** The characters trim removes: WhiteSpace and LineTerminator of ECMA-262
      (sections 12.2 and 12.3): tab, vertical tab, form feed, space, no-break
      space, the byte-order mark, the other space separators (category Zs),
      line feed, carriage return, line separator and paragraph separator. */
  predicate IsWhiteSpace(c: char) {
    c == '\t' || c == '\U{B}' || c == '\U{C}' || c == ' ' || c == '\U{A0}'
    || c == '\U{FEFF}' || c == '\U{1680}' || ('\U{2000}' <= c <= '\U{200A}')
    || c == '\U{202F}' || c == '\U{205F}' || c == '\U{3000}'
    || c == '\n' || c == '\r' || c == '\U{2028}' || c == '\U{2029}'
  }

  /** True when every character of `s` is white space (the empty string included). */
  predicate Blank(s: string) {
    forall i :: 0 <= i < |s| ==> IsWhiteSpace(s[i])
  }

  /** Drops the leading white space: the result is the suffix of `s` that starts
      at its first non-white-space character. */
  function TrimStart(s: string): (r: string)
    ensures |r| <= |s| && r == s[|s| - |r|..]
    ensures forall i :: 0 <= i < |s| - |r| ==> IsWhiteSpace(s[i])
    ensures r == [] || !IsWhiteSpace(r[0])
  {
    if s != [] && IsWhiteSpace(s[0]) then TrimStart(s[1..]) else s
  }

  /** Drops the trailing white space: the result is the prefix of `s` that ends
      at its last non-white-space character. */
  function TrimEnd(s: string): (r: string)
    ensures |r| <= |s| && r == s[..|r|]
    ensures forall i :: |r| <= i < |s| ==> IsWhiteSpace(s[i])
    ensures r == [] || !IsWhiteSpace(r[|r| - 1])
  {
    if s != [] && IsWhiteSpace(s[|s| - 1]) then TrimEnd(s[..|s| - 1]) else s
  }

  /** String.prototype.trim. */
  function Trim(s: string): (r: string)
    ensures r == [] || (!IsWhiteSpace(r[0]) && !IsWhiteSpace(r[|r| - 1]))
  {
    TrimEnd(TrimStart(s))
  }

  /** Trim is `s` with its blank head and its blank tail removed: the result
      is the part of `s` that starts at `k`, after a blank head, and is followed
      by a blank tail. */
  lemma TrimRemovesBlankEnds(s: string)
    ensures var k := |s| - |TrimStart(s)|;
      var r := Trim(s);
      k + |r| <= |s|
      && (forall i :: 0 <= i < |r| ==> r[i] == s[k + i])
      && (forall i :: 0 <= i < k ==> IsWhiteSpace(s[i]))
      && (forall i :: k + |r| <= i < |s| ==> IsWhiteSpace(s[i]))
  {
    var t := TrimStart(s);
    assert Trim(s) == TrimEnd(t);
    BlankEndsCompose(s, t, TrimEnd(t));
  }

  /** A blank-headed suffix `t` of `s`, then a blank-tailed prefix `r` of `t`:
      `r` sits in `s` between a blank head and a blank tail. */
  lemma BlankEndsCompose(s: string, t: string, r: string)
    requires |t| <= |s| && t == s[|s| - |t|..]
    requires forall i :: 0 <= i < |s| - |t| ==> IsWhiteSpace(s[i])
    requires |r| <= |t| && r == t[..|r|]
    requires forall i :: |r| <= i < |t| ==> IsWhiteSpace(t[i])
    ensures var k := |s| - |t|;
      k + |r| <= |s|
      && (forall i :: 0 <= i < |r| ==> r[i] == s[k + i])
      && (forall i :: k + |r| <= i < |s| ==> IsWhiteSpace(s[i]))
  {
    var k := |s| - |t|;
    forall i | k + |r| <= i < |s| ensures IsWhiteSpace(s[i]) {
      assert s[i] == t[i - k];
    }
  }

  /** A string counts as filled in (trim yields a truthy string) exactly when
      it holds some character that is not white space. */
  lemma TrimEmptyIffBlank(s: string)
    ensures Trim(s) == [] <==> Blank(s)
  {
    var t := TrimStart(s);
    if Trim(s) == [] {
      assert Blank(t[0..]) && t[0..] == t;
      assert t == [];
      assert s[..|s|] == s;
    } else {
      assert t != [];
      assert !IsWhiteSpace(s[|s| - |t|]);
    }
  }
}
