/** `String.prototype.trim`, as the name and avatar editors use it. */
module JsText {
  /** JavaScript's WhiteSpace and LineTerminator characters (section 12.2 and 12.3 of ECMA-262). */
  const JS_SPACES: seq<char> := [
    '\t', '\n', '\U{B}', '\U{C}', '\r', ' ', '\U{A0}', '\U{1680}',
    '\U{2000}', '\U{2001}', '\U{2002}', '\U{2003}', '\U{2004}', '\U{2005}',
    '\U{2006}', '\U{2007}', '\U{2008}', '\U{2009}', '\U{200A}',
    '\U{2028}', '\U{2029}', '\U{202F}', '\U{205F}', '\U{3000}', '\U{FEFF}']

  /**
   * ch is one of chars. This is sequence membership (ListedInIsMembership),
   * written recursively so that the verifier unfolds it one character at a
   * time instead of expanding all of JS_SPACES inside every quantifier.
   */
  predicate ListedIn(ch: char, chars: seq<char>) {
    chars != [] && (chars[0] == ch || ListedIn(ch, chars[1..]))
  }

  lemma {:induction false} ListedInIsMembership(ch: char, chars: seq<char>)
    ensures ListedIn(ch, chars) <==> ch in chars
    decreases |chars|
  {
    if chars != [] {
      ListedInIsMembership(ch, chars[1..]);
      assert chars == [chars[0]] + chars[1..];
    }
  }

  predicate IsJsSpace(ch: char) {
    ListedIn(ch, JS_SPACES)
  }

  /** Index of the first non-space at or after i, or |s| when there is none. */
  function SkipSpace(s: string, i: nat): (lo: nat)
    requires i <= |s|
    ensures i <= lo <= |s|
    ensures forall j :: i <= j < lo ==> IsJsSpace(s[j])
    ensures lo < |s| ==> !IsJsSpace(s[lo])
    decreases |s| - i
  {
    if i < |s| && IsJsSpace(s[i]) then SkipSpace(s, i + 1) else i
  }

  /** End of s[lo..hi] once its trailing white space is dropped. */
  function SkipSpaceBack(s: string, lo: nat, hi: nat): (e: nat)
    requires lo <= hi <= |s|
    ensures lo <= e <= hi
    ensures forall j :: e <= j < hi ==> IsJsSpace(s[j])
    ensures lo < e ==> !IsJsSpace(s[e - 1])
    decreases hi - lo
  {
    if lo < hi && IsJsSpace(s[hi - 1]) then SkipSpaceBack(s, lo, hi - 1) else hi
  }

  /** Where the kept run of `s.trim()` starts: the index of the first non-space, or |s|. */
  function TrimOffset(s: string): (lo: nat)
    ensures lo <= |s|
    ensures forall i :: 0 <= i < lo ==> IsJsSpace(s[i])
    ensures lo < |s| ==> !IsJsSpace(s[lo])
  {
    SkipSpace(s, 0)
  }

  /** Every character of s before position lo or from position hi on is white space. */
  predicate SpaceOutside(s: string, lo: int, hi: int)
    requires 0 <= lo <= hi <= |s|
  {
    (forall i :: 0 <= i < lo ==> IsJsSpace(s[i])) && (forall i :: hi <= i < |s| ==> IsJsSpace(s[i]))
  }

  /**
   * `s.trim()`: the run of s left once the white space at both ends is dropped.
   * It is empty exactly when s is all white space, and otherwise starts and ends
   * with a non-space.
   */
  function Trim(s: string): (r: string)
    ensures r == [] <==> forall i :: 0 <= i < |s| ==> IsJsSpace(s[i])
    ensures r != [] ==> !IsJsSpace(r[0]) && !IsJsSpace(r[|r| - 1])
    ensures TrimOffset(s) + |r| <= |s| && r == s[TrimOffset(s)..TrimOffset(s) + |r|]
    ensures SpaceOutside(s, TrimOffset(s), TrimOffset(s) + |r|)
  {
    var lo := TrimOffset(s);
    var hi := SkipSpaceBack(s, lo, |s|);
    assert lo < |s| ==> lo < hi;
    s[lo..hi]
  }
}
