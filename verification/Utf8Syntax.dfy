/** The byte syntax of UTF-8, after the grammar in section 4 of RFC 3629.
    A Rust `str` is a byte string that matches it; so is the output of a conforming encoder. */
module Utf8Syntax {

  type Byte = b: int | 0 <= b < 256

  predicate IsTail(b: Byte) { 0x80 <= b <= 0xBF }

  predicate IsLead3(b0: Byte, b1: Byte) {
    || (b0 == 0xE0 && 0xA0 <= b1 <= 0xBF)
    || (0xE1 <= b0 <= 0xEC && IsTail(b1))
    || (b0 == 0xED && 0x80 <= b1 <= 0x9F)
    || (0xEE <= b0 <= 0xEF && IsTail(b1))
  }

  predicate IsLead4(b0: Byte, b1: Byte) {
    || (b0 == 0xF0 && 0x90 <= b1 <= 0xBF)
    || (0xF1 <= b0 <= 0xF3 && IsTail(b1))
    || (b0 == 0xF4 && 0x80 <= b1 <= 0x8F)
  }

  /** The length of the UTF-8 character at the front of `s`, or 0 when there is none. */
  function CharLength(s: seq<Byte>): (n: nat)
    ensures n <= 4 && n <= |s|
    ensures 0 < n ==> !IsTail(s[0]) && forall i :: 0 < i < n ==> IsTail(s[i])
  {
    if |s| >= 1 && s[0] <= 0x7F then 1
    else if |s| >= 2 && 0xC2 <= s[0] <= 0xDF && IsTail(s[1]) then 2
    else if |s| >= 3 && IsLead3(s[0], s[1]) && IsTail(s[2]) then 3
    else if |s| >= 4 && IsLead4(s[0], s[1]) && IsTail(s[2]) && IsTail(s[3]) then 4
    else 0
  }

  /** `s` is a sequence of whole UTF-8 characters. */
  predicate WellFormed(s: seq<Byte>) {
    s == [] || (0 < CharLength(s) && WellFormed(s[CharLength(s)..]))
  }

  /** A Rust `String`. */
  type RustString = s: seq<Byte> | WellFormed(s) witness []

  /** `str::is_char_boundary`, which looks at one byte only. */
  predicate IsCharBoundary(s: seq<Byte>, i: nat) {
    i == 0 || (if i >= |s| then i == |s| else !IsTail(s[i]))
  }

  lemma CharLengthOfPrefix(s: seq<Byte>, i: nat)
    requires 0 < CharLength(s) <= i <= |s|
    ensures CharLength(s[..i]) == CharLength(s)
  {
  }

  /** Cutting a well-formed string at a byte that `is_char_boundary` accepts leaves whole characters on
      both sides. */
  lemma {:induction false} BoundarySplits(s: seq<Byte>, i: nat)
    requires WellFormed(s) && i <= |s| && IsCharBoundary(s, i)
    ensures WellFormed(s[..i]) && WellFormed(s[i..])
  {
    if 0 < i {
      var n := CharLength(s);
      assert n <= i;
      BoundarySplits(s[n..], i - n);
      CharLengthOfPrefix(s, i);
      assert s[..i][n..] == s[n..][..i - n];
      assert s[i..] == s[n..][i - n..];
    } else {
      assert s[0..] == s;
    }
  }

  /** A boundary is never more than three bytes back. */
  lemma {:induction false} BoundaryIsNear(s: seq<Byte>, i: nat)
    requires WellFormed(s) && 3 <= i <= |s|
    ensures exists j :: i - 3 <= j <= i && IsCharBoundary(s, j)
  {
    var n := CharLength(s);
    assert IsCharBoundary(s, 0);
    assert IsCharBoundary(s, n) by {
      assert n < |s| ==> 0 < CharLength(s[n..]);
    }
    if i - n < 3 {
    } else {
      BoundaryIsNear(s[n..], i - n);
      var j :| i - n - 3 <= j <= i - n && IsCharBoundary(s[n..], j);
      assert IsCharBoundary(s, n + j);
    }
  }

  lemma CharLengthConcat(a: seq<Byte>, b: seq<Byte>)
    requires 0 < CharLength(a)
    ensures CharLength(a + b) == CharLength(a)
  {
    var s := a + b;
    assert forall i :: 0 <= i < |a| ==> s[i] == a[i];
  }

  /** Behind a whole character only the rest decides. */
  lemma WellFormedCons(a: seq<Byte>, b: seq<Byte>)
    requires 0 < CharLength(a) == |a|
    ensures WellFormed(a + b) <==> WellFormed(b)
  {
    CharLengthConcat(a, b);
    assert (a + b)[|a|..] == b;
  }
}
