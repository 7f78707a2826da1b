/** The Annex B `escape` and `unescape` of the web-API shim (document_loader.rs). */
module Escape {
  import opened Utf8Codec

  const PERCENT: Unit := 37
  const LOWER_U: Unit := 117

  /** The characters `escape` leaves alone: letters, digits and @*_+-./ */
  predicate IsKept(u: Unit) {
    || 65 <= u <= 90 || 97 <= u <= 122 || 48 <= u <= 57
    || u == 64 || u == 42 || u == 95 || u == 43 || u == 45 || u == 46 || u == 47
  }

  type Nibble = n: int | 0 <= n < 16

  /** The upper-case hexadecimal digit. */
  function HexDigit(n: Nibble): Unit { if n < 10 then 48 + n else 55 + n }

  predicate IsHex(u: Unit) { 48 <= u <= 57 || 65 <= u <= 70 || 97 <= u <= 102 }

  function HexValue(u: Unit): (n: Nibble)
    requires IsHex(u)
  {
    if u <= 57 then u - 48 else if u <= 70 then u - 55 else u - 87
  }

  lemma HexRoundTrip(n: Nibble)
    ensures IsHex(HexDigit(n)) && HexValue(HexDigit(n)) == n && HexDigit(n) != LOWER_U
  {
  }

  // escape.

  function Escaped1(u: Unit): (e: seq<Unit>)
    ensures e != []
  {
    if IsKept(u) then [u]
    else if u < 256 then [PERCENT, HexDigit(u / 16), HexDigit(u % 16)]
    else [PERCENT, LOWER_U, HexDigit(u / 4096), HexDigit(u / 256 % 16), HexDigit(u / 16 % 16), HexDigit(u % 16)]
  }

  function Escaped(text: seq<Unit>): seq<Unit> {
    if text == [] then [] else Escaped1(text[0]) + Escaped(text[1..])
  }

  /** `Number.prototype.toString(16).toUpperCase()`. */
  method ToHex(code: nat) returns (hex: seq<Unit>)
    requires code < 0x10000
    ensures 1 <= |hex| <= 4
    ensures code < 16 <==> |hex| == 1
    ensures code < 256 <==> |hex| <= 2
    ensures code < 4096 <==> |hex| <= 3
    ensures forall i :: 0 <= i < |hex| ==> hex[|hex| - 1 - i] == HexDigit(Nibble4(code, i))
  {
    hex := [HexDigit(code % 16)];
    if 16 <= code {
      hex := [HexDigit(code / 16 % 16)] + hex;
    }
    if 256 <= code {
      hex := [HexDigit(code / 256 % 16)] + hex;
    }
    if 4096 <= code {
      hex := [HexDigit(code / 4096)] + hex;
    }
  }

  function Nibble4(code: nat, i: nat): Nibble
    requires code < 0x10000
  {
    if i == 0 then code % 16 else if i == 1 then code / 16 % 16 else if i == 2 then code / 256 % 16
    else code / 4096
  }

  method EscapeUnit(code: Unit) returns (out: seq<Unit>)
    ensures out == Escaped1(code)
  {
    if IsKept(code) {
      return [code];
    }
    var hex := ToHex(code);
    if code < 256 {
      if code < 16 {
        hex := [48] + hex;
      }
      Padded(code, hex);
      out := [PERCENT] + hex;
    } else {
      while |hex| < 4
        invariant 3 <= |hex| <= 4 && (code < 4096 || |hex| == 4)
        invariant forall i :: 0 <= i < |hex| ==> hex[|hex| - 1 - i] == HexDigit(Nibble4(code, i))
        decreases 4 - |hex|
      {
        hex := [48] + hex;
      }
      Padded(code, hex);
      out := [PERCENT, LOWER_U] + hex;
    }
  }

  lemma Padded(code: Unit, hex: seq<Unit>)
    requires |hex| == 2 || |hex| == 4
    requires forall i :: 0 <= i < |hex| ==> hex[|hex| - 1 - i] == HexDigit(Nibble4(code, i))
    ensures |hex| == 2 ==> hex == [HexDigit(code / 16 % 16), HexDigit(code % 16)]
    ensures |hex| == 4 ==>
      hex == [HexDigit(code / 4096), HexDigit(code / 256 % 16), HexDigit(code / 16 % 16), HexDigit(code % 16)]
  {
    assert hex[|hex| - 1 - 0] == HexDigit(Nibble4(code, 0));
    assert hex[|hex| - 1 - 1] == HexDigit(Nibble4(code, 1));
    if |hex| == 4 {
      assert hex[|hex| - 1 - 2] == HexDigit(Nibble4(code, 2));
      assert hex[|hex| - 1 - 3] == HexDigit(Nibble4(code, 3));
    }
  }

  method EscapeText(text: seq<Unit>) returns (out: seq<Unit>)
    ensures out == Escaped(text)
  {
    out := [];
    var index := 0;
    while index < |text|
      invariant 0 <= index <= |text|
      invariant out + Escaped(text[index..]) == Escaped(text)
    {
      EscapeStep(text, index, out);
      var more := EscapeUnit(text[index]);
      out := out + more;
      index := index + 1;
    }
  }

  lemma EscapeStep(text: seq<Unit>, index: nat, out: seq<Unit>)
    requires index < |text|
    ensures out + Escaped1(text[index]) + Escaped(text[index + 1..]) == out + Escaped(text[index..])
  {
    assert text[index..][1..] == text[index + 1..];
    Concatenate(out, Escaped1(text[index]), Escaped(text[index + 1..]));
  }

  // unescape.

  predicate IsHexRun(text: seq<Unit>, from: nat, n: nat) {
    from + n <= |text| && forall i :: from <= i < from + n ==> IsHex(text[i])
  }

  function Number(text: seq<Unit>, from: nat, n: nat): (v: nat)
    requires IsHexRun(text, from, n)
  {
    if n == 0 then 0 else Number(text, from, n - 1) * 16 + HexValue(text[from + n - 1])
  }

  lemma Number2(text: seq<Unit>, from: nat)
    requires IsHexRun(text, from, 2)
    ensures Number(text, from, 2) == HexValue(text[from]) * 16 + HexValue(text[from + 1])
  {
    assert Number(text, from, 1) == HexValue(text[from]);
  }

  lemma Number4(text: seq<Unit>, from: nat)
    requires IsHexRun(text, from, 4)
    ensures Number(text, from, 4) ==
      ((HexValue(text[from]) * 16 + HexValue(text[from + 1])) * 16 + HexValue(text[from + 2])) * 16
      + HexValue(text[from + 3])
  {
    Number2(text, from);
    assert Number(text, from, 3) == Number(text, from, 2) * 16 + HexValue(text[from + 2]);
  }

  /** The unit at the front of `text` and the length of the token it is written with. */
  function Token(text: seq<Unit>): (r: (Unit, nat))
    requires text != []
    ensures 1 <= r.1 <= |text|
  {
    if text[0] == PERCENT && 1 < |text| && text[1] == LOWER_U && IsHexRun(text, 2, 4) then
      Number4(text, 2);
      (Number(text, 2, 4), 6)
    else if text[0] == PERCENT && IsHexRun(text, 1, 2) then
      Number2(text, 1);
      (Number(text, 1, 2), 3)
    else (text[0], 1)
  }

  function Unescaped(text: seq<Unit>): seq<Unit>
    decreases |text|
  {
    if text == [] then [] else [Token(text).0] + Unescaped(text[Token(text).1..])
  }

  method UnescapeText(text: seq<Unit>) returns (out: seq<Unit>)
    ensures out == Unescaped(text)
  {
    out := [];
    var index := 0;
    while index < |text|
      invariant 0 <= index <= |text|
      invariant out + Unescaped(text[index..]) == Unescaped(text)
    {
      UnescapeStep(text, index, out);
      var unit, n := NextToken(text[index..]);
      out := out + [unit];
      index := index + n;
    }
  }

  /** The body of the loop of `unescape`. */
  method NextToken(text: seq<Unit>) returns (unit: Unit, used: nat)
    requires text != []
    ensures unit == Token(text).0 && used == Token(text).1
  {
    if text[0] == PERCENT {
      if 1 < |text| && text[1] == LOWER_U && IsHexRun(text, 2, 4) {
        Number4(text, 2);
        return Number(text, 2, 4), 6;
      }
      if IsHexRun(text, 1, 2) {
        Number2(text, 1);
        return Number(text, 1, 2), 3;
      }
    }
    return text[0], 1;
  }

  lemma UnescapeStep(text: seq<Unit>, index: nat, out: seq<Unit>)
    requires index < |text|
    ensures var r := Token(text[index..]);
      && index + r.1 <= |text|
      && out + [r.0] + Unescaped(text[index + r.1..]) == out + Unescaped(text[index..])
  {
    var r := Token(text[index..]);
    assert text[index..][r.1..] == text[index + r.1..];
    Concatenate(out, [r.0], Unescaped(text[index + r.1..]));
  }

  // Round trip.

  lemma NarrowToken(a: Nibble, b: Nibble, rest: seq<Unit>)
    ensures Token([PERCENT, HexDigit(a), HexDigit(b)] + rest) == (a * 16 + b, 3)
  {
    HexRoundTrip(a);
    HexRoundTrip(b);
    var text := [PERCENT, HexDigit(a), HexDigit(b)] + rest;
    assert text[1] == HexDigit(a) && text[2] == HexDigit(b);
    Number2(text, 1);
  }

  lemma WideToken(a: Nibble, b: Nibble, c: Nibble, d: Nibble, rest: seq<Unit>)
    ensures Token([PERCENT, LOWER_U, HexDigit(a), HexDigit(b), HexDigit(c), HexDigit(d)] + rest)
         == (((a * 16 + b) * 16 + c) * 16 + d, 6)
  {
    HexRoundTrip(a);
    HexRoundTrip(b);
    HexRoundTrip(c);
    HexRoundTrip(d);
    var text := [PERCENT, LOWER_U, HexDigit(a), HexDigit(b), HexDigit(c), HexDigit(d)] + rest;
    assert text[2] == HexDigit(a) && text[3] == HexDigit(b) && text[4] == HexDigit(c) && text[5] == HexDigit(d);
    Number4(text, 2);
  }

  /** One escaped unit is read back as one token, whatever follows it. */
  lemma TokenOfEscaped(u: Unit, rest: seq<Unit>)
    ensures Token(Escaped1(u) + rest) == (u, |Escaped1(u)|)
  {
    if !IsKept(u) {
      if u < 256 {
        NarrowToken(u / 16, u % 16, rest);
      } else {
        FourNibbles(u);
        WideToken(u / 4096, u / 256 % 16, u / 16 % 16, u % 16, rest);
      }
    }
  }

  lemma FourNibbles(u: Unit)
    ensures ((u / 4096 * 16 + u / 256 % 16) * 16 + u / 16 % 16) * 16 + u % 16 == u
  {
    assert u / 4096 * 16 + u / 256 % 16 == u / 256;
    assert u / 256 * 16 + u / 16 % 16 == u / 16;
  }

  /** `unescape` undoes `escape` on every UTF-16 string. */
  lemma {:induction false} UnescapeEscape(text: seq<Unit>)
    ensures Unescaped(Escaped(text)) == text
    decreases |text|
  {
    if text == [] {
    } else {
      var rest := Escaped(text[1..]);
      UnescapeEscape(text[1..]);
      TokenOfEscaped(text[0], rest);
      assert (Escaped1(text[0]) + rest)[|Escaped1(text[0])|..] == rest;
    }
  }

  predicate IsPlain(text: seq<Unit>) { forall i :: 0 <= i < |text| ==> IsKept(text[i]) || text[i] == PERCENT }

  /** An escaped text holds kept characters and percent signs only; text that `escape` need not touch stays. */
  lemma {:induction false} EscapedIsPlain(text: seq<Unit>)
    ensures IsPlain(Escaped(text))
    ensures (forall i :: 0 <= i < |text| ==> IsKept(text[i])) <==> Escaped(text) == text
    decreases |text|
  {
    if text == [] {
    } else {
      EscapedIsPlain(text[1..]);
      EscapedGrows(text[1..]);
      var rest := Escaped(text[1..]);
      assert text == [text[0]] + text[1..];
      assert forall i :: 1 <= i < |text| ==> text[i] == text[1..][i - 1];
      if !IsKept(text[0]) {
        assert |Escaped1(text[0]) + rest| > |text|;
      }
    }
  }

  lemma {:induction false} EscapedGrows(text: seq<Unit>)
    ensures |text| <= |Escaped(text)|
    decreases |text|
  {
    if text == [] {
    } else {
      EscapedGrows(text[1..]);
    }
  }
}
