/** `TextEncoder` and `TextDecoder` of the web-API shim (document_loader.rs).

    Shifts and masks are written as division and remainder by powers of two, and `|` of disjoint bit fields
    as a sum. */
module Utf8Codec {
  import opened Wrappers
  import opened Utf8Syntax

  /** A UTF-16 code unit, as `charCodeAt` returns it. */
  type Unit = u: int | 0 <= u < 0x10000

  predicate IsHigh(u: Unit) { 0xD800 <= u <= 0xDBFF }
  predicate IsLow(u: Unit) { 0xDC00 <= u <= 0xDFFF }

  predicate IsScalar(c: int) { 0 <= c < 0xD800 || 0xE000 <= c < 0x110000 }

  type Scalar = c: int | 0 <= c < 0xD800 || 0xE000 <= c < 0x110000

  const REPLACEMENT: Unit := 0xFFFD

  /** Unit `i` of `s` is a surrogate without its other half. */
  predicate IsLone(s: seq<Unit>, i: nat)
    requires i < |s|
  {
    || (IsHigh(s[i]) && !(i + 1 < |s| && IsLow(s[i + 1])))
    || (IsLow(s[i]) && !(0 < i && IsHigh(s[i - 1])))
  }

  /** `s` with each lone surrogate replaced by U+FFFD. */
  function Replaced(s: seq<Unit>): (r: seq<Unit>)
    ensures |r| == |s|
    ensures forall i :: 0 <= i < |s| ==> r[i] == if IsLone(s, i) then REPLACEMENT else s[i]
  {
    seq(|s|, i requires 0 <= i < |s| => if IsLone(s, i) then REPLACEMENT else s[i])
  }

  predicate NoLone(s: seq<Unit>) {
    forall i :: 0 <= i < |s| ==> !IsLone(s, i)
  }

  // Scalars, the meaning both encodings share.

  function UnitsOf(c: Scalar): (u: seq<Unit>)
    ensures 1 <= |u| <= 2
  {
    if c < 0x10000 then
      var unit: Unit := c;
      [unit]
    else
      var high: Unit := 0xD800 + (c - 0x10000) / 0x400;
      var low: Unit := 0xDC00 + (c - 0x10000) % 0x400;
      [high, low]
  }

  lemma UnitsOfNoLone(c: Scalar)
    ensures NoLone(UnitsOf(c))
  {
  }

  /** One scalar in UTF-8, the table in section 3 of RFC 3629. */
  function BytesOf(c: Scalar): (b: seq<Byte>)
    ensures 1 <= |b| <= 4
  {
    var last: Byte := 0x80 + c % 0x40;
    var third: Byte := 0x80 + c / 0x40 % 0x40;
    var second: Byte := 0x80 + c / 0x1000 % 0x40;
    if c < 0x80 then
      var only: Byte := c;
      [only]
    else if c < 0x800 then
      var lead: Byte := 0xC0 + c / 0x40;
      [lead, last]
    else if c < 0x10000 then
      var lead: Byte := 0xE0 + c / 0x1000;
      [lead, third, last]
    else
      var lead: Byte := 0xF0 + c / 0x40000;
      [lead, second, third, last]
  }

  lemma Digits2(c: nat)
    ensures c == c / 64 * 64 + c % 64
  {
  }

  lemma Digits3(c: nat)
    ensures c == (c / 4096 * 64 + c / 64 % 64) * 64 + c % 64
  {
    assert c / 64 / 64 == c / 4096;
    Digits2(c);
    Digits2(c / 64);
  }

  lemma Digits4(c: nat)
    ensures c == ((c / 262144 * 64 + c / 4096 % 64) * 64 + c / 64 % 64) * 64 + c % 64
  {
    assert c / 64 / 4096 == c / 262144 && c / 64 / 64 == c / 4096;
    Digits2(c);
    Digits3(c / 64);
  }

  lemma BytesOfIsCharacter(c: Scalar)
    ensures CharLength(BytesOf(c)) == |BytesOf(c)|
  {
  }

  // TextEncoder.

  /** The scalar at the front of `text`, and how many units it takes. */
  function Front(text: seq<Unit>): (r: (Scalar, nat))
    requires text != []
    ensures 1 <= r.1 <= 2 && r.1 <= |text|
  {
    var code: int := text[0];
    if IsHigh(text[0]) then
      if 1 < |text| && IsLow(text[1])
      then (0x10000 + (code - 0xD800) * 0x400 + (text[1] - 0xDC00), 2)
      else (0xFFFD, 1)
    else if IsLow(text[0]) then (0xFFFD, 1)
    else (code, 1)
  }

  function Encoded(text: seq<Unit>): seq<Byte> {
    if text == [] then [] else
      var (c, n) := Front(text);
      BytesOf(c) + Encoded(text[n..])
  }

  /** `bytes` and the encoding of the text from `index` on make up the whole. */
  ghost predicate Encoding(text: seq<Unit>, index: nat, bytes: seq<Byte>) {
    index <= |text| && bytes + Encoded(text[index..]) == Encoded(text)
  }

  lemma EncodingEnds(text: seq<Unit>, bytes: seq<Byte>)
    ensures Encoding(text, 0, [])
    ensures Encoding(text, |text|, bytes) ==> bytes == Encoded(text)
  {
    assert text[0..] == text && text[|text|..] == [];
  }

  lemma EncodeStep(text: seq<Unit>, index: nat, bytes: seq<Byte>, c: Scalar, n: nat)
    requires index < |text| && Encoding(text, index, bytes) && (c, n) == Front(text[index..])
    ensures 0 < n && Encoding(text, index + n, bytes + BytesOf(c))
  {
    assert text[index..][n..] == text[index + n..];
    Concatenate(bytes, BytesOf(c), Encoded(text[index + n..]));
  }

  lemma Concatenate<T>(a: seq<T>, b: seq<T>, c: seq<T>)
    ensures a + b + c == a + (b + c)
  {
  }

  method Encode(text: seq<Unit>) returns (bytes: seq<Byte>)
    ensures bytes == Encoded(text)
  {
    bytes := [];
    var index := 0;
    EncodingEnds(text, bytes);
    while index < |text|
      invariant 0 <= index <= |text| && Encoding(text, index, bytes)
    {
      var code, used := NextScalar(text, index);
      EncodeStep(text, index, bytes, code, used);
      var more := EncodeScalar(code);
      bytes := bytes + more;
      index := index + used;
    }
    EncodingEnds(text, bytes);
  }

  /** The surrogate handling at the top of the encoder's loop. */
  method NextScalar(text: seq<Unit>, index: nat) returns (scalar: Scalar, used: nat)
    requires index < |text|
    ensures (scalar, used) == Front(text[index..])
  {
    var code: int := text[index];
    used := 1;
    if 0xD800 <= code <= 0xDBFF {
      var low: int := if index + 1 < |text| then text[index + 1] else 0;
      if 0xDC00 <= low <= 0xDFFF {
        code := 0x10000 + (code - 0xD800) * 0x400 + (low - 0xDC00);
        used := 2;
      } else {
        code := 0xFFFD;
      }
    } else if 0xDC00 <= code <= 0xDFFF {
      code := 0xFFFD;
    }
    return code, used;
  }

  /** The pushes at the end of the encoder's loop. */
  method EncodeScalar(code: Scalar) returns (bytes: seq<Byte>)
    ensures bytes == BytesOf(code)
  {
    bytes := [];
    var b: Byte;
    if code < 0x80 {
      b := code;
      bytes := bytes + [b];
      return;
    }
    if code < 0x800 {
      b := 0xC0 + code / 64;
      bytes := bytes + [b];
    } else {
      if code < 0x10000 {
        b := 0xE0 + code / 4096;
        bytes := bytes + [b];
      } else {
        b := 0xF0 + code / 262144;
        bytes := bytes + [b];
        b := 0x80 + code / 4096 % 64;
        bytes := bytes + [b];
      }
      b := 0x80 + code / 64 % 64;
      bytes := bytes + [b];
    }
    b := 0x80 + code % 64;
    bytes := bytes + [b];
  }

  // TextDecoder.

  /** The six payload bits of a continuation byte. */
  function Bits(b: Byte): int { b as int - 0x80 }

  /** The payload bits of a lead byte and the number of continuation bytes it announces. */
  function Lead(b: Byte): Option<(nat, nat)> {
    if 0xC2 <= b <= 0xDF then Some((b - 0xC0, 1))
    else if 0xE0 <= b <= 0xEF then Some((b - 0xE0, 2))
    else if 0xF0 <= b <= 0xF4 then Some((b - 0xF0, 3))
    else None
  }

  /** The continuation loop: the code so far, the bytes consumed, and whether all announced bytes came. */
  function Tails(bytes: seq<Byte>, trailing: nat, code: nat): (r: (nat, nat, bool))
    ensures r.1 <= |bytes| && r.1 <= trailing
    decreases trailing
  {
    if trailing == 0 then (code, 0, true)
    else if bytes == [] || !IsTail(bytes[0]) then (code, 0, false)
    else
      var (c, n, complete) := Tails(bytes[1..], trailing - 1, code * 64 + Bits(bytes[0]));
      (c, n + 1, complete)
  }

  predicate Accepted(code: nat, trailing: nat) {
    && code <= 0x10FFFF && !(0xD800 <= code <= 0xDFFF)
    && !(trailing == 2 && code < 0x800) && !(trailing == 3 && code < 0x10000)
  }

  /** What one round of the decoder emits, and how many bytes it consumes. */
  function Round(bytes: seq<Byte>): (r: (seq<Unit>, nat))
    requires bytes != []
    ensures 1 <= r.1 <= |bytes| && r.0 != []
  {
    if bytes[0] < 0x80 then
      var unit: Unit := bytes[0];
      ([unit], 1)
    else if Lead(bytes[0]).None? then ([REPLACEMENT], 1)
    else
      var (start, trailing) := Lead(bytes[0]).value;
      var (code, n, complete) := Tails(bytes[1..], trailing, start);
      if complete && Accepted(code, trailing) then (UnitsOf(code), 1 + n) else ([REPLACEMENT], 1 + n)
  }

  function Decoded(bytes: seq<Byte>): seq<Unit>
    decreases |bytes|
  {
    if bytes == [] then [] else Round(bytes).0 + Decoded(bytes[Round(bytes).1..])
  }

  /** `out` and the decoding of the bytes from `index` on make up the whole. */
  ghost predicate Decoding(bytes: seq<Byte>, index: nat, out: seq<Unit>) {
    index <= |bytes| && out + Decoded(bytes[index..]) == Decoded(bytes)
  }

  lemma DecodingEnds(bytes: seq<Byte>, out: seq<Unit>)
    ensures Decoding(bytes, 0, [])
    ensures Decoding(bytes, |bytes|, out) ==> out == Decoded(bytes)
  {
    assert bytes[0..] == bytes && bytes[|bytes|..] == [];
  }

  /** The bytes from `from` on decode to `units` and what the bytes from `from + n` on decode to. */
  ghost predicate Follows(bytes: seq<Byte>, from: nat, units: seq<Unit>, n: nat) {
    0 < n && from + n <= |bytes| && Decoded(bytes[from..]) == units + Decoded(bytes[from + n..])
  }

  lemma RoundFollows(bytes: seq<Byte>, from: nat, units: seq<Unit>, n: nat)
    requires from < |bytes| && (units, n) == Round(bytes[from..])
    ensures Follows(bytes, from, units, n)
  {
    assert bytes[from..][n..] == bytes[from + n..];
  }

  lemma DecodeStep(bytes: seq<Byte>, index: nat, out: seq<Unit>, units: seq<Unit>, n: nat)
    requires Decoding(bytes, index, out) && Follows(bytes, index, units, n)
    ensures Decoding(bytes, index + n, out + units)
  {
    Concatenate(out, units, Decoded(bytes[index + n..]));
  }

  method Decode(bytes: seq<Byte>) returns (out: seq<Unit>)
    ensures out == Decoded(bytes)
  {
    out := [];
    var index := 0;
    DecodingEnds(bytes, out);
    while index < |bytes|
      invariant 0 <= index <= |bytes| && Decoding(bytes, index, out)
      decreases |bytes| - index
    {
      out, index := DecodeInto(bytes, index, out);
    }
    DecodingEnds(bytes, out);
  }

  method DecodeInto(bytes: seq<Byte>, index: nat, out: seq<Unit>) returns (more: seq<Unit>, next: nat)
    requires index < |bytes| && Decoding(bytes, index, out)
    ensures index < next <= |bytes| && Decoding(bytes, next, more)
  {
    var units, n := DecodeNext(bytes, index);
    DecodeStep(bytes, index, out, units, n);
    more := out + units;
    next := index + n;
  }

  method DecodeNext(bytes: seq<Byte>, index: nat) returns (units: seq<Unit>, n: nat)
    requires index < |bytes|
    ensures 0 < n && index + n <= |bytes| && Follows(bytes, index, units, n)
  {
    units, n := DecodeRound(bytes, index);
    RoundFollows(bytes, index, units, n);
  }

  /** The continuation loop of the decoder. */
  method ReadTails(bytes: seq<Byte>, from: nat, trailing: nat, start: nat)
    returns (code: nat, index: nat, complete: bool)
    requires from <= |bytes|
    ensures from <= index && (code, index - from, complete) == Tails(bytes[from..], trailing, start)
  {
    code, index, complete := start, from, true;
    var step := 0;
    while step < trailing
      invariant 0 <= step <= trailing && index == from + step <= |bytes|
      invariant var q := Tails(bytes[index..], trailing - step, code);
        Tails(bytes[from..], trailing, start) == (q.0, q.1 + step, q.2)
    {
      var next := if index < |bytes| then bytes[index] as int else -1;
      if next < 0x80 || next > 0xBF {
        complete := false;
        return;
      }
      assert bytes[index..][1..] == bytes[index + 1..];
      code := code * 64 + (next - 0x80);
      index := index + 1;
      step := step + 1;
    }
  }

  /** One turn of the decoder's outer loop from `from`. */
  method DecodeRound(bytes: seq<Byte>, from: nat) returns (units: seq<Unit>, consumed: nat)
    requires from < |bytes|
    ensures (units, consumed) == Round(bytes[from..])
  {
    var lead: int := bytes[from];
    var unit: Unit;
    if lead < 0x80 {
      unit := lead;
      return [unit], 1;
    }
    var start: nat, trailing: nat;
    if 0xC2 <= lead <= 0xDF {
      start, trailing := lead - 0xC0, 1;
    } else if 0xE0 <= lead <= 0xEF {
      start, trailing := lead - 0xE0, 2;
    } else if 0xF0 <= lead <= 0xF4 {
      start, trailing := lead - 0xF0, 3;
    } else {
      return [REPLACEMENT], 1;
    }
    assert bytes[from..][1..] == bytes[from + 1..];
    var code, index, complete := ReadTails(bytes, from + 1, trailing, start);
    consumed := index - from;
    units := Emit(code, complete, trailing);
  }

  /** The checks and the `fromCharCode` calls at the end of the decoder's loop. */
  method Emit(code: nat, complete: bool, trailing: nat) returns (units: seq<Unit>)
    ensures units == if complete && Accepted(code, trailing) then UnitsOf(code) else [REPLACEMENT]
  {
    if !complete || code > 0x10FFFF || 0xD800 <= code <= 0xDFFF
       || (trailing == 2 && code < 0x800) || (trailing == 3 && code < 0x10000) {
      return [REPLACEMENT];
    }
    var unit: Unit;
    if code <= 0xFFFF {
      unit := code;
      return [unit];
    }
    unit := 0xD800 + (code - 0x10000) / 1024;
    var low: Unit := 0xDC00 + (code - 0x10000) % 1024;
    return [unit, low];
  }

  // Round trips.

  /** Continuation bytes that are all there. */
  lemma {:induction false} TailsComplete(bytes: seq<Byte>, trailing: nat, code: nat)
    requires trailing <= |bytes| && forall i :: 0 <= i < trailing ==> IsTail(bytes[i])
    ensures Tails(bytes, trailing, code) == (Joined(bytes[..trailing], code), trailing, true)
    decreases trailing
  {
    if trailing == 0 {
    } else {
      TailsComplete(bytes[1..], trailing - 1, code * 64 + Bits(bytes[0]));
      assert bytes[..trailing][1..] == bytes[1..][..trailing - 1];
    }
  }

  /** The number that continuation bytes spell behind `code`. */
  function Joined(tails: seq<Byte>, code: nat): nat
    requires forall i :: 0 <= i < |tails| ==> IsTail(tails[i])
    decreases |tails|
  {
    if tails == [] then code else
      assert IsTail(tails[0]);
      Joined(tails[1..], code * 64 + Bits(tails[0]))
  }

  lemma Joined2(a: Byte, b: Byte, code: nat)
    requires IsTail(a) && IsTail(b)
    ensures Joined([a, b], code) == (code * 64 + Bits(a)) * 64 + Bits(b)
  {
    assert [a, b][1..] == [b] && [b][1..] == [];
    assert Joined([b], code * 64 + Bits(a)) == (code * 64 + Bits(a)) * 64 + Bits(b);
  }

  lemma Joined3(a: Byte, b: Byte, c: Byte, code: nat)
    requires IsTail(a) && IsTail(b) && IsTail(c)
    ensures Joined([a, b, c], code) == ((code * 64 + Bits(a)) * 64 + Bits(b)) * 64 + Bits(c)
  {
    assert [a, b, c][1..] == [b, c];
    Joined2(b, c, code * 64 + Bits(a));
  }

  /** A lead byte with all its continuation bytes. */
  lemma RoundOf(b: seq<Byte>, start: nat, trailing: nat, code: Scalar)
    requires 1 <= trailing < |b| && 0x80 <= b[0] && Lead(b[0]) == Some((start, trailing))
    requires forall i :: 1 <= i <= trailing ==> IsTail(b[i])
    requires Joined(b[1..trailing + 1], start) == code && Accepted(code, trailing)
    ensures Round(b) == (UnitsOf(code), 1 + trailing)
  {
    assert b[1..][..trailing] == b[1..trailing + 1];
    TailsComplete(b[1..], trailing, start);
  }

  lemma RoundReads2(c: Scalar, b: seq<Byte>)
    requires 0x80 <= c < 0x800 && 2 <= |b| && b[..2] == BytesOf(c)
    ensures Round(b) == (UnitsOf(c), 2)
  {
    assert b[0] == 0xC0 + c / 64 && b[1] == 0x80 + c % 64 by {
      assert b[0] == b[..2][0] && b[1] == b[..2][1];
    }
    assert Joined(b[1..2], c / 64) == c by {
      assert b[1..2] == [b[1]] && [b[1]][1..] == [];
      Digits2(c);
    }
    RoundOf(b, c / 64, 1, c);
  }

  lemma RoundReads3(c: Scalar, b: seq<Byte>)
    requires 0x800 <= c < 0x10000 && 3 <= |b| && b[..3] == BytesOf(c)
    ensures Round(b) == (UnitsOf(c), 3)
  {
    assert b[0] == 0xE0 + c / 4096 && b[1] == 0x80 + c / 64 % 64 && b[2] == 0x80 + c % 64 by {
      assert b[0] == b[..3][0] && b[1] == b[..3][1] && b[2] == b[..3][2];
    }
    assert Joined(b[1..3], c / 4096) == c by {
      assert b[1..3] == [b[1], b[2]];
      Joined2(b[1], b[2], c / 4096);
      Digits3(c);
    }
    RoundOf(b, c / 4096, 2, c);
  }

  lemma RoundReads4(c: Scalar, b: seq<Byte>)
    requires 0x10000 <= c && 4 <= |b| && b[..4] == BytesOf(c)
    ensures Round(b) == (UnitsOf(c), 4)
  {
    assert b[0] == 0xF0 + c / 262144 && b[1] == 0x80 + c / 4096 % 64 && b[2] == 0x80 + c / 64 % 64
        && b[3] == 0x80 + c % 64 by {
      assert b[0] == b[..4][0] && b[1] == b[..4][1] && b[2] == b[..4][2] && b[3] == b[..4][3];
    }
    assert Joined(b[1..4], c / 262144) == c by {
      assert b[1..4] == [b[1], b[2], b[3]];
      Joined3(b[1], b[2], b[3], c / 262144);
      Digits4(c);
    }
    RoundOf(b, c / 262144, 3, c);
  }

  /** The decoder reads back one encoded scalar and nothing more. */
  lemma RoundReadsScalar(c: Scalar, rest: seq<Byte>)
    ensures Round(BytesOf(c) + rest) == (UnitsOf(c), |BytesOf(c)|)
  {
    var b := BytesOf(c) + rest;
    assert b[..|BytesOf(c)|] == BytesOf(c);
    if c < 0x80 {
      assert b[0] == c;
    } else if c < 0x800 {
      RoundReads2(c, b);
    } else if c < 0x10000 {
      RoundReads3(c, b);
    } else {
      RoundReads4(c, b);
    }
  }

  function Value(b: seq<Byte>): int
    requires 1 <= |b| <= 4
  {
    var b0: int := b[0];
    if |b| == 1 then b0
    else if |b| == 2 then (b0 - 0xC0) * 64 + Bits(b[1])
    else if |b| == 3 then ((b0 - 0xE0) * 64 + Bits(b[1])) * 64 + Bits(b[2])
    else (((b0 - 0xF0) * 64 + Bits(b[1])) * 64 + Bits(b[2])) * 64 + Bits(b[3])
  }

  lemma Character2(b0: Byte, b1: Byte)
    requires 0xC2 <= b0 <= 0xDF && IsTail(b1)
    ensures var c := Value([b0, b1]); IsScalar(c) && BytesOf(c) == [b0, b1]
  {
    var c := Value([b0, b1]);
    assert c / 64 == b0 - 0xC0 && c % 64 == b1 - 0x80;
  }

  lemma Character3(b0: Byte, b1: Byte, b2: Byte)
    requires IsLead3(b0, b1) && IsTail(b2)
    ensures var c := Value([b0, b1, b2]); IsScalar(c) && BytesOf(c) == [b0, b1, b2]
  {
    var c := Value([b0, b1, b2]);
    assert c / 64 == (b0 as int - 0xE0) * 64 + Bits(b1) && c % 64 == Bits(b2);
    assert c / 4096 == b0 as int - 0xE0 && c / 64 % 64 == Bits(b1);
  }

  lemma Character4(b0: Byte, b1: Byte, b2: Byte, b3: Byte)
    requires IsLead4(b0, b1) && IsTail(b2) && IsTail(b3)
    ensures var c := Value([b0, b1, b2, b3]); IsScalar(c) && BytesOf(c) == [b0, b1, b2, b3]
  {
    var c := Value([b0, b1, b2, b3]);
    var top := (b0 as int - 0xF0) * 64 + Bits(b1);
    assert c / 64 == top * 64 + Bits(b2) && c % 64 == Bits(b3);
    assert c / 4096 == top && c / 64 % 64 == Bits(b2);
    assert c / 262144 == b0 as int - 0xF0 && c / 4096 % 64 == Bits(b1);
  }

  /** Every well-formed character is the encoding of a scalar. */
  lemma CharacterIsBytesOf(b: seq<Byte>)
    requires b != [] && CharLength(b) == |b|
    ensures IsScalar(Value(b)) && BytesOf(Value(b)) == b
  {
    if |b| == 2 {
      assert b == [b[0], b[1]];
      Character2(b[0], b[1]);
    } else if |b| == 3 {
      assert b == [b[0], b[1], b[2]];
      Character3(b[0], b[1], b[2]);
    } else if |b| == 4 {
      assert b == [b[0], b[1], b[2], b[3]];
      Character4(b[0], b[1], b[2], b[3]);
    }
  }

  /** On a well-formed character the decoder finds the scalar that encodes to it. */
  lemma RoundReadsCharacter(bytes: seq<Byte>) returns (c: Scalar)
    requires 0 < CharLength(bytes)
    ensures BytesOf(c) == bytes[..CharLength(bytes)]
    ensures Round(bytes) == (UnitsOf(c), CharLength(bytes))
  {
    var n := CharLength(bytes);
    CharLengthOfPrefix(bytes, n);
    CharacterIsBytesOf(bytes[..n]);
    c := Value(bytes[..n]);
    assert bytes == BytesOf(c) + bytes[n..];
    RoundReadsScalar(c, bytes[n..]);
  }

  lemma FrontOfUnits(c: Scalar, rest: seq<Unit>)
    ensures Front(UnitsOf(c) + rest) == (c, |UnitsOf(c)|)
  {
    var u := UnitsOf(c) + rest;
    if 0x10000 <= c {
      var d := c - 0x10000;
      assert d == d / 0x400 * 0x400 + d % 0x400;
    }
  }

  lemma EncodedOfUnits(c: Scalar, rest: seq<Unit>)
    ensures Encoded(UnitsOf(c) + rest) == BytesOf(c) + Encoded(rest)
  {
    FrontOfUnits(c, rest);
    assert (UnitsOf(c) + rest)[|UnitsOf(c)|..] == rest;
  }

  lemma EncodeDecodeCharacter(bytes: seq<Byte>)
    requires 0 < CharLength(bytes)
    ensures var n := CharLength(bytes);
      Encoded(Decoded(bytes[n..])) == bytes[n..] ==> Encoded(Decoded(bytes)) == bytes
  {
    var n := CharLength(bytes);
    var c := RoundReadsCharacter(bytes);
    EncodedOfUnits(c, Decoded(bytes[n..]));
    assert bytes == bytes[..n] + bytes[n..];
  }

  /** Encoding after decoding gives every well-formed byte string back. */
  lemma {:induction false} EncodeDecode(bytes: seq<Byte>)
    requires WellFormed(bytes)
    ensures Encoded(Decoded(bytes)) == bytes
    decreases |bytes|
  {
    if bytes == [] {
    } else {
      var n := CharLength(bytes);
      EncodeDecode(bytes[n..]);
      EncodeDecodeCharacter(bytes);
    }
  }

  lemma LoneOfSuffix(text: seq<Unit>, n: nat, i: nat)
    requires text != [] && n == Front(text).1 && i < |text| - n
    ensures IsLone(text[n..], i) <==> IsLone(text, n + i)
  {
  }

  lemma ReplacedSuffix(text: seq<Unit>, n: nat)
    requires text != [] && n == Front(text).1
    ensures |Replaced(text)| == |text| && Replaced(text)[n..] == Replaced(text[n..])
  {
    forall i | 0 <= i < |text| - n ensures Replaced(text)[n + i] == Replaced(text[n..])[i] {
      LoneOfSuffix(text, n, i);
    }
  }

  lemma ReplacedPrefix(text: seq<Unit>, c: Scalar, n: nat)
    requires text != [] && (c, n) == Front(text)
    ensures |Replaced(text)| == |text| && Replaced(text)[..n] == UnitsOf(c)
  {
  }

  lemma ReplacedFront(text: seq<Unit>)
    requires text != []
    ensures var (c, n) := Front(text); Replaced(text) == UnitsOf(c) + Replaced(text[n..])
  {
    var (c, n) := Front(text);
    ReplacedSuffix(text, n);
    ReplacedPrefix(text, c, n);
    assert Replaced(text) == Replaced(text)[..n] + Replaced(text)[n..];
  }

  /** Decoding after encoding gives every string back with its lone surrogates replaced. */
  lemma {:induction false} DecodeEncode(text: seq<Unit>)
    ensures Decoded(Encoded(text)) == Replaced(text)
    decreases |text|
  {
    if text == [] {
    } else {
      var (c, n) := Front(text);
      DecodeEncode(text[n..]);
      RoundReadsScalar(c, Encoded(text[n..]));
      assert (BytesOf(c) + Encoded(text[n..]))[|BytesOf(c)|..] == Encoded(text[n..]);
      ReplacedFront(text);
    }
  }

  lemma {:induction false} EncodedWellFormed(text: seq<Unit>)
    ensures WellFormed(Encoded(text))
    decreases |text|
  {
    if text == [] {
    } else {
      var (c, n) := Front(text);
      EncodedWellFormed(text[n..]);
      BytesOfIsCharacter(c);
      WellFormedCons(BytesOf(c), Encoded(text[n..]));
    }
  }

  lemma NoLoneConcat(a: seq<Unit>, b: seq<Unit>)
    requires NoLone(a) && NoLone(b)
    ensures NoLone(a + b)
  {
    forall i | 0 <= i < |a + b| ensures !IsLone(a + b, i) {
      if i < |a| {
        assert !IsLone(a, i);
      } else {
        assert !IsLone(b, i - |a|);
      }
    }
  }

  lemma RoundNoLone(bytes: seq<Byte>)
    requires bytes != []
    ensures NoLone(Round(bytes).0)
  {
    if 0x80 <= bytes[0] && Lead(bytes[0]).Some? {
      var (start, trailing) := Lead(bytes[0]).value;
      var (code, n, complete) := Tails(bytes[1..], trailing, start);
      if complete && Accepted(code, trailing) {
        UnitsOfNoLone(code);
      }
    }
  }

  /** Whatever the bytes, the decoder's output has no lone surrogate. */
  lemma {:induction false} DecodedHasNoLone(bytes: seq<Byte>)
    ensures NoLone(Decoded(bytes))
    decreases |bytes|
  {
    if bytes == [] {
    } else {
      var (units, n) := Round(bytes);
      DecodedHasNoLone(bytes[n..]);
      RoundNoLone(bytes);
      NoLoneConcat(units, Decoded(bytes[n..]));
    }
  }
}
