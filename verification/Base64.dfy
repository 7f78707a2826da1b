/** `btoa` and `atob` of the web-API shim (document_loader.rs) and the Rust encoder `append_base64` (pdf.rs),
    against the 24-bit groups of section 4 of RFC 4648. */
module Base64 {
  import opened Wrappers
  import opened Utf8Syntax
  import opened Utf8Codec

  /** The one `DOMException` these functions throw. */
  datatype Exception = InvalidCharacter

  type Sextet = d: int | 0 <= d < 64

  const PAD: Unit := 61

  /** The character for a digit: A-Z, a-z, 0-9, '+' and '/'. */
  function CharAt(d: Sextet): (u: Unit)
    ensures u != PAD && !IsSpace(u)
  {
    if d < 26 then 65 + d
    else if d < 52 then 97 + (d - 26)
    else if d < 62 then 48 + (d - 52)
    else if d == 62 then 43 else 47
  }

  /** `indexOf` in the alphabet; -1 when the character is not in it. */
  function IndexOf(u: Unit): (d: int)
    ensures -1 <= d < 64
    ensures 0 <= d ==> CharAt(d) == u
  {
    if 65 <= u <= 90 then u - 65
    else if 97 <= u <= 122 then u - 97 + 26
    else if 48 <= u <= 57 then u - 48 + 52
    else if u == 43 then 62
    else if u == 47 then 63
    else -1
  }

  lemma IndexOfCharAt(d: Sextet)
    ensures IndexOf(CharAt(d)) == d
  {
  }

  // The standard.

  function At(chunk: seq<Byte>, i: nat): int {
    if i < |chunk| then chunk[i] else 0
  }

  /** The group of one to three bytes as a 24-bit number, missing bytes zero. */
  function Value(chunk: seq<Byte>): (v: int)
    requires 1 <= |chunk| <= 3
    ensures 0 <= v < 0x1000000
  {
    At(chunk, 0) * 0x10000 + At(chunk, 1) * 0x100 + At(chunk, 2)
  }

  function Quad(chunk: seq<Byte>): (q: seq<Unit>)
    requires 1 <= |chunk| <= 3
    ensures |q| == 4
  {
    var v := Value(chunk);
    [CharAt(v / 0x40000), CharAt(v / 0x1000 % 64),
     if |chunk| > 1 then CharAt(v / 64 % 64) else PAD, if |chunk| > 2 then CharAt(v % 64) else PAD]
  }

  function Head(bytes: seq<Byte>): seq<Byte> {
    if |bytes| < 3 then bytes else bytes[..3]
  }

  function Encoding(bytes: seq<Byte>): seq<Unit> {
    if bytes == [] then [] else Quad(Head(bytes)) + Encoding(bytes[|Head(bytes)|..])
  }

  // The two encoders.

  lemma EncodingStep(bytes: seq<Byte>, index: nat, out: seq<Unit>)
    requires index < |bytes|
    ensures var n := |Head(bytes[index..])|;
      && index + n <= |bytes|
      && out + Quad(Head(bytes[index..])) + Encoding(bytes[index + n..]) == out + Encoding(bytes[index..])
  {
    var n := |Head(bytes[index..])|;
    assert bytes[index..][n..] == bytes[index + n..];
    Concatenate(out, Quad(Head(bytes[index..])), Encoding(bytes[index + n..]));
  }

  // The same 24 bits, taken from neighbouring bytes or from one number.

  lemma By64(v: int, q: int, r: int)
    requires v == q * 64 + r && 0 <= r < 64
    ensures v / 64 == q && v % 64 == r
  {
  }

  lemma FirstSix(a: Byte, b: Byte, c: Byte)
    ensures (a * 0x10000 + b * 0x100 + c) / 0x40000 == a / 4
  {
    assert a == a / 4 * 4 + a % 4;
  }

  lemma SecondSix(a: Byte, b: Byte, c: Byte)
    ensures (a * 0x10000 + b * 0x100 + c) / 0x1000 % 64 == a % 4 * 16 + b / 16
  {
    assert (a * 0x10000 + b * 0x100 + c) / 0x1000 == a * 16 + b / 16;
    By64(a * 16 + b / 16, a / 4, a % 4 * 16 + b / 16);
  }

  lemma LowBits(a: Byte, b: Byte, c: Byte)
    ensures (a * 0x10000 + b * 0x100 + c) / 64 == a * 0x400 + b * 4 + c / 64
    ensures (a * 0x10000 + b * 0x100 + c) % 64 == c % 64
  {
    By64(a * 0x10000 + b * 0x100 + c, a * 0x400 + b * 4 + c / 64, c % 64);
  }

  lemma ThirdSix(a: Byte, b: Byte, c: Byte)
    ensures (a * 0x10000 + b * 0x100 + c) / 64 % 64 == b % 16 * 4 + c / 64
  {
    LowBits(a, b, c);
    By64(a * 0x400 + b * 4 + c / 64, a * 16 + b / 16, b % 16 * 4 + c / 64);
  }

  lemma SameBits(a: Byte, b: Byte, c: Byte)
    ensures var v := a * 0x10000 + b * 0x100 + c;
      && v / 0x40000 == a / 4 && v / 0x1000 % 64 == a % 4 * 16 + b / 16
      && v / 64 % 64 == b % 16 * 4 + c / 64 && v % 64 == c % 64
  {
    FirstSix(a, b, c);
    SecondSix(a, b, c);
    ThirdSix(a, b, c);
    LowBits(a, b, c);
  }

  /** The body of the loop in `append_base64`. */
  method AppendChunk(chunk: seq<Byte>) returns (out: seq<Unit>)
    requires 1 <= |chunk| <= 3
    ensures out == Quad(chunk)
  {
    var a: Byte := chunk[0];
    var b: Byte := if 1 < |chunk| then chunk[1] else 0;
    var c: Byte := if 2 < |chunk| then chunk[2] else 0;
    SameBits(a, b, c);
    assert Value(chunk) == a * 0x10000 + b * 0x100 + c;
    out := [CharAt(a / 4), CharAt(a % 4 * 16 + b / 16),
            if |chunk| > 1 then CharAt(b % 16 * 4 + c / 64) else PAD, if |chunk| > 2 then CharAt(c % 64) else PAD];
  }

  method AppendBase64(output: seq<Unit>, bytes: seq<Byte>) returns (out: seq<Unit>)
    ensures out == output + Encoding(bytes)
  {
    out := output;
    var index := 0;
    while index < |bytes|
      invariant 0 <= index <= |bytes|
      invariant out + Encoding(bytes[index..]) == output + Encoding(bytes)
    {
      EncodingStep(bytes, index, out);
      var chunk := Head(bytes[index..]);
      var quad := AppendChunk(chunk);
      out := out + quad;
      index := index + |chunk|;
    }
  }

  predicate IsByteString(text: seq<Unit>) {
    forall i :: 0 <= i < |text| ==> text[i] <= 0xFF
  }

  function BytesIn(text: seq<Unit>): (b: seq<Byte>)
    requires IsByteString(text)
    ensures |b| == |text| && forall i :: 0 <= i < |b| ==> b[i] == text[i]
  {
    seq(|text|, i requires 0 <= i < |text| => text[i] as Byte)
  }

  /** The body of the loop in `btoa`: one number, shifted. */
  method BtoaChunk(chunk: seq<Byte>) returns (out: seq<Unit>)
    requires 1 <= |chunk| <= 3
    ensures out == Quad(chunk)
  {
    var value := At(chunk, 0) * 65536 + At(chunk, 1) * 256 + At(chunk, 2);
    assert value == Value(chunk);
    out := [CharAt(value / 262144 % 64), CharAt(value / 4096 % 64),
            if |chunk| == 1 then PAD else CharAt(value / 64 % 64), if |chunk| < 3 then PAD else CharAt(value % 64)];
  }

  lemma BtoaStep(text: seq<Unit>, index: nat, end: nat, out: seq<Unit>)
    requires IsByteString(text) && index < |text|
    requires end == if |text| - index < 3 then |text| else index + 3
    ensures out + Quad(BytesIn(text[index..end])) + Encoding(BytesIn(text)[end..])
         == out + Encoding(BytesIn(text)[index..])
  {
    EncodingStep(BytesIn(text), index, out);
    assert Head(BytesIn(text)[index..]) == BytesIn(text[index..end]);
  }

  lemma ByteStringGrows(text: seq<Unit>, index: nat, end: nat)
    requires index <= end <= |text| && IsByteString(text[..index]) && IsByteString(text[index..end])
    ensures IsByteString(text[..end])
  {
    assert text[..end] == text[..index] + text[index..end];
  }

  lemma ByteStringParts(text: seq<Unit>, index: nat, end: nat)
    requires index <= end <= |text| && IsByteString(text)
    ensures IsByteString(text[index..end])
  {
  }

  method Btoa(text: seq<Unit>) returns (result: Result<seq<Unit>, Exception>)
    ensures result == if IsByteString(text) then Ok(Encoding(BytesIn(text))) else Err(InvalidCharacter)
  {
    var out: seq<Unit> := [];
    var index := 0;
    while index < |text|
      invariant 0 <= index <= |text|
      invariant IsByteString(text[..index])
      invariant IsByteString(text) ==> out + Encoding(BytesIn(text)[index..]) == Encoding(BytesIn(text))
    {
      var end := if |text| - index < 3 then |text| else index + 3;
      if !IsByteString(text[index..end]) {
        assert !IsByteString(text) by {
          if IsByteString(text) {
            ByteStringParts(text, index, end);
          }
        }
        return Err(InvalidCharacter);
      }
      if IsByteString(text) {
        BtoaStep(text, index, end, out);
      }
      ByteStringGrows(text, index, end);
      var quad := BtoaChunk(BytesIn(text[index..end]));
      out := out + quad;
      index := end;
    }
    assert text[..|text|] == text;
    assert BytesIn(text)[|text|..] == [] && out + [] == out;
    return Ok(out);
  }

  // atob.

  predicate IsSpace(u: Unit) { u == 32 || u == 9 || u == 10 || u == 12 || u == 13 }

  function Unspaced(text: seq<Unit>): seq<Unit> {
    if text == [] then [] else (if IsSpace(text[0]) then [] else [text[0]]) + Unspaced(text[1..])
  }

  function TrimEnd(text: seq<Unit>): seq<Unit> {
    if text != [] && text[|text| - 1] == PAD then TrimEnd(text[..|text| - 1]) else text
  }

  function Pow2(n: nat): (p: nat)
    ensures 0 < p
  {
    if n == 0 then 1 else 2 * Pow2(n - 1)
  }

  /** The decoding loop from accumulator `buffer` with `bits` bits in it. */
  function Collect(text: seq<Unit>, buffer: nat, bits: nat): Result<seq<Byte>, Exception>
    requires bits < 8 && buffer < Pow2(bits)
  {
    if text == [] then Ok([])
    else if IndexOf(text[0]) < 0 then Err(InvalidCharacter)
    else
      var wide := buffer * 64 + IndexOf(text[0]);
      WideFits(buffer, bits, IndexOf(text[0]));
      if bits < 2 then Collect(text[1..], wide, bits + 6)
      else Prepend([wide / Pow2(bits - 2)], Collect(text[1..], wide % Pow2(bits - 2), bits - 2))
  }

  lemma {:induction false} PowAdd(a: nat, b: nat)
    ensures Pow2(a + b) == Pow2(a) * Pow2(b)
  {
    if a == 0 {
    } else {
      PowAdd(a - 1, b);
    }
  }

  lemma SmallPowers()
    ensures Pow2(0) == 1 && Pow2(2) == 4 && Pow2(4) == 16 && Pow2(6) == 64
  {
    assert Pow2(2) == 4;
    assert Pow2(4) == 16;
    PowAdd(4, 2);
  }

  /** The accumulator stays below two to the number of bits it holds, so no shift loses a bit and the byte taken
      out is one. */
  lemma WideFits(buffer: nat, bits: nat, digit: nat)
    requires bits < 8 && buffer < Pow2(bits) && digit < 64
    ensures buffer * 64 + digit < Pow2(bits + 6)
    ensures 2 <= bits ==> 0 <= (buffer * 64 + digit) / Pow2(bits - 2) < 256
    ensures 2 <= bits ==> 0 <= (buffer * 64 + digit) % Pow2(bits - 2) < Pow2(bits - 2)
  {
    WideBelow(buffer, bits, digit);
    if 2 <= bits {
      QuotientBelow(buffer * 64 + digit, Pow2(bits - 2), 256);
    }
  }

  lemma WideBelow(buffer: nat, bits: nat, digit: nat)
    requires bits < 8 && buffer < Pow2(bits) && digit < 64
    ensures buffer * 64 + digit < Pow2(bits + 6)
    ensures 2 <= bits ==> buffer * 64 + digit < 256 * Pow2(bits - 2)
  {
    assert Pow2(bits + 6) == Pow2(bits) * 64 by {
      PowAdd(bits, 6);
      SmallPowers();
    }
    if 2 <= bits {
      assert Pow2(bits) == 4 * Pow2(bits - 2) by {
        PowAdd(2, bits - 2);
        SmallPowers();
      }
    }
  }

  lemma QuotientBelow(n: nat, d: nat, q: nat)
    requires 0 < d && n < q * d
    ensures 0 <= n / d < q && 0 <= n % d < d
  {
    assert n == n / d * d + n % d;
  }

  function Decoding(text: seq<Unit>): Result<seq<Byte>, Exception> {
    var trimmed := TrimEnd(Unspaced(text));
    if |trimmed| % 4 == 1 then Err(InvalidCharacter) else Collect(trimmed, 0, 0)
  }

  function Prepend(out: seq<Byte>, rest: Result<seq<Byte>, Exception>): Result<seq<Byte>, Exception> {
    if rest.Ok? then Ok(out + rest.value) else rest
  }

  lemma PrependTwice(out: seq<Byte>, byte: Byte, rest: Result<seq<Byte>, Exception>)
    ensures Prepend(out, Prepend([byte], rest)) == Prepend(out + [byte], rest)
  {
    if rest.Ok? {
      Concatenate(out, [byte], rest.value);
    }
  }

  lemma CollectUnfold(text: seq<Unit>, buffer: nat, bits: nat)
    requires text != [] && bits < 8 && buffer < Pow2(bits) && 0 <= IndexOf(text[0])
    ensures var wide := buffer * 64 + IndexOf(text[0]);
      if bits < 2 then wide < Pow2(bits + 6) && Collect(text, buffer, bits) == Collect(text[1..], wide, bits + 6)
      else
        && 0 <= wide / Pow2(bits - 2) < 256
        && Collect(text, buffer, bits)
           == Prepend([wide / Pow2(bits - 2)], Collect(text[1..], wide % Pow2(bits - 2), bits - 2))
  {
    WideFits(buffer, bits, IndexOf(text[0]));
  }

  /** What the loop has read, and what it will make of the rest, give the whole. */
  ghost predicate Collecting(text: seq<Unit>, index: nat, buffer: nat, bits: nat, out: seq<Byte>) {
    && index <= |text| && bits < 8 && buffer < Pow2(bits)
    && Prepend(out, Collect(text[index..], buffer, bits)) == Collect(text, 0, 0)
  }

  lemma CollectingEnds(text: seq<Unit>)
    ensures Collecting(text, 0, 0, 0, [])
    ensures forall buffer, bits, out :: Collecting(text, |text|, buffer, bits, out) ==> Collect(text, 0, 0) == Ok(out)
  {
    assert text[0..] == text && text[|text|..] == [];
    var whole := Collect(text, 0, 0);
    assert whole.Ok? ==> [] + whole.value == whole.value;
    assert forall out: seq<Byte> :: out + [] == out;
  }

  /** One digit of the loop: a byte comes out when eight bits are together. */
  function Taken(buffer: nat, bits: nat, digit: nat): (r: (nat, nat, seq<Byte>))
    requires bits < 8 && buffer < Pow2(bits) && digit < 64
    ensures r.1 < 8 && r.0 < Pow2(r.1)
  {
    WideFits(buffer, bits, digit);
    var wide := buffer * 64 + digit;
    if bits < 2 then (wide, bits + 6, [])
    else (wide % Pow2(bits - 2), bits - 2, [wide / Pow2(bits - 2)])
  }

  lemma CollectStep(text: seq<Unit>, index: nat, buffer: nat, bits: nat, out: seq<Byte>)
    requires Collecting(text, index, buffer, bits, out) && index < |text| && 0 <= IndexOf(text[index])
    ensures var r := Taken(buffer, bits, IndexOf(text[index]));
      Collecting(text, index + 1, r.0, r.1, out + r.2)
  {
    var rest := text[index..];
    assert rest[0] == text[index] && rest[1..] == text[index + 1..];
    CollectUnfold(rest, buffer, bits);
    if bits < 2 {
      assert out + [] == out;
    } else {
      var wide := buffer * 64 + IndexOf(text[index]);
      PrependTwice(out, wide / Pow2(bits - 2), Collect(text[index + 1..], wide % Pow2(bits - 2), bits - 2));
    }
  }

  /** The body of the loop of `atob`. */
  method TakeDigit(buffer0: nat, bits0: nat, digit: nat) returns (buffer: nat, bits: nat, out: seq<Byte>)
    requires bits0 < 8 && buffer0 < Pow2(bits0) && digit < 64
    ensures (buffer, bits, out) == Taken(buffer0, bits0, digit)
  {
    WideFits(buffer0, bits0, digit);
    buffer, bits, out := buffer0 * 64 + digit, bits0 + 6, [];
    if bits >= 8 {
      bits := bits - 8;
      var byte: Byte := buffer / Pow2(bits);
      out := [byte];
      buffer := buffer % Pow2(bits);
    }
  }

  lemma CollectFails(text: seq<Unit>, index: nat, buffer: nat, bits: nat, out: seq<Byte>)
    requires Collecting(text, index, buffer, bits, out) && index < |text| && IndexOf(text[index]) < 0
    ensures Collect(text, 0, 0) == Err(InvalidCharacter)
  {
  }

  /** The loop of `atob`. */
  method CollectDigits(text: seq<Unit>) returns (result: Result<seq<Byte>, Exception>)
    ensures result == Collect(text, 0, 0)
  {
    var out: seq<Byte> := [];
    var buffer: nat, bits: nat := 0, 0;
    var index := 0;
    CollectingEnds(text);
    while index < |text|
      invariant 0 <= index <= |text| && Collecting(text, index, buffer, bits, out)
    {
      var digit := IndexOf(text[index]);
      if digit < 0 {
        CollectFails(text, index, buffer, bits, out);
        return Err(InvalidCharacter);
      }
      CollectStep(text, index, buffer, bits, out);
      var more;
      buffer, bits, more := TakeDigit(buffer, bits, digit);
      out := out + more;
      index := index + 1;
    }
    CollectingEnds(text);
    return Ok(out);
  }

  method Atob(text: seq<Unit>) returns (result: Result<seq<Byte>, Exception>)
    ensures result == Decoding(text)
  {
    var trimmed := TrimEnd(Unspaced(text));
    if |trimmed| % 4 == 1 {
      return Err(InvalidCharacter);
    }
    result := CollectDigits(trimmed);
  }

  predicate AllDigits(text: seq<Unit>) { forall i :: 0 <= i < |text| ==> 0 <= IndexOf(text[i]) }

  /** `atob` accepts exactly the texts that, once spaces and trailing padding are gone, are all alphabet and do not
      end in a lone digit. */
  lemma AtobAccepts(text: seq<Unit>)
    ensures var trimmed := TrimEnd(Unspaced(text));
      Decoding(text).Ok? <==> |trimmed| % 4 != 1 && AllDigits(trimmed)
  {
    CollectAccepts(TrimEnd(Unspaced(text)), 0, 0);
  }

  /** The loop fails exactly on a unit outside the alphabet, whatever it holds already. */
  lemma {:induction false} CollectAccepts(text: seq<Unit>, buffer: nat, bits: nat)
    requires bits < 8 && buffer < Pow2(bits)
    ensures Collect(text, buffer, bits).Ok? <==> AllDigits(text)
    decreases |text|
  {
    if text == [] {
    } else if IndexOf(text[0]) < 0 {
      assert !AllDigits(text);
    } else {
      AllDigitsRest(text);
      WideFits(buffer, bits, IndexOf(text[0]));
      var wide := buffer * 64 + IndexOf(text[0]);
      if bits < 2 {
        CollectAccepts(text[1..], wide, bits + 6);
      } else {
        CollectAccepts(text[1..], wide % Pow2(bits - 2), bits - 2);
      }
    }
  }

  lemma AllDigitsRest(text: seq<Unit>)
    requires text != [] && 0 <= IndexOf(text[0])
    ensures AllDigits(text) <==> AllDigits(text[1..])
  {
    assert forall i :: 1 <= i < |text| ==> text[i] == text[1..][i - 1];
  }

  // Round trip.

  /** The encoding without its padding. */
  function Bare(bytes: seq<Byte>): seq<Unit> {
    if bytes == [] then [] else Quad(Head(bytes))[..|Head(bytes)| + 1] + Bare(bytes[|Head(bytes)|..])
  }

  lemma {:induction false} TrimConcat(a: seq<Unit>, b: seq<Unit>)
    requires TrimEnd(b) != []
    ensures TrimEnd(a + b) == a + TrimEnd(b)
    decreases |b|
  {
    if b[|b| - 1] != PAD {
    } else {
      TrimConcat(a, b[..|b| - 1]);
      assert (a + b)[..|a + b| - 1] == a + b[..|b| - 1];
    }
  }

  lemma TrimQuad(chunk: seq<Byte>)
    requires 1 <= |chunk| <= 3
    ensures TrimEnd(Quad(chunk)) == Quad(chunk)[..|chunk| + 1]
  {
    var q := Quad(chunk);
    if |chunk| < 3 {
      assert TrimEnd(q) == TrimEnd(q[..3]);
      if |chunk| == 1 {
        assert q[..3][..2] == q[..2];
        assert TrimEnd(q[..3]) == TrimEnd(q[..2]);
      }
    } else {
      assert q[..4] == q;
    }
  }

  /** Trailing padding is all that `atob` drops from an encoding. */
  lemma {:induction false} TrimEncoding(bytes: seq<Byte>)
    ensures TrimEnd(Encoding(bytes)) == Bare(bytes)
    ensures bytes != [] ==> Bare(bytes) != []
    decreases |bytes|
  {
    if bytes == [] {
    } else {
      var chunk := Head(bytes);
      var rest := bytes[|chunk|..];
      TrimQuad(chunk);
      if rest == [] {
        assert Quad(chunk) + Encoding(rest) == Quad(chunk);
        assert Quad(chunk)[..|chunk| + 1] + Bare(rest) == Quad(chunk)[..|chunk| + 1];
      } else {
        TrimEncoding(rest);
        TrimConcat(Quad(chunk), Encoding(rest));
        assert Quad(chunk)[..4] == Quad(chunk);
      }
    }
  }

  lemma {:induction false} NothingToUnspace(text: seq<Unit>)
    requires forall i :: 0 <= i < |text| ==> !IsSpace(text[i])
    ensures Unspaced(text) == text
    decreases |text|
  {
    if text == [] {
    } else {
      NothingToUnspace(text[1..]);
    }
  }

  lemma {:induction false} EncodingHasNoSpace(bytes: seq<Byte>)
    ensures forall i :: 0 <= i < |Encoding(bytes)| ==> !IsSpace(Encoding(bytes)[i])
    decreases |bytes|
  {
    if bytes == [] {
    } else {
      var chunk := Head(bytes);
      EncodingHasNoSpace(bytes[|chunk|..]);
      assert forall i :: 0 <= i < 4 ==> !IsSpace(Quad(chunk)[i]);
    }
  }

  lemma BareFirst(bytes: seq<Byte>)
    requires bytes != []
    ensures |Bare(bytes)| == if 3 <= |bytes| then 4 + |Bare(bytes[3..])| else |bytes| + 1
  {
    var chunk := Head(bytes);
    var q := Quad(chunk)[..|chunk| + 1];
    assert |q| == |chunk| + 1;
    assert Bare(bytes) == q + Bare(bytes[|chunk|..]);
    assert |bytes| < 3 ==> bytes[|chunk|..] == [];
  }

  /** The length of an encoding of `n` bytes without its padding. */
  function BareSize(n: nat): nat {
    if n == 0 then 0 else if n < 3 then n + 1 else 4 + BareSize(n - 3)
  }

  lemma {:induction false} BareSizeMod(n: nat)
    ensures BareSize(n) % 4 != 1
  {
    if n < 3 {
    } else {
      BareSizeMod(n - 3);
    }
  }

  lemma {:induction false} BareIsSize(bytes: seq<Byte>)
    ensures |Bare(bytes)| == BareSize(|bytes|)
    decreases |bytes|
  {
    if bytes == [] {
    } else {
      BareFirst(bytes);
      if 3 <= |bytes| {
        BareIsSize(bytes[3..]);
      }
    }
  }

  lemma BareLength(bytes: seq<Byte>)
    ensures |Bare(bytes)| % 4 != 1
  {
    BareIsSize(bytes);
    BareSizeMod(|bytes|);
  }

  lemma Regroup(a: Byte, b: Byte, c: Byte)
    ensures var v := a * 0x10000 + b * 0x100 + c;
      var wide0 := v / 0x40000 * 64 + v / 0x1000 % 64;
      var wide1 := wide0 % 16 * 64 + v / 64 % 64;
      var wide2 := wide1 % 4 * 64 + v % 64;
      wide0 / 16 == a && wide1 / 4 == b && wide2 == c
  {
    SameBits(a, b, c);
  }

  lemma CollectAt(text: seq<Unit>, digit: Sextet, rest: seq<Unit>, buffer: nat, bits: nat)
    requires text == [CharAt(digit)] + rest && bits < 8 && buffer < Pow2(bits)
    ensures var wide := buffer * 64 + digit;
      if bits < 2 then wide < Pow2(bits + 6) && Collect(text, buffer, bits) == Collect(rest, wide, bits + 6)
      else
        && 0 <= wide / Pow2(bits - 2) < 256
        && Collect(text, buffer, bits)
           == Prepend([wide / Pow2(bits - 2)], Collect(rest, wide % Pow2(bits - 2), bits - 2))
  {
    IndexOfCharAt(digit);
    assert text[0] == CharAt(digit) && text[1..] == rest;
    CollectUnfold(text, buffer, bits);
  }

  /** The first two digits of a group. */
  lemma CollectTwo(v: nat, q: seq<Unit>, rest: seq<Unit>)
    requires v < 0x1000000 && q == [CharAt(v / 0x40000), CharAt(v / 0x1000 % 64)] + rest
    ensures var wide := v / 0x40000 * 64 + v / 0x1000 % 64;
      && wide % 16 < Pow2(4) && 0 <= wide / 16 < 256
      && Collect(q, 0, 0) == Prepend([wide / 16], Collect(rest, wide % 16, 4))
  {
    SmallPowers();
    CollectAt(q, v / 0x40000, q[1..], 0, 0);
    assert q[1..] == [CharAt(v / 0x1000 % 64)] + rest;
    CollectAt(q[1..], v / 0x1000 % 64, rest, v / 0x40000, 6);
  }

  lemma CollectThree(v: nat, q: seq<Unit>, rest: seq<Unit>)
    requires v < 0x1000000 && q == [CharAt(v / 0x40000), CharAt(v / 0x1000 % 64), CharAt(v / 64 % 64)] + rest
    ensures var wide := v / 0x40000 * 64 + v / 0x1000 % 64;
      var next := wide % 16 * 64 + v / 64 % 64;
      && next % 4 < Pow2(2) && 0 <= wide / 16 < 256 && 0 <= next / 4 < 256
      && Collect(q, 0, 0) == Prepend([wide / 16], Prepend([next / 4], Collect(rest, next % 4, 2)))
  {
    var wide := v / 0x40000 * 64 + v / 0x1000 % 64;
    SmallPowers();
    var third := [CharAt(v / 64 % 64)] + rest;
    assert q == [CharAt(v / 0x40000), CharAt(v / 0x1000 % 64)] + third;
    CollectTwo(v, q, third);
    CollectAt(third, v / 64 % 64, rest, wide % 16, 4);
  }

  /** The last digit of a group empties the accumulator. */
  lemma CollectLast(text: seq<Unit>, digit: Sextet, rest: seq<Unit>, buffer: nat, byte: Byte)
    requires text == [CharAt(digit)] + rest && buffer < 4 && buffer * 64 + digit == byte
    ensures buffer < Pow2(2) && Collect(text, buffer, 2) == Prepend([byte], Collect(rest, 0, 0))
  {
    SmallPowers();
    CollectAt(text, digit, rest, buffer, 2);
    assert byte / Pow2(0) == byte && byte % Pow2(0) == 0;
  }

  lemma CollectFourDigits(v: nat, text: seq<Unit>, rest: seq<Unit>, b0: Byte, b1: Byte, b2: Byte)
    requires v < 0x1000000
    requires text == [CharAt(v / 0x40000), CharAt(v / 0x1000 % 64), CharAt(v / 64 % 64), CharAt(v % 64)] + rest
    requires var wide := v / 0x40000 * 64 + v / 0x1000 % 64;
      var next := wide % 16 * 64 + v / 64 % 64;
      wide / 16 == b0 && next / 4 == b1 && next % 4 * 64 + v % 64 == b2
    ensures Collect(text, 0, 0) == Prepend([b0], Prepend([b1], Prepend([b2], Collect(rest, 0, 0))))
  {
    var wide := v / 0x40000 * 64 + v / 0x1000 % 64;
    var next := wide % 16 * 64 + v / 64 % 64;
    var fourth := [CharAt(v % 64)] + rest;
    assert text == [CharAt(v / 0x40000), CharAt(v / 0x1000 % 64), CharAt(v / 64 % 64)] + fourth;
    CollectThree(v, text, fourth);
    CollectLast(fourth, v % 64, rest, next % 4, b2);
  }

  lemma CollectFour(chunk: seq<Byte>, rest: seq<Unit>)
    requires |chunk| == 3
    ensures Collect(Quad(chunk) + rest, 0, 0) == Prepend(chunk, Collect(rest, 0, 0))
  {
    var b0, b1, b2 := chunk[0], chunk[1], chunk[2];
    Regroup(b0, b1, b2);
    CollectFourDigits(Value(chunk), Quad(chunk) + rest, rest, b0, b1, b2);
    PrependThree(chunk, Collect(rest, 0, 0));
  }

  lemma PrependThree(chunk: seq<Byte>, rest: Result<seq<Byte>, Exception>)
    requires |chunk| == 3
    ensures Prepend([chunk[0]], Prepend([chunk[1]], Prepend([chunk[2]], rest))) == Prepend(chunk, rest)
  {
    if rest.Ok? {
      assert [chunk[0]] + ([chunk[1]] + ([chunk[2]] + rest.value)) == chunk + rest.value;
    }
  }

  /** The digits of one group give its bytes back and leave the accumulator empty, or hold only the padding
      bits when the group is the last. */
  lemma CollectQuad(chunk: seq<Byte>, rest: seq<Unit>)
    requires 1 <= |chunk| <= 3 && (|chunk| < 3 ==> rest == [])
    ensures Collect(Quad(chunk)[..|chunk| + 1] + rest, 0, 0) == Prepend(chunk, Collect(rest, 0, 0))
  {
    if |chunk| == 3 {
      CollectFour(chunk, rest);
      assert Quad(chunk)[..4] == Quad(chunk);
    } else if |chunk| == 2 {
      CollectPair(chunk);
    } else {
      CollectSingle(chunk);
    }
  }

  lemma CollectSingle(chunk: seq<Byte>)
    requires |chunk| == 1
    ensures Collect(Quad(chunk)[..2] + [], 0, 0) == Prepend(chunk, Collect([], 0, 0))
  {
    Regroup(chunk[0], 0, 0);
    CollectTwo(Value(chunk), Quad(chunk)[..2] + [], []);
    assert chunk == [chunk[0]];
  }

  lemma CollectPair(chunk: seq<Byte>)
    requires |chunk| == 2
    ensures Collect(Quad(chunk)[..3] + [], 0, 0) == Prepend(chunk, Collect([], 0, 0))
  {
    Regroup(chunk[0], chunk[1], 0);
    CollectThree(Value(chunk), Quad(chunk)[..3] + [], []);
    assert [chunk[0]] + ([chunk[1]] + []) == chunk == chunk + [];
  }

  lemma {:induction false} CollectBare(bytes: seq<Byte>)
    ensures Collect(Bare(bytes), 0, 0) == Ok(bytes)
    decreases |bytes|
  {
    if bytes == [] {
    } else {
      var chunk := Head(bytes);
      CollectBare(bytes[|chunk|..]);
      CollectQuad(chunk, Bare(bytes[|chunk|..]));
      assert bytes == chunk + bytes[|chunk|..];
    }
  }

  /** `atob` undoes the encoding of every byte string. */
  lemma AtobBtoa(bytes: seq<Byte>)
    ensures Decoding(Encoding(bytes)) == Ok(bytes)
  {
    EncodingHasNoSpace(bytes);
    NothingToUnspace(Encoding(bytes));
    TrimEncoding(bytes);
    BareLength(bytes);
    CollectBare(bytes);
  }
}
