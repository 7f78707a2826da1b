/** The string codecs of the web-API shim (document_loader.rs) in terms of characters: their alphabets, what `atob`
    ignores, and what `unescape` reads in either case. */
module CodecTexts {
  import opened Wrappers
  import opened Utf8Syntax
  import opened Utf8Codec
  import opened Base64
  import opened Escape

  // base64.

  /** The digits are the alphabet of section 4 of RFC 4648, and padding is '='. */
  lemma DigitIsAlphabet(d: Sextet)
    ensures d < 26 ==> CharAt(d) == 'A' as int + d
    ensures 26 <= d < 52 ==> CharAt(d) == 'a' as int + d - 26
    ensures 52 <= d < 62 ==> CharAt(d) == '0' as int + d - 52
    ensures CharAt(62) == '+' as int && CharAt(63) == '/' as int
    ensures PAD == '=' as int
  {
  }

  /** How many characters of the last group are missing. */
  function Missing(n: nat): nat {
    if n % 3 == 0 then 0 else 3 - n % 3
  }

  lemma GroupOfThree(n: nat)
    requires 3 <= n
    ensures (n - 3 + 2) / 3 == (n + 2) / 3 - 1 && Missing(n - 3) == Missing(n)
  {
  }

  lemma QuadShape(chunk: seq<Byte>)
    requires 1 <= |chunk| <= 3
    ensures |Quad(chunk)| == 4
    ensures forall i :: 0 <= i < 4 ==> (Quad(chunk)[i] == '=' as int <==> i >= |chunk| + 1)
  {
  }

  lemma {:induction false} EncodingLength(bytes: seq<Byte>)
    ensures |Base64.Encoding(bytes)| == (|bytes| + 2) / 3 * 4
    ensures Missing(|bytes|) <= |Base64.Encoding(bytes)|
    decreases |bytes|
  {
    if bytes == [] {
    } else {
      var chunk := Head(bytes);
      var rest := bytes[|chunk|..];
      EncodingParts(bytes, chunk, rest);
      QuadShape(chunk);
      if 3 <= |bytes| {
        EncodingLength(rest);
        GroupOfThree(|bytes|);
      }
    }
  }

  /** An encoding is four characters for every three bytes or part of three, the missing ones padded. */
  lemma {:induction false} EncodingShape(bytes: seq<Byte>, i: nat)
    requires i < |Base64.Encoding(bytes)|
    ensures |Base64.Encoding(bytes)| == (|bytes| + 2) / 3 * 4
    ensures Base64.Encoding(bytes)[i] == '=' as int <==> i >= |Base64.Encoding(bytes)| - Missing(|bytes|)
    decreases |bytes|
  {
    EncodingLength(bytes);
    var chunk := Head(bytes);
    var rest := bytes[|chunk|..];
    EncodingParts(bytes, chunk, rest);
    QuadShape(chunk);
    if 3 <= |bytes| {
      EncodingLength(rest);
      GroupOfThree(|bytes|);
      if 4 <= i {
        EncodingShape(rest, i - 4);
      }
    }
  }

  lemma EncodingParts(bytes: seq<Byte>, chunk: seq<Byte>, rest: seq<Byte>)
    requires bytes != [] && chunk == Head(bytes) && rest == bytes[|chunk|..]
    ensures Base64.Encoding(bytes) == Quad(chunk) + Base64.Encoding(rest)
    ensures |bytes| < 3 ==> rest == [] && Base64.Encoding(rest) == []
  {
  }

  predicate IsBlank(u: Unit) {
    u == ' ' as int || u == '\t' as int || u == '\n' as int || u == 12 || u == '\r' as int
  }

  lemma {:induction false} UnspacedConcat(a: seq<Unit>, b: seq<Unit>)
    ensures Unspaced(a + b) == Unspaced(a) + Unspaced(b)
    decreases |a|
  {
    if a == [] {
      assert a + b == b;
    } else {
      assert (a + b)[0] == a[0] && (a + b)[1..] == a[1..] + b;
      UnspacedConcat(a[1..], b);
    }
  }

  lemma UnspacedOne(u: Unit)
    ensures Unspaced([u]) == if IsBlank(u) then [] else [u]
  {
    assert [u][1..] == [];
    assert Unspaced([]) == [];
  }

  /** A blank anywhere in the text makes no difference to `atob`. */
  lemma AtobIgnoresBlanks(a: seq<Unit>, u: Unit, b: seq<Unit>)
    requires IsBlank(u)
    ensures Base64.Decoding(a + [u] + b) == Base64.Decoding(a + b)
  {
    UnspacedConcat(a + [u], b);
    UnspacedConcat(a, [u]);
    UnspacedOne(u);
    UnspacedConcat(a, b);
    assert Unspaced(a) + [] == Unspaced(a);
  }

  /** Nothing but blanks is ignored: a text without any is read as it is. */
  lemma {:induction false} UnspacedKeeps(text: seq<Unit>)
    requires forall i :: 0 <= i < |text| ==> !IsBlank(text[i])
    ensures Unspaced(text) == text
    decreases |text|
  {
    if text == [] {
    } else {
      UnspacedKeeps(text[1..]);
      assert text == [text[0]] + text[1..];
    }
  }

  /** Trimming takes the trailing '=' characters, all of them and no more. */
  lemma {:induction false} TrimEndIs(text: seq<Unit>) returns (n: nat)
    ensures n <= |text| && TrimEnd(text) == text[..n]
    ensures forall i :: n <= i < |text| ==> text[i] == '=' as int
    ensures 0 < n ==> text[n - 1] != '=' as int
    decreases |text|
  {
    var last := |text| - 1;
    if text == [] || text[last] != '=' as int {
      n := |text|;
      assert text[..n] == text;
    } else {
      n := TrimEndIs(text[..last]);
      assert text[..last][..n] == text[..n];
      assert forall i :: n <= i < last ==> text[i] == text[..last][i];
      assert 0 < n ==> text[..last][n - 1] == text[n - 1];
    }
  }

  // escape and unescape.

  /** `escape` leaves letters, digits and seven signs alone. */
  lemma KeptIs(u: Unit)
    ensures IsKept(u) <==>
      || 'A' as int <= u <= 'Z' as int || 'a' as int <= u <= 'z' as int || '0' as int <= u <= '9' as int
      || u == '@' as int || u == '*' as int || u == '_' as int || u == '+' as int || u == '-' as int
      || u == '.' as int || u == '/' as int
  {
  }

  /** A hexadecimal digit in either case. */
  function Hex(n: Nibble, upper: bool): Unit {
    if n < 10 then '0' as int + n else if upper then 'A' as int + n - 10 else 'a' as int + n - 10
  }

  /** `escape` writes hexadecimal digits in upper case and `unescape` reads both. */
  lemma HexIs(n: Nibble, upper: bool)
    ensures HexDigit(n) == Hex(n, true)
    ensures IsHex(Hex(n, upper)) && HexValue(Hex(n, upper)) == n
  {
  }

  /** How `escape` writes a unit: as it is, with two digits, or with four. */
  lemma EscapedForm(u: Unit)
    ensures IsKept(u) ==> Escaped([u]) == [u]
    ensures !IsKept(u) && u < 256 ==> Escaped([u]) == ['%' as int, Hex(u / 16, true), Hex(u % 16, true)]
    ensures u >= 256 ==>
      Escaped([u]) == ['%' as int, 'u' as int, Hex(u / 4096, true), Hex(u / 256 % 16, true), Hex(u / 16 % 16, true),
                       Hex(u % 16, true)]
  {
    assert [u][1..] == [] && Escaped([]) == [];
    assert Escaped([u]) == Escaped1(u);
  }

  /** Two digits behind a percent sign, in any mixture of cases, are one unit. */
  lemma ReadsNarrow(a: Nibble, b: Nibble, upperA: bool, upperB: bool, rest: seq<Unit>)
    ensures Unescaped(['%' as int, Hex(a, upperA), Hex(b, upperB)] + rest) == [a * 16 + b] + Unescaped(rest)
  {
    HexIs(a, upperA);
    HexIs(b, upperB);
    var text: seq<Unit> := ['%' as int, Hex(a, upperA), Hex(b, upperB)] + rest;
    assert text[0] == PERCENT && text[1] == Hex(a, upperA) && text[2] == Hex(b, upperB);
    Number2(text, 1);
    assert Token(text) == (a * 16 + b, 3);
    assert text[3..] == rest;
  }

  lemma TokenWide(text: seq<Unit>, a: Nibble, b: Nibble, c: Nibble, d: Nibble)
    requires 6 <= |text| && text[0] == PERCENT && text[1] == LOWER_U
    requires forall i :: 2 <= i < 6 ==> IsHex(text[i])
    requires HexValue(text[2]) == a && HexValue(text[3]) == b && HexValue(text[4]) == c && HexValue(text[5]) == d
    ensures Token(text) == (((a * 16 + b) * 16 + c) * 16 + d, 6)
  {
    Number4(text, 2);
  }

  /** Four digits behind "%u", in any mixture of cases, are one unit. */
  lemma ReadsWide(a: Nibble, b: Nibble, c: Nibble, d: Nibble, up: (bool, bool, bool, bool), rest: seq<Unit>)
    ensures Unescaped(['%' as int, 'u' as int, Hex(a, up.0), Hex(b, up.1), Hex(c, up.2), Hex(d, up.3)] + rest)
         == [((a * 16 + b) * 16 + c) * 16 + d] + Unescaped(rest)
  {
    HexIs(a, up.0);
    HexIs(b, up.1);
    HexIs(c, up.2);
    HexIs(d, up.3);
    var text: seq<Unit> := ['%' as int, 'u' as int, Hex(a, up.0), Hex(b, up.1), Hex(c, up.2), Hex(d, up.3)] + rest;
    assert text[2] == Hex(a, up.0) && text[3] == Hex(b, up.1) && text[4] == Hex(c, up.2) && text[5] == Hex(d, up.3);
    TokenWide(text, a, b, c, d);
    assert text[6..] == rest;
  }

  /** Anything but a percent sign stands for itself. */
  lemma ReadsPlain(u: Unit, rest: seq<Unit>)
    requires u != '%' as int
    ensures Unescaped([u] + rest) == [u] + Unescaped(rest)
  {
    assert ([u] + rest)[1..] == rest;
  }

  lemma TokenPercent(text: seq<Unit>)
    requires text != []
    requires !(3 <= |text| && IsHex(text[1]) && IsHex(text[2]))
    requires !(6 <= |text| && text[1] == LOWER_U &&
               IsHex(text[2]) && IsHex(text[3]) && IsHex(text[4]) && IsHex(text[5]))
    ensures Token(text) == (text[0], 1)
  {
    assert !IsHexRun(text, 1, 2);
  }

  lemma UnescapedUnfold(text: seq<Unit>, unit: Unit, n: nat)
    requires text != [] && Token(text) == (unit, n)
    ensures n <= |text| && Unescaped(text) == [unit] + Unescaped(text[n..])
  {
  }

  predicate IsCode(rest: seq<Unit>) {
    || (2 <= |rest| && IsHex(rest[0]) && IsHex(rest[1]))
    || (5 <= |rest| && rest[0] == 'u' as int && IsHex(rest[1]) && IsHex(rest[2]) && IsHex(rest[3]) && IsHex(rest[4]))
  }

  lemma PercentStands(text: seq<Unit>)
    requires text != [] && !IsCode(text[1..])
    ensures Token(text) == (text[0], 1)
  {
    var rest := text[1..];
    assert 2 <= |rest| ==> text[1] == rest[0] && text[2] == rest[1];
    assert 5 <= |rest| ==> text[3] == rest[2] && text[4] == rest[3] && text[5] == rest[4];
    TokenPercent(text);
  }

  /** So does a percent sign that no digits follow. */
  lemma ReadsPercent(rest: seq<Unit>)
    requires !IsCode(rest)
    ensures Unescaped(['%' as int] + rest) == ['%' as int] + Unescaped(rest)
  {
    var text: seq<Unit> := ['%' as int] + rest;
    assert text[1..] == rest;
    PercentStands(text);
    UnescapedUnfold(text, '%' as int, 1);
  }

  /** Nothing else is a hexadecimal digit. */
  lemma HexOnly(u: Unit) returns (n: Nibble, upper: bool)
    requires IsHex(u)
    ensures u == Hex(n, upper)
  {
    if u <= '9' as int {
      n, upper := u - '0' as int, true;
    } else if u <= 'F' as int {
      n, upper := u - 'A' as int + 10, true;
    } else {
      n, upper := u - 'a' as int + 10, false;
    }
  }
}
