/** What `TextDecoder.decode` (document_loader.rs) makes of bytes that are not well formed: where the replacement
    characters go, and that damage does not spread past a byte that starts something new. */
module Utf8Damage {
  import opened Wrappers
  import opened Utf8Syntax
  import opened Utf8Codec

  /** Nothing, or something that does not continue what came before. */
  predicate StartsAnew(y: seq<Byte>) {
    y == [] || !(0x80 <= y[0] <= 0xBF)
  }

  lemma {:induction false} TailsStop(x: seq<Byte>, y: seq<Byte>, trailing: nat, code: nat)
    requires StartsAnew(y)
    ensures Tails(x + y, trailing, code) == Tails(x, trailing, code)
    decreases trailing
  {
    if trailing == 0 {
    } else if x == [] {
      assert x + y == y;
    } else if IsTail(x[0]) {
      assert (x + y)[0] == x[0] && (x + y)[1..] == x[1..] + y;
      TailsStop(x[1..], y, trailing - 1, code * 64 + Bits(x[0]));
    }
  }

  lemma RoundStops(x: seq<Byte>, y: seq<Byte>)
    requires x != [] && StartsAnew(y)
    ensures Round(x + y) == Round(x)
  {
    assert (x + y)[0] == x[0] && (x + y)[1..] == x[1..] + y;
    if Lead(x[0]).Some? {
      TailsStop(x[1..], y, Lead(x[0]).value.1, Lead(x[0]).value.0);
    }
  }

  lemma DecodedUnfold(bytes: seq<Byte>, units: seq<Unit>, n: nat)
    requires bytes != [] && Round(bytes) == (units, n)
    ensures n <= |bytes| && Decoded(bytes) == units + Decoded(bytes[n..])
  {
  }

  /** Bytes in front of a byte that is no continuation are decoded as if it were not there, and it as if they were
      not. */
  lemma {:induction false} DecodedSplits(x: seq<Byte>, y: seq<Byte>)
    requires StartsAnew(y)
    ensures Decoded(x + y) == Decoded(x) + Decoded(y)
    decreases |x|
  {
    if x == [] {
      assert x + y == y;
    } else {
      var n := SplitStep(x, y);
      DecodedSplits(x[n..], y);
      SplitGrows(x, y, n);
    }
  }

  /** One round on `x`, and the same round with `y` behind it. */
  ghost predicate SameRound(x: seq<Byte>, y: seq<Byte>, units: seq<Unit>, n: nat) {
    && 0 < n <= |x| && Decoded(x) == units + Decoded(x[n..])
    && Decoded(x + y) == units + Decoded(x[n..] + y)
  }

  lemma SplitStep(x: seq<Byte>, y: seq<Byte>) returns (n: nat)
    requires x != [] && StartsAnew(y)
    ensures n <= |x| && 0 < n && exists units :: SameRound(x, y, units, n)
  {
    var r := Round(x);
    n := r.1;
    RoundStops(x, y);
    DecodedUnfold(x, r.0, n);
    UnfoldBehind(x, y, r.0, n);
    assert SameRound(x, y, r.0, n);
  }

  lemma UnfoldBehind(x: seq<Byte>, y: seq<Byte>, units: seq<Unit>, n: nat)
    requires x != [] && n <= |x| && Round(x + y) == (units, n)
    ensures Decoded(x + y) == units + Decoded(x[n..] + y)
  {
    var z := x + y;
    DecodedUnfold(z, units, n);
    assert z[n..] == x[n..] + y;
  }

  lemma SplitGrows(x: seq<Byte>, y: seq<Byte>, n: nat)
    requires n <= |x| && exists units :: SameRound(x, y, units, n)
    requires Decoded(x[n..] + y) == Decoded(x[n..]) + Decoded(y)
    ensures Decoded(x + y) == Decoded(x) + Decoded(y)
  {
    var units :| SameRound(x, y, units, n);
    Concatenate(units, Decoded(x[n..]), Decoded(y));
  }

  // Where a replacement goes.

  /** How many continuation bytes a lead byte calls for. */
  function Announced(b: Byte): nat {
    if 0xC2 <= b <= 0xDF then 1 else if 0xE0 <= b <= 0xEF then 2 else if 0xF0 <= b <= 0xF4 then 3 else 0
  }

  /** `n` bytes: one, and the continuation bytes behind it, as many as it calls for or as there are. */
  predicate IsDamaged(bytes: seq<Byte>, n: nat) {
    && 1 <= n <= |bytes| && n - 1 <= Announced(bytes[0])
    && (forall i :: 1 <= i < n ==> 0x80 <= bytes[i] <= 0xBF)
    && (n - 1 < Announced(bytes[0]) && n < |bytes| ==> !(0x80 <= bytes[n] <= 0xBF))
  }

  lemma {:induction false} TailsRead(bytes: seq<Byte>, trailing: nat, code: nat)
    ensures var (c, n, complete) := Tails(bytes, trailing, code);
      && n <= |bytes| && n <= trailing && (complete <==> n == trailing)
      && (forall i :: 0 <= i < n ==> IsTail(bytes[i]))
      && (n < trailing && n < |bytes| ==> !IsTail(bytes[n]))
    decreases trailing
  {
    if trailing == 0 || bytes == [] || !IsTail(bytes[0]) {
    } else {
      TailsRead(bytes[1..], trailing - 1, code * 64 + Bits(bytes[0]));
    }
  }

  lemma RoundTakes(bytes: seq<Byte>)
    requires bytes != []
    ensures IsDamaged(bytes, Round(bytes).1)
  {
    if bytes[0] >= 0x80 && Lead(bytes[0]).Some? {
      var (start, trailing) := Lead(bytes[0]).value;
      TailsRead(bytes[1..], trailing, start);
    }
  }

  lemma Accepted2(b: seq<Byte>)
    requires 2 <= |b| && 0xC2 <= b[0] <= 0xDF && IsTail(b[1])
    ensures CharLength(b) == 2
  {
  }

  lemma Accepted3(b: seq<Byte>, code: nat)
    requires 3 <= |b| && 0xE0 <= b[0] <= 0xEF && IsTail(b[1]) && IsTail(b[2])
    requires code == ((b[0] - 0xE0) * 64 + Bits(b[1])) * 64 + Bits(b[2]) && Accepted(code, 2)
    ensures CharLength(b) == 3
  {
    assert IsLead3(b[0], b[1]);
  }

  lemma Accepted4(b: seq<Byte>, code: nat)
    requires 4 <= |b| && 0xF0 <= b[0] <= 0xF4 && IsTail(b[1]) && IsTail(b[2]) && IsTail(b[3])
    requires code == (((b[0] - 0xF0) * 64 + Bits(b[1])) * 64 + Bits(b[2])) * 64 + Bits(b[3]) && Accepted(code, 3)
    ensures CharLength(b) == 4
  {
    assert IsLead4(b[0], b[1]);
  }

  /** What the decoder accepts is a well-formed character. */
  lemma AcceptedIsCharacter(bytes: seq<Byte>)
    requires bytes != [] && CharLength(bytes) == 0
    ensures Round(bytes).0 == [REPLACEMENT]
  {
    if Lead(bytes[0]).Some? {
      var (start, trailing) := Lead(bytes[0]).value;
      var (code, n, complete) := Tails(bytes[1..], trailing, start);
      TailsRead(bytes[1..], trailing, start);
      if complete {
        TailsComplete(bytes[1..], trailing, start);
        var tails := bytes[1..][..trailing];
        if trailing == 1 {
          Accepted2(bytes);
        } else if trailing == 2 {
          assert tails == [bytes[1], bytes[2]];
          Joined2(bytes[1], bytes[2], start);
          if Accepted(code, 2) {
            Accepted3(bytes, code);
          }
        } else {
          assert tails == [bytes[1], bytes[2], bytes[3]];
          Joined3(bytes[1], bytes[2], bytes[3], start);
          if Accepted(code, 3) {
            Accepted4(bytes, code);
          }
        }
      }
    }
  }

  /** Where no well-formed character starts, one replacement stands for the byte and the continuation bytes it is
      taken with; what follows is decoded on its own. With `RoundReadsCharacter` this fixes the decoding of every byte
      string. */
  lemma DamageIsReplaced(bytes: seq<Byte>) returns (n: nat)
    requires bytes != [] && CharLength(bytes) == 0
    ensures IsDamaged(bytes, n) && Decoded(bytes) == [REPLACEMENT] + Decoded(bytes[n..])
  {
    n := Round(bytes).1;
    RoundTakes(bytes);
    AcceptedIsCharacter(bytes);
    DecodedUnfold(bytes, [REPLACEMENT], n);
  }

  /** There is only one way to take the damaged bytes. */
  lemma DamageIsUnique(bytes: seq<Byte>, m: nat, n: nat)
    requires IsDamaged(bytes, m) && IsDamaged(bytes, n)
    ensures m == n
  {
  }

  /** A well-formed character is decoded to its scalar, and what follows on its own. */
  lemma CharacterIsDecoded(bytes: seq<Byte>) returns (c: Scalar)
    requires 0 < CharLength(bytes)
    ensures BytesOf(c) == bytes[..CharLength(bytes)]
    ensures Decoded(bytes) == UnitsOf(c) + Decoded(bytes[CharLength(bytes)..])
  {
    c := RoundReadsCharacter(bytes);
    DecodedUnfold(bytes, UnitsOf(c), CharLength(bytes));
  }
}
