/** The spelling that `canonical_bcp47` (languages.rs) gives a tag is the formatting rule in section 2.1.1 of
    RFC 5646, which looks at lengths and positions only and knows nothing of scripts, regions or variants. */
module LanguageCase {
  import opened LanguageTags

  /** A subtag that is neither first nor behind a singleton. */
  function Formatted(s: string): string {
    if |s| == 2 then Upper(s) else if |s| == 4 then Title(s) else Lower(s)
  }

  /** Lower case from the first singleton on. */
  function Rest(p: Parts): Parts {
    if p == [] then [] else if |p[0]| == 1 then LowerAll(p) else [Formatted(p[0])] + Rest(p[1..])
  }

  function Conventional(p: Parts): Parts {
    if p == [] then [] else if |p[0]| == 1 then LowerAll(p) else [Lower(p[0])] + Rest(p[1..])
  }

  lemma LowerAllCons(p: Parts, n: nat)
    requires n <= |p|
    ensures LowerAll(p) == LowerAll(p[..n]) + LowerAll(p[n..])
  {
  }

  lemma SingletonLength(s: string)
    requires IsSingleton(s) || IsX(s)
    ensures |s| == 1
  {
    assert IsX(s) ==> |Lower(s)| == |Lower("x")|;
  }

  lemma {:induction false} ExtensionsLower(p: Parts, seen: set<string>)
    requires CanonExtensions(p, seen).Some?
    ensures CanonExtensions(p, seen).value == LowerAll(p)
    ensures p != [] ==> |p[0]| == 1
    decreases |p|
  {
    if p == [] {
    } else {
      SingletonLength(p[0]);
      if IsSingleton(p[0]) {
        var n := ExtensionRun(p[1..]);
        ExtensionsLower(p[1 + n..], seen + {Lower(p[0])});
        LowerAllCons(p, 1 + n);
      }
    }
  }

  /** A four-character variant starts with a digit, so the rule's title case is lower case. */
  lemma VariantLower(s: string)
    requires IsVariant(s)
    ensures Formatted(s) == Lower(s) && |s| != 1
  {
    if |s| == 4 {
      assert UpperChar(s[0]) == LowerChar(s[0]);
      assert Lower(s) == [Lower(s)[0]] + Lower(s)[1..];
      assert Lower(s)[1..] == Lower(s[1..]);
    }
  }

  lemma RegionFormatted(s: string)
    requires IsRegion(s)
    ensures Formatted(s) == CanonicalRegion(s) && |s| != 1
  {
    if |s| == 3 {
      assert Lower(s) == s;
    }
  }

  lemma {:induction false} VariantsFormatted(p: Parts, seen: set<string>)
    requires CanonVariants(p, seen).Some?
    ensures CanonVariants(p, seen).value == Rest(p)
    decreases |p|
  {
    if p == [] || !IsVariant(p[0]) {
      ExtensionsLower(p, {});
    } else {
      VariantLower(p[0]);
      VariantsFormatted(p[1..], seen + {Lower(p[0])});
    }
  }

  lemma RegionsFormatted(p: Parts)
    requires CanonRegion(p).Some?
    ensures CanonRegion(p).value == Rest(p)
  {
    if p != [] && IsRegion(p[0]) {
      RegionFormatted(p[0]);
      VariantsFormatted(p[1..], {});
    } else {
      VariantsFormatted(p, {});
    }
  }

  lemma ScriptFormatted(p: Parts)
    requires CanonScript(p).Some?
    ensures CanonScript(p).value == Rest(p)
  {
    if p != [] && IsAlphaLen(p[0], 4) {
      RegionsFormatted(p[1..]);
    } else {
      RegionsFormatted(p);
    }
  }

  lemma {:induction false} ExtlangsFormatted(p: Parts, n: nat)
    requires CanonExtlangs(p, n).Some?
    ensures CanonExtlangs(p, n).value == Rest(p)
    decreases n
  {
    if 0 < n && p != [] && IsAlphaLen(p[0], 3) {
      ExtlangsFormatted(p[1..], n - 1);
    } else {
      ScriptFormatted(p);
    }
  }

  lemma PartsConventional(p: Parts)
    requires p != [] && CanonParts(p).Some?
    ensures CanonParts(p).value == Conventional(p)
  {
    if IsX(p[0]) {
      SingletonLength(p[0]);
    } else {
      ExtlangsFormatted(p[1..], if |p[0]| <= 3 then 3 else 0);
    }
  }

  /** Every accepted tag comes out formatted by the rule, or is a grandfathered tag in its registered spelling. */
  lemma CanonicalIsConventional(tag: string)
    requires Canonical(tag).Some?
    ensures
      || (Canonical(tag).value in GRANDFATHERED && SameFold(Canonical(tag).value, tag))
      || Canonical(tag).value == Join(Conventional(Split(tag)))
  {
    if Find(GRANDFATHERED, tag).Some? {
      FoundIsKnown(GRANDFATHERED, tag);
    } else {
      PartsConventional(Split(tag));
    }
  }

  lemma {:induction false} FoundIsKnown(known: seq<string>, tag: string)
    requires Find(known, tag).Some?
    ensures Find(known, tag).value in known
  {
    if SameFold(known[0], tag) {
    } else {
      FoundIsKnown(known[1..], tag);
    }
  }

  // The cases, character by character.

  /** `d` is the upper-case (or lower-case) form of `c`: another letter of the same place, or `c` itself. */
  predicate IsCase(c: char, d: char, upper: bool) {
    if upper then (if 'a' <= c <= 'z' then d as int - 'A' as int == c as int - 'a' as int else d == c)
    else (if 'A' <= c <= 'Z' then d as int - 'a' as int == c as int - 'A' as int else d == c)
  }

  /** Two characters are written in upper case, four with a capital, any other number in lower case. */
  lemma FormattedIs(s: string, i: nat)
    requires i < |s|
    ensures |Formatted(s)| == |s|
    ensures IsCase(s[i], Formatted(s)[i], |s| == 2 || (|s| == 4 && i == 0))
  {
    if |s| == 4 && 0 < i {
      assert Title(s)[i] == Lower(s[1..])[i - 1];
    }
  }

  lemma LowerIs(s: string, i: nat)
    requires i < |s|
    ensures |Lower(s)| == |s| && IsCase(s[i], Lower(s)[i], false)
  {
  }

  // The subtags of section 2.1 of RFC 5646, by length and characters.

  predicate Letter(c: char) { 'a' <= c <= 'z' || 'A' <= c <= 'Z' }

  predicate Digit(c: char) { '0' <= c <= '9' }

  predicate Letters(s: string) { forall i :: 0 <= i < |s| ==> Letter(s[i]) }

  predicate Digits(s: string) { forall i :: 0 <= i < |s| ==> Digit(s[i]) }

  predicate LettersAndDigits(s: string) { forall i :: 0 <= i < |s| ==> Letter(s[i]) || Digit(s[i]) }

  lemma SubtagShapes(s: string)
    ensures IsPrimary(s) <==> 2 <= |s| <= 8 && Letters(s)
    ensures IsAlphaLen(s, 3) <==> |s| == 3 && Letters(s)
    ensures IsAlphaLen(s, 4) <==> |s| == 4 && Letters(s)
    ensures IsRegion(s) <==> (|s| == 2 && Letters(s)) || (|s| == 3 && Digits(s))
    ensures IsVariant(s) <==> LettersAndDigits(s) && (5 <= |s| <= 8 || (|s| == 4 && Digit(s[0])))
    ensures IsSingleton(s) <==> |s| == 1 && LettersAndDigits(s) && s != "x" && s != "X"
    ensures IsExtensionPart(s) <==> 2 <= |s| <= 8 && LettersAndDigits(s)
    ensures IsPrivatePart(s) <==> 1 <= |s| <= 8 && LettersAndDigits(s)
    ensures IsX(s) <==> s == "x" || s == "X"
  {
    assert AllAlpha(s) <==> Letters(s);
    assert AllDigit(s) <==> Digits(s);
    assert AllAlnum(s) <==> LettersAndDigits(s);
    XIs(s);
  }

  lemma XIs(s: string)
    ensures IsX(s) <==> s == "x" || s == "X"
  {
    assert Lower("x") == "x" && Lower("X") == "x";
    if IsX(s) {
      assert |s| == |Lower(s)| == 1 && LowerChar(s[0]) == 'x';
      assert s == [s[0]];
    }
  }
}
