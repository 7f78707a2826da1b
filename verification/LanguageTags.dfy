/** The BCP 47 canonicaliser (languages.rs, `canonical_bcp47`) against the grammar in section 2.1 of RFC 5646. */
module LanguageTags {
  import opened Wrappers

  type Parts = seq<string>

  // ASCII.

  predicate IsAlphaChar(c: char) { 'a' <= c <= 'z' || 'A' <= c <= 'Z' }
  predicate IsDigitChar(c: char) { '0' <= c <= '9' }
  predicate IsAlnumChar(c: char) { IsAlphaChar(c) || IsDigitChar(c) }

  function LowerChar(c: char): char { if 'A' <= c <= 'Z' then (c as int + 32) as char else c }
  function UpperChar(c: char): char { if 'a' <= c <= 'z' then (c as int - 32) as char else c }

  function Lower(s: string): (r: string)
    ensures |r| == |s| && forall i :: 0 <= i < |s| ==> r[i] == LowerChar(s[i])
  {
    seq(|s|, i requires 0 <= i < |s| => LowerChar(s[i]))
  }

  function Upper(s: string): (r: string)
    ensures |r| == |s| && forall i :: 0 <= i < |s| ==> r[i] == UpperChar(s[i])
  {
    seq(|s|, i requires 0 <= i < |s| => UpperChar(s[i]))
  }

  function Title(s: string): string {
    if s == [] then [] else [UpperChar(s[0])] + Lower(s[1..])
  }

  /** `eq_ignore_ascii_case`. */
  predicate SameFold(a: string, b: string) { Lower(a) == Lower(b) }

  predicate SameFoldAll(a: Parts, b: Parts) {
    |a| == |b| && forall i :: 0 <= i < |a| ==> SameFold(a[i], b[i])
  }

  predicate AllAlpha(s: string) { forall i :: 0 <= i < |s| ==> IsAlphaChar(s[i]) }
  predicate AllAlnum(s: string) { forall i :: 0 <= i < |s| ==> IsAlnumChar(s[i]) }
  predicate AllDigit(s: string) { forall i :: 0 <= i < |s| ==> IsDigitChar(s[i]) }

  // The subtag predicates.

  predicate IsAlphaLen(s: string, n: nat) { |s| == n && n != 0 && AllAlpha(s) }
  predicate IsPrimary(s: string) { AllAlpha(s) && 2 <= |s| <= 8 }
  predicate IsRegion(s: string) { IsAlphaLen(s, 2) || (|s| == 3 && AllDigit(s)) }
  predicate IsVariant(s: string) {
    (5 <= |s| <= 8 && AllAlnum(s)) || (|s| == 4 && IsDigitChar(s[0]) && AllAlnum(s))
  }
  predicate IsSingleton(s: string) { |s| == 1 && IsAlnumChar(s[0]) && s[0] != 'x' && s[0] != 'X' }
  predicate IsExtensionPart(s: string) { 2 <= |s| <= 8 && AllAlnum(s) }
  predicate IsPrivatePart(s: string) { 1 <= |s| <= 8 && AllAlnum(s) }
  predicate IsX(s: string) { SameFold(s, "x") }

  // The grammar, by choice rather than by search: each optional or repeated element may be taken or left.

  predicate IsPrivate(p: Parts) {
    2 <= |p| && IsX(p[0]) && forall i :: 1 <= i < |p| ==> IsPrivatePart(p[i])
  }

  predicate AllExtensionParts(p: Parts, n: nat)
    requires n <= |p|
  {
    forall i :: 0 <= i < n ==> IsExtensionPart(p[i])
  }

  /** Extensions with singletons not in `seen`, then an optional private-use part. */
  predicate ExtensionTail(p: Parts, seen: set<string>)
    decreases |p|
  {
    || p == [] || IsPrivate(p)
    || (&& IsSingleton(p[0]) && Lower(p[0]) !in seen
        && exists n :: 1 <= n < |p| && AllExtensionParts(p[1..], n) && ExtensionTail(p[1 + n..], seen + {Lower(p[0])}))
  }

  /** Variants not in `seen`, then the rest. */
  predicate VariantTail(p: Parts, seen: set<string>)
    decreases |p|
  {
    || ExtensionTail(p, {})
    || (p != [] && IsVariant(p[0]) && Lower(p[0]) !in seen && VariantTail(p[1..], seen + {Lower(p[0])}))
  }

  predicate RegionTail(p: Parts) {
    VariantTail(p, {}) || (p != [] && IsRegion(p[0]) && VariantTail(p[1..], {}))
  }

  predicate ScriptTail(p: Parts) {
    RegionTail(p) || (p != [] && IsAlphaLen(p[0], 4) && RegionTail(p[1..]))
  }

  /** At most `n` extended language subtags, then the rest. */
  predicate LanguageTail(p: Parts, n: nat) {
    ScriptTail(p) || (0 < n && p != [] && IsAlphaLen(p[0], 3) && LanguageTail(p[1..], n - 1))
  }

  predicate IsLangtag(p: Parts) {
    p != [] && IsPrimary(p[0]) && LanguageTail(p[1..], if |p[0]| <= 3 then 3 else 0)
  }

  // The greedy pass, stage by stage, with the output of the stages before it left out.

  function LowerAll(p: Parts): (q: Parts)
    ensures |q| == |p| && forall i :: 0 <= i < |p| ==> q[i] == Lower(p[i])
  {
    seq(|p|, i requires 0 <= i < |p| => Lower(p[i]))
  }

  /** How many extension parts the inner loop takes. */
  function ExtensionRun(p: Parts): (n: nat)
    ensures n <= |p| && AllExtensionParts(p, n) && (n < |p| ==> !IsExtensionPart(p[n]))
  {
    if p == [] || !IsExtensionPart(p[0]) then 0 else 1 + ExtensionRun(p[1..])
  }

  function Prepend(head: Parts, tail: Option<Parts>): Option<Parts> {
    if tail.Some? then Some(head + tail.value) else None
  }

  function CanonExtensions(p: Parts, seen: set<string>): Option<Parts>
    decreases |p|
  {
    if p == [] then Some([])
    else if !IsSingleton(p[0]) then (if IsPrivate(p) then Some(LowerAll(p)) else None)
    else if Lower(p[0]) in seen then None
    else
      var n := ExtensionRun(p[1..]);
      if n == 0 then None
      else Prepend(LowerAll(p[..1 + n]), CanonExtensions(p[1 + n..], seen + {Lower(p[0])}))
  }

  function CanonVariants(p: Parts, seen: set<string>): Option<Parts>
    decreases |p|
  {
    if p == [] || !IsVariant(p[0]) then CanonExtensions(p, {})
    else if Lower(p[0]) in seen then None
    else Prepend([Lower(p[0])], CanonVariants(p[1..], seen + {Lower(p[0])}))
  }

  function CanonicalRegion(s: string): string { if |s| == 2 then Upper(s) else s }

  function CanonRegion(p: Parts): Option<Parts> {
    if p != [] && IsRegion(p[0]) then Prepend([CanonicalRegion(p[0])], CanonVariants(p[1..], {}))
    else CanonVariants(p, {})
  }

  function CanonScript(p: Parts): Option<Parts> {
    if p != [] && IsAlphaLen(p[0], 4) then Prepend([Title(p[0])], CanonRegion(p[1..])) else CanonRegion(p)
  }

  function CanonExtlangs(p: Parts, n: nat): Option<Parts> {
    if 0 < n && p != [] && IsAlphaLen(p[0], 3) then Prepend([Lower(p[0])], CanonExtlangs(p[1..], n - 1))
    else CanonScript(p)
  }

  function CanonParts(p: Parts): Option<Parts>
    requires p != []
  {
    if IsX(p[0]) then (if IsPrivate(p) then Some(LowerAll(p)) else None)
    else if !IsPrimary(p[0]) then None
    else Prepend([Lower(p[0])], CanonExtlangs(p[1..], if |p[0]| <= 3 then 3 else 0))
  }

  // Greedy is complete: what an element can match, nothing after it can.

  /** The shape of a first part that the stages from extensions on can take. */
  lemma ExtensionHead(p: Parts, seen: set<string>)
    requires ExtensionTail(p, seen) && p != []
    ensures |p[0]| == 1
  {
  }

  lemma VariantHead(p: Parts, seen: set<string>)
    requires VariantTail(p, seen) && p != []
    ensures |p[0]| == 1 || IsVariant(p[0])
  {
    if ExtensionTail(p, {}) {
      ExtensionHead(p, {});
    }
  }

  lemma RegionHead(p: Parts)
    requires RegionTail(p) && p != []
    ensures |p[0]| == 1 || IsVariant(p[0]) || IsRegion(p[0])
  {
    if VariantTail(p, {}) {
      VariantHead(p, {});
    }
  }

  lemma ScriptHead(p: Parts)
    requires ScriptTail(p) && p != []
    ensures |p[0]| == 1 || IsVariant(p[0]) || IsRegion(p[0]) || IsAlphaLen(p[0], 4)
  {
    if RegionTail(p) {
      RegionHead(p);
    }
  }

  /** An extension takes all the parts it can: the part after its last one has to be a single character. */
  lemma ExtensionRunIsForced(p: Parts, n: nat, seen: set<string>)
    requires 1 <= n <= |p| && AllExtensionParts(p, n) && ExtensionTail(p[n..], seen)
    ensures ExtensionRun(p) == n
  {
    if n < |p| {
      ExtensionHead(p[n..], seen);
      assert !IsExtensionPart(p[n]);
    }
    RunUnique(p, n);
  }

  lemma {:induction false} RunUnique(p: Parts, n: nat)
    requires n <= |p| && AllExtensionParts(p, n) && (n < |p| ==> !IsExtensionPart(p[n]))
    ensures ExtensionRun(p) == n
    decreases |p|
  {
    if n == 0 {
    } else {
      RunUnique(p[1..], n - 1);
    }
  }

  lemma {:induction false} GreedyExtensions(p: Parts, seen: set<string>)
    ensures CanonExtensions(p, seen).Some? <==> ExtensionTail(p, seen)
    decreases |p|
  {
    if p == [] {
    } else if IsSingleton(p[0]) && Lower(p[0]) !in seen {
      var n := ExtensionRun(p[1..]);
      TailTakesRun(p, seen, n);
      if n != 0 {
        GreedyExtensions(p[1 + n..], seen + {Lower(p[0])});
        ExtensionsUnfold(p, seen, n);
      }
    }
  }

  /** The grammar, too, can only give a singleton its whole run. */
  lemma TailTakesRun(p: Parts, seen: set<string>, n: nat)
    requires p != [] && IsSingleton(p[0]) && Lower(p[0]) !in seen && n == ExtensionRun(p[1..])
    ensures ExtensionTail(p, seen) <==> n != 0 && ExtensionTail(p[1 + n..], seen + {Lower(p[0])})
  {
    var seen' := seen + {Lower(p[0])};
    assert !IsPrivate(p);
    if m :| 1 <= m < |p| && AllExtensionParts(p[1..], m) && ExtensionTail(p[1 + m..], seen') {
      assert p[1..][m..] == p[1 + m..];
      ExtensionRunIsForced(p[1..], m, seen');
    }
  }

  lemma ExtensionsUnfold(p: Parts, seen: set<string>, n: nat)
    requires p != [] && IsSingleton(p[0]) && Lower(p[0]) !in seen && n == ExtensionRun(p[1..]) != 0
    ensures CanonExtensions(p, seen) ==
      Prepend(LowerAll(p[..1 + n]), CanonExtensions(p[1 + n..], seen + {Lower(p[0])}))
  {
  }

  lemma {:induction false} GreedyVariants(p: Parts, seen: set<string>)
    ensures CanonVariants(p, seen).Some? <==> VariantTail(p, seen)
    decreases |p|
  {
    GreedyExtensions(p, {});
    if p == [] || !IsVariant(p[0]) {
    } else {
      if ExtensionTail(p, {}) {
        ExtensionHead(p, {});
      }
      if Lower(p[0]) !in seen {
        GreedyVariants(p[1..], seen + {Lower(p[0])});
      }
    }
  }

  lemma GreedyRegion(p: Parts)
    ensures CanonRegion(p).Some? <==> RegionTail(p)
  {
    GreedyVariants(p, {});
    if p != [] && IsRegion(p[0]) {
      GreedyVariants(p[1..], {});
      if VariantTail(p, {}) {
        VariantHead(p, {});
      }
    }
  }

  lemma GreedyScript(p: Parts)
    ensures CanonScript(p).Some? <==> ScriptTail(p)
  {
    GreedyRegion(p);
    if p != [] && IsAlphaLen(p[0], 4) {
      GreedyRegion(p[1..]);
      if RegionTail(p) {
        RegionHead(p);
      }
    }
  }

  lemma {:induction false} GreedyExtlangs(p: Parts, n: nat)
    ensures CanonExtlangs(p, n).Some? <==> LanguageTail(p, n)
    decreases n
  {
    GreedyScript(p);
    if n == 0 || p == [] || !IsAlphaLen(p[0], 3) {
    } else {
      GreedyExtlangs(p[1..], n - 1);
      if ScriptTail(p) {
        ScriptHead(p);
      }
    }
  }

  /** The greedy single pass accepts exactly the grammar. */
  lemma GreedyIsGrammar(p: Parts)
    requires p != []
    ensures CanonParts(p).Some? <==> IsLangtag(p) || IsPrivate(p)
  {
    GreedyExtlangs(p[1..], if |p[0]| <= 3 then 3 else 0);
    assert IsX(p[0]) ==> |p[0]| == |Lower(p[0])| == |Lower("x")| == 1;
  }

  // Case.

  lemma CharFold(a: char, b: char)
    requires LowerChar(a) == LowerChar(b)
    ensures IsAlphaChar(a) <==> IsAlphaChar(b)
    ensures IsDigitChar(a) <==> IsDigitChar(b)
    ensures UpperChar(a) == UpperChar(b)
    ensures !IsAlphaChar(a) ==> a == b
    ensures a == 'x' || a == 'X' <==> b == 'x' || b == 'X'
  {
  }

  /** No predicate and no case conversion of the pass can tell two spellings apart. */
  lemma FoldClass(a: string, b: string)
    requires SameFold(a, b)
    ensures |a| == |b| && Upper(a) == Upper(b) && Title(a) == Title(b)
    ensures AllAlpha(a) <==> AllAlpha(b)
    ensures AllAlnum(a) <==> AllAlnum(b)
    ensures AllDigit(a) <==> AllDigit(b)
    ensures AllDigit(a) ==> a == b
    ensures IsVariant(a) <==> IsVariant(b)
    ensures IsSingleton(a) <==> IsSingleton(b)
  {
    forall i | 0 <= i < |a|
      ensures
        && (IsAlphaChar(a[i]) <==> IsAlphaChar(b[i])) && (IsDigitChar(a[i]) <==> IsDigitChar(b[i]))
        && UpperChar(a[i]) == UpperChar(b[i]) && (!IsAlphaChar(a[i]) ==> a[i] == b[i])
        && (a[i] == 'x' || a[i] == 'X' <==> b[i] == 'x' || b[i] == 'X')
    {
      assert Lower(a)[i] == Lower(b)[i];
      CharFold(a[i], b[i]);
    }
    assert Upper(a) == Upper(b);
    if a != [] {
      assert Lower(a[1..]) == Lower(a)[1..] && Lower(b[1..]) == Lower(b)[1..];
    }
  }

  lemma FoldTail(p: Parts, q: Parts, n: nat)
    requires SameFoldAll(p, q) && n <= |p|
    ensures SameFoldAll(p[n..], q[n..]) && SameFoldAll(p[..n], q[..n])
  {
  }

  lemma LowerAllFold(p: Parts, q: Parts)
    requires SameFoldAll(p, q)
    ensures LowerAll(p) == LowerAll(q)
  {
  }

  lemma PrivateFold(p: Parts, q: Parts)
    requires SameFoldAll(p, q)
    ensures IsPrivate(p) <==> IsPrivate(q)
  {
    forall i | 0 <= i < |p| ensures IsPrivatePart(p[i]) <==> IsPrivatePart(q[i]) {
      FoldClass(p[i], q[i]);
    }
  }

  lemma {:induction false} RunFold(p: Parts, q: Parts)
    requires SameFoldAll(p, q)
    ensures ExtensionRun(p) == ExtensionRun(q)
    decreases |p|
  {
    if p == [] {
    } else {
      FoldClass(p[0], q[0]);
      FoldTail(p, q, 1);
      RunFold(p[1..], q[1..]);
    }
  }

  lemma {:induction false} ExtensionsFold(p: Parts, q: Parts, seen: set<string>)
    requires SameFoldAll(p, q)
    ensures CanonExtensions(p, seen) == CanonExtensions(q, seen)
    decreases |p|
  {
    if p == [] {
    } else {
      FoldClass(p[0], q[0]);
      FoldTail(p, q, 1);
      RunFold(p[1..], q[1..]);
      var n := ExtensionRun(p[1..]);
      if IsSingleton(p[0]) && Lower(p[0]) !in seen && n != 0 {
        FoldTail(p, q, 1 + n);
        ExtensionsFold(p[1 + n..], q[1 + n..], seen + {Lower(p[0])});
        LowerAllFold(p[..1 + n], q[..1 + n]);
        ExtensionsUnfold(p, seen, n);
        ExtensionsUnfold(q, seen, n);
      } else {
        PrivateFold(p, q);
        LowerAllFold(p, q);
      }
    }
  }

  lemma {:induction false} VariantsFold(p: Parts, q: Parts, seen: set<string>)
    requires SameFoldAll(p, q)
    ensures CanonVariants(p, seen) == CanonVariants(q, seen)
    decreases |p|
  {
    ExtensionsFold(p, q, {});
    if p == [] {
    } else {
      FoldClass(p[0], q[0]);
      FoldTail(p, q, 1);
      VariantsFold(p[1..], q[1..], seen + {Lower(p[0])});
    }
  }

  lemma RegionFold(p: Parts, q: Parts)
    requires SameFoldAll(p, q)
    ensures CanonRegion(p) == CanonRegion(q)
  {
    VariantsFold(p, q, {});
    if p != [] {
      FoldClass(p[0], q[0]);
      FoldTail(p, q, 1);
      VariantsFold(p[1..], q[1..], {});
    }
  }

  lemma ScriptFold(p: Parts, q: Parts)
    requires SameFoldAll(p, q)
    ensures CanonScript(p) == CanonScript(q)
  {
    RegionFold(p, q);
    if p != [] {
      FoldClass(p[0], q[0]);
      FoldTail(p, q, 1);
      RegionFold(p[1..], q[1..]);
    }
  }

  lemma {:induction false} ExtlangsFold(p: Parts, q: Parts, n: nat)
    requires SameFoldAll(p, q)
    ensures CanonExtlangs(p, n) == CanonExtlangs(q, n)
    decreases n
  {
    ScriptFold(p, q);
    if n == 0 || p == [] {
    } else {
      FoldClass(p[0], q[0]);
      FoldTail(p, q, 1);
      ExtlangsFold(p[1..], q[1..], n - 1);
    }
  }

  /** Spelling does not matter: parts equal up to case have the same canonical form. */
  lemma PartsFold(p: Parts, q: Parts)
    requires SameFoldAll(p, q) && p != []
    ensures CanonParts(p) == CanonParts(q)
  {
    FoldClass(p[0], q[0]);
    FoldTail(p, q, 1);
    PrivateFold(p, q);
    LowerAllFold(p, q);
    ExtlangsFold(p[1..], q[1..], if |p[0]| <= 3 then 3 else 0);
  }

  // The result is the input up to case.

  predicate Folds(p: Parts, result: Option<Parts>) {
    result.Some? ==> SameFoldAll(result.value, p)
  }

  lemma CaseOnly(s: string)
    ensures SameFold(Lower(s), s) && SameFold(Upper(s), s) && SameFold(Title(s), s)
  {
    assert forall c: char :: LowerChar(LowerChar(c)) == LowerChar(c) && LowerChar(UpperChar(c)) == LowerChar(c);
    if s != [] {
      forall i | 0 <= i < |s| ensures LowerChar(Title(s)[i]) == LowerChar(s[i]) {
        assert i > 0 ==> Title(s)[i] == Lower(s[1..])[i - 1] == LowerChar(s[i]);
      }
      assert Lower(Title(s)) == Lower(s);
    }
  }

  lemma LowerAllFolds(p: Parts)
    ensures SameFoldAll(LowerAll(p), p)
  {
    forall i | 0 <= i < |p| ensures SameFold(LowerAll(p)[i], p[i]) {
      CaseOnly(p[i]);
    }
  }

  lemma PrependFolds(p: Parts, n: nat, head: Parts, tail: Option<Parts>)
    requires n <= |p| && SameFoldAll(head, p[..n]) && Folds(p[n..], tail)
    ensures Folds(p, Prepend(head, tail))
  {
    if tail.Some? {
      forall i | 0 <= i < |p| ensures SameFold((head + tail.value)[i], p[i]) {
        if i < n {
          assert SameFold(head[i], p[..n][i]);
        } else {
          assert SameFold(tail.value[i - n], p[n..][i - n]);
        }
      }
    }
  }

  lemma {:induction false} ExtensionsFolds(p: Parts, seen: set<string>)
    ensures Folds(p, CanonExtensions(p, seen))
    decreases |p|
  {
    if p == [] {
    } else if IsSingleton(p[0]) {
      var n := ExtensionRun(p[1..]);
      if Lower(p[0]) !in seen && n != 0 {
        var tail := CanonExtensions(p[1 + n..], seen + {Lower(p[0])});
        ExtensionsFolds(p[1 + n..], seen + {Lower(p[0])});
        LowerAllFolds(p[..1 + n]);
        PrependFolds(p, 1 + n, LowerAll(p[..1 + n]), tail);
        ExtensionsUnfold(p, seen, n);
      } else {
        assert CanonExtensions(p, seen).None?;
      }
    } else {
      LowerAllFolds(p);
    }
  }

  lemma PrependOneFolds(p: Parts, head: string, tail: Option<Parts>)
    requires p != [] && SameFold(head, p[0]) && Folds(p[1..], tail)
    ensures Folds(p, Prepend([head], tail))
  {
    PrependFolds(p, 1, [head], tail);
  }

  lemma {:induction false} VariantsFolds(p: Parts, seen: set<string>)
    ensures Folds(p, CanonVariants(p, seen))
    decreases |p|
  {
    ExtensionsFolds(p, {});
    if p == [] || !IsVariant(p[0]) || Lower(p[0]) in seen {
    } else {
      VariantsFolds(p[1..], seen + {Lower(p[0])});
      CaseOnly(p[0]);
      PrependOneFolds(p, Lower(p[0]), CanonVariants(p[1..], seen + {Lower(p[0])}));
    }
  }

  lemma ScriptFolds(p: Parts)
    ensures Folds(p, CanonScript(p))
  {
    RegionFolds(p);
    if p != [] && IsAlphaLen(p[0], 4) {
      RegionFolds(p[1..]);
      CaseOnly(p[0]);
      PrependOneFolds(p, Title(p[0]), CanonRegion(p[1..]));
    }
  }

  lemma RegionFolds(p: Parts)
    ensures Folds(p, CanonRegion(p))
  {
    VariantsFolds(p, {});
    if p != [] && IsRegion(p[0]) {
      VariantsFolds(p[1..], {});
      CaseOnly(p[0]);
      PrependOneFolds(p, CanonicalRegion(p[0]), CanonVariants(p[1..], {}));
    }
  }

  lemma {:induction false} ExtlangsFolds(p: Parts, n: nat)
    ensures Folds(p, CanonExtlangs(p, n))
    decreases n
  {
    ScriptFolds(p);
    if n == 0 || p == [] || !IsAlphaLen(p[0], 3) {
    } else {
      ExtlangsFolds(p[1..], n - 1);
      CaseOnly(p[0]);
      PrependOneFolds(p, Lower(p[0]), CanonExtlangs(p[1..], n - 1));
    }
  }

  lemma PartsFolds(p: Parts)
    requires p != []
    ensures Folds(p, CanonParts(p))
  {
    LowerAllFolds(p);
    var n := if |p[0]| <= 3 then 3 else 0;
    ExtlangsFolds(p[1..], n);
    CaseOnly(p[0]);
    PrependOneFolds(p, Lower(p[0]), CanonExtlangs(p[1..], n));
  }

  // Whole tags.

  const GRANDFATHERED: seq<string> := [
    "art-lojban", "cel-gaulish", "en-GB-oed", "i-ami", "i-bnn", "i-default", "i-enochian", "i-hak", "i-klingon",
    "i-lux", "i-mingo", "i-navajo", "i-pwn", "i-tao", "i-tay", "i-tsu", "no-bok", "no-nyn", "sgn-BE-FR",
    "sgn-BE-NL", "sgn-CH-DE", "zh-guoyu", "zh-hakka", "zh-min", "zh-min-nan", "zh-xiang"]

  const MAX_TAG: nat := 100

  function Find(known: seq<string>, tag: string): (r: Option<string>)
    ensures r.Some? <==> exists i :: 0 <= i < |known| && SameFold(known[i], tag)
    ensures r.Some? ==> SameFold(r.value, tag)
  {
    if known == [] then None else if SameFold(known[0], tag) then Some(known[0]) else Find(known[1..], tag)
  }

  predicate IsAscii(s: string) { forall i :: 0 <= i < |s| ==> s[i] as int < 128 }

  /** The checks made on the tag before it is split. */
  predicate IsShaped(s: string) {
    && s != [] && s[0] != '-' && s[|s| - 1] != '-'
    && (forall i :: 0 <= i < |s| ==> IsAlnumChar(s[i]) || s[i] == '-')
    && (forall i :: 0 <= i < |s| - 1 ==> !(s[i] == '-' && s[i + 1] == '-'))
  }

  function FirstDash(s: string): (n: nat)
    ensures n <= |s| && '-' !in s[..n] && (n < |s| ==> s[n] == '-')
  {
    if s == [] || s[0] == '-' then 0 else
      var n := FirstDash(s[1..]);
      assert s[..n + 1] == [s[0]] + s[1..][..n];
      n + 1
  }

  /** `split('-')`. */
  function Split(s: string): (p: Parts)
    ensures p != []
    decreases |s|
  {
    var n := FirstDash(s);
    if n == |s| then [s] else [s[..n]] + Split(s[n + 1..])
  }

  /** `join("-")`. */
  function Join(p: Parts): string {
    if p == [] then "" else if |p| == 1 then p[0] else p[0] + "-" + Join(p[1..])
  }

  predicate ShortParts(p: Parts) { forall i :: 0 <= i < |p| ==> |p[i]| <= 8 }

  function Canonical(tag: string): Option<string> {
    if tag == "" || |tag| > MAX_TAG || !IsAscii(tag) then None
    else if Find(GRANDFATHERED, tag).Some? then Find(GRANDFATHERED, tag)
    else if !IsShaped(tag) || !ShortParts(Split(tag)) then None
    else
      var out := CanonParts(Split(tag));
      if out.Some? then Some(Join(out.value)) else None
  }

  lemma {:induction false} JoinSplit(s: string)
    ensures Join(Split(s)) == s
    decreases |s|
  {
    var n := FirstDash(s);
    if n == |s| {
      assert Split(s) == [s];
    } else {
      var rest := s[n + 1..];
      JoinSplit(rest);
      SplitUnfold(s, n);
      JoinCons(s[..n], Split(rest));
      CutAtDash(s, n);
    }
  }

  lemma SplitUnfold(s: string, n: nat)
    requires n == FirstDash(s) < |s|
    ensures Split(s) == [s[..n]] + Split(s[n + 1..])
  {
  }

  lemma JoinCons(first: string, p: Parts)
    requires p != []
    ensures Join([first] + p) == first + "-" + Join(p)
  {
    assert ([first] + p)[1..] == p;
  }

  lemma CutAtDash(s: string, n: nat)
    requires n < |s| && s[n] == '-'
    ensures s == s[..n] + "-" + s[n + 1..]
  {
  }

  lemma {:induction false} FirstDashIs(s: string, n: nat)
    requires n <= |s| && '-' !in s[..n] && (n < |s| ==> s[n] == '-')
    ensures FirstDash(s) == n
    decreases |s|
  {
    if n == 0 {
    } else {
      assert s[..n][0] == s[0];
      assert s[..n][1..] == s[1..][..n - 1];
      FirstDashIs(s[1..], n - 1);
    }
  }

  predicate Undashed(p: Parts) { forall i :: 0 <= i < |p| ==> '-' !in p[i] }

  lemma {:induction false} SplitJoin(p: Parts)
    requires p != [] && Undashed(p)
    ensures Split(Join(p)) == p
    decreases |p|
  {
    var s := Join(p);
    if |p| == 1 {
      assert s[..|s|] == s;
      FirstDashIs(s, |s|);
    } else {
      SplitJoin(p[1..]);
      assert s[..|p[0]|] == p[0] && s[|p[0]| + 1..] == Join(p[1..]);
      FirstDashIs(s, |p[0]|);
    }
  }

  lemma {:induction false} JoinFold(p: Parts, q: Parts)
    requires SameFoldAll(p, q)
    ensures SameFold(Join(p), Join(q))
    decreases |p|
  {
    if |p| <= 1 {
    } else {
      JoinFold(p[1..], q[1..]);
      LowerConcat(p[0] + "-", Join(p[1..]));
      LowerConcat(q[0] + "-", Join(q[1..]));
      LowerConcat(p[0], "-");
      LowerConcat(q[0], "-");
    }
  }

  lemma LowerConcat(a: string, b: string)
    ensures Lower(a + b) == Lower(a) + Lower(b)
  {
  }

  lemma FoldSlice(s: string, t: string, i: nat, j: nat)
    requires SameFold(s, t) && i <= j <= |s|
    ensures |s| == |t| && SameFold(s[i..j], t[i..j])
  {
    assert |Lower(s)| == |Lower(t)|;
    assert Lower(s[i..j]) == Lower(s)[i..j] && Lower(t[i..j]) == Lower(t)[i..j];
  }

  lemma FoldChar(s: string, t: string, i: nat)
    requires SameFold(s, t) && i < |s|
    ensures |s| == |t| && (s[i] == '-' <==> t[i] == '-') && (IsAlnumChar(s[i]) <==> IsAlnumChar(t[i]))
    ensures s[i] as int < 128 <==> t[i] as int < 128
  {
    assert |Lower(s)| == |Lower(t)|;
    assert Lower(s)[i] == Lower(t)[i];
    CharFold(s[i], t[i]);
  }

  lemma NoDashFold(s: string, t: string, n: nat)
    requires SameFold(s, t) && n <= |s| == |t| && '-' !in s[..n]
    ensures '-' !in t[..n]
  {
    forall i | 0 <= i < n ensures t[..n][i] != '-' {
      FoldChar(s, t, i);
      assert s[..n][i] != '-';
    }
  }

  lemma FoldAllCons(a: string, b: string, p: Parts, q: Parts)
    requires SameFold(a, b) && SameFoldAll(p, q)
    ensures SameFoldAll([a] + p, [b] + q)
  {
  }

  lemma FirstDashFold(s: string, t: string)
    requires SameFold(s, t)
    ensures |s| == |t| && FirstDash(s) == FirstDash(t)
  {
    assert |Lower(s)| == |Lower(t)|;
    var n := FirstDash(s);
    NoDashFold(s, t, n);
    if n < |s| {
      FoldChar(s, t, n);
    }
    FirstDashIs(t, n);
  }

  lemma {:induction false} SplitFold(s: string, t: string)
    requires SameFold(s, t)
    ensures SameFoldAll(Split(s), Split(t))
    decreases |s|
  {
    FirstDashFold(s, t);
    var n := FirstDash(s);
    if n == |s| {
    } else {
      FoldSlice(s, t, 0, n);
      FoldSlice(s, t, n + 1, |s|);
      SplitFold(s[n + 1..], t[n + 1..]);
      FoldAllCons(s[..n], t[..n], Split(s[n + 1..]), Split(t[n + 1..]));
      SplitUnfold(s, n);
      SplitUnfold(t, n);
    }
  }

  lemma ShapedFold(s: string, t: string)
    requires SameFold(s, t)
    ensures IsShaped(s) <==> IsShaped(t)
    ensures IsAscii(s) <==> IsAscii(t)
  {
    assert |Lower(s)| == |Lower(t)|;
    forall i | 0 <= i < |s|
      ensures (s[i] == '-' <==> t[i] == '-') && (IsAlnumChar(s[i]) <==> IsAlnumChar(t[i]))
           && (s[i] as int < 128 <==> t[i] as int < 128)
    {
      FoldChar(s, t, i);
    }
  }

  lemma {:induction false} FindFold(known: seq<string>, s: string, t: string)
    requires SameFold(s, t)
    ensures Find(known, s) == Find(known, t)
  {
    if known == [] {
    } else {
      FindFold(known[1..], s, t);
    }
  }

  lemma ShortFold(p: Parts, q: Parts)
    requires SameFoldAll(p, q)
    ensures ShortParts(p) <==> ShortParts(q)
  {
    forall i | 0 <= i < |p| ensures |p[i]| == |q[i]| {
      FoldClass(p[i], q[i]);
    }
  }

  /** Tags equal up to case canonicalise alike. */
  lemma CanonicalIgnoresCase(s: string, t: string)
    requires SameFold(s, t)
    ensures Canonical(s) == Canonical(t)
  {
    assert |Lower(s)| == |Lower(t)|;
    ShapedFold(s, t);
    FindFold(GRANDFATHERED, s, t);
    SplitFold(s, t);
    ShortFold(Split(s), Split(t));
    PartsFold(Split(s), Split(t));
  }

  /** The canonical form is the tag itself up to case. */
  lemma CanonicalChangesCaseOnly(tag: string)
    ensures Canonical(tag).Some? ==> SameFold(Canonical(tag).value, tag)
  {
    if Canonical(tag).Some? && Find(GRANDFATHERED, tag).None? {
      PartsFolds(Split(tag));
      JoinFold(CanonParts(Split(tag)).value, Split(tag));
      JoinSplit(tag);
    }
  }

  /** Canonicalising twice is canonicalising once. */
  lemma CanonicalTwice(tag: string)
    ensures Canonical(tag).Some? ==> Canonical(Canonical(tag).value) == Canonical(tag)
  {
    CanonicalChangesCaseOnly(tag);
    if Canonical(tag).Some? {
      CanonicalIgnoresCase(Canonical(tag).value, tag);
    }
  }

  // Acceptance.

  predicate IsSubtag(s: string) { 1 <= |s| <= 8 && AllAlnum(s) }

  predicate AllSubtags(p: Parts) { forall i :: 0 <= i < |p| ==> IsSubtag(p[i]) }

  lemma PrivateSubtags(p: Parts)
    requires IsPrivate(p)
    ensures AllSubtags(p)
  {
    assert |Lower(p[0])| == |Lower("x")|;
    FoldClass(p[0], "x");
  }

  lemma {:induction false} ExtensionSubtags(p: Parts, seen: set<string>)
    requires ExtensionTail(p, seen)
    ensures AllSubtags(p)
    decreases |p|
  {
    if IsPrivate(p) {
      PrivateSubtags(p);
    } else if p != [] {
      var n :| 1 <= n < |p| && AllExtensionParts(p[1..], n) && ExtensionTail(p[1 + n..], seen + {Lower(p[0])});
      ExtensionSubtags(p[1 + n..], seen + {Lower(p[0])});
      forall i | 0 <= i < |p| ensures IsSubtag(p[i]) {
        if 1 <= i <= n {
          assert IsExtensionPart(p[1..][i - 1]);
        } else if n < i {
          assert IsSubtag(p[1 + n..][i - 1 - n]);
        }
      }
    }
  }

  lemma ConsSubtags(p: Parts)
    requires p != [] && IsSubtag(p[0]) && AllSubtags(p[1..])
    ensures AllSubtags(p)
  {
    forall i | 0 <= i < |p| ensures IsSubtag(p[i]) {
      assert 0 < i ==> IsSubtag(p[1..][i - 1]);
    }
  }

  lemma {:induction false} VariantSubtags(p: Parts, seen: set<string>)
    requires VariantTail(p, seen)
    ensures AllSubtags(p)
    decreases |p|
  {
    if ExtensionTail(p, {}) {
      ExtensionSubtags(p, {});
    } else {
      VariantSubtags(p[1..], seen + {Lower(p[0])});
      ConsSubtags(p);
    }
  }

  lemma RegionSubtags(p: Parts)
    requires RegionTail(p)
    ensures AllSubtags(p)
  {
    if VariantTail(p, {}) {
      VariantSubtags(p, {});
    } else {
      VariantSubtags(p[1..], {});
      ConsSubtags(p);
    }
  }

  lemma {:induction false} LanguageSubtags(p: Parts, n: nat)
    requires LanguageTail(p, n)
    ensures AllSubtags(p)
    decreases n
  {
    if RegionTail(p) {
      RegionSubtags(p);
    } else if ScriptTail(p) {
      RegionSubtags(p[1..]);
      ConsSubtags(p);
    } else {
      LanguageSubtags(p[1..], n - 1);
      ConsSubtags(p);
    }
  }

  lemma GrammarSubtags(p: Parts)
    requires IsLangtag(p) || IsPrivate(p)
    ensures p != [] && AllSubtags(p) && Undashed(p) && ShortParts(p)
  {
    if IsPrivate(p) {
      PrivateSubtags(p);
    } else {
      LanguageSubtags(p[1..], if |p[0]| <= 3 then 3 else 0);
      ConsSubtags(p);
    }
    forall i | 0 <= i < |p| ensures '-' !in p[i] {
      assert IsSubtag(p[i]);
    }
  }

  lemma {:induction false} JoinShaped(p: Parts)
    requires p != [] && AllSubtags(p)
    ensures IsShaped(Join(p)) && IsAscii(Join(p))
    decreases |p|
  {
    if 1 < |p| {
      assert AllSubtags(p[1..]) by {
        forall i | 0 <= i < |p| - 1 ensures IsSubtag(p[1..][i]) {
          assert IsSubtag(p[i + 1]);
        }
      }
      JoinShaped(p[1..]);
      var s, rest := Join(p), Join(p[1..]);
      var n := |p[0]|;
      assert IsSubtag(p[0]);
      assert s == p[0] + "-" + rest;
      forall i | 0 <= i < |s| - 1 ensures !(s[i] == '-' && s[i + 1] == '-') {
        if n + 1 <= i {
          assert s[i] == rest[i - n - 1] && s[i + 1] == rest[i - n];
        }
      }
    } else {
      assert IsSubtag(p[0]);
    }
  }

  /** `canonical_bcp47` accepts exactly the tags of at most 100 characters that are grandfathered or match the
      grammar. */
  lemma AcceptsTheGrammar(tag: string)
    ensures Canonical(tag).Some? <==>
      && 0 < |tag| <= 100 && IsAscii(tag)
      && ((exists i :: 0 <= i < |GRANDFATHERED| && SameFold(GRANDFATHERED[i], tag))
          || exists p: Parts :: tag == Join(p) && (IsLangtag(p) || IsPrivate(p)))
  {
    GreedyIsGrammar(Split(tag));
    JoinSplit(tag);
    forall p: Parts | tag == Join(p) && (IsLangtag(p) || IsPrivate(p))
      ensures IsShaped(tag) && Split(tag) == p && ShortParts(p)
    {
      GrammarSubtags(p);
      SplitJoin(p);
      JoinShaped(p);
    }
  }

  // The pass as it is written: one index, one output list, two lists of what was seen.

  lemma PrependTwice(out: Parts, head: Parts, tail: Option<Parts>)
    ensures Prepend(out, Prepend(head, tail)) == Prepend(out + head, tail)
  {
    if tail.Some? {
      assert out + (head + tail.value) == out + head + tail.value;
    }
  }

  function AsSet(s: seq<string>): set<string> { set x | x in s }

  /** The variant loop. `ok` is false when a variant repeats. */
  method TakeVariants(parts: Parts, start: nat, prefix: Parts) returns (ok: bool, index: nat, out: Parts)
    requires start <= |parts|
    ensures ok ==>
      && start <= index <= |parts|
      && Prepend(prefix, CanonVariants(parts[start..], {})) == Prepend(out, CanonExtensions(parts[index..], {}))
    ensures !ok ==> CanonVariants(parts[start..], {}).None?
  {
    ok, index, out := true, start, prefix;
    var seen: seq<string> := [];
    ghost var goal := Prepend(prefix, CanonVariants(parts[start..], {}));
    assert AsSet([]) == {};
    while index < |parts| && IsVariant(parts[index])
      invariant start <= index <= |parts|
      invariant Prepend(out, CanonVariants(parts[index..], AsSet(seen))) == goal
    {
      var variant := Lower(parts[index]);
      if variant in seen {
        ok := false;
        return;
      }
      PrependTwice(out, [variant], CanonVariants(parts[index + 1..], AsSet(seen) + {variant}));
      assert parts[index..][1..] == parts[index + 1..];
      assert AsSet(seen + [variant]) == AsSet(seen) + {variant};
      seen := seen + [variant];
      out := out + [variant];
      index := index + 1;
    }
  }

  /** The loop over the parts of one extension. */
  method TakeRun(parts: Parts, start: nat) returns (index: nat)
    requires start <= |parts|
    ensures index == start + ExtensionRun(parts[start..]) && index <= |parts|
  {
    index := start;
    while index < |parts| && IsExtensionPart(parts[index])
      invariant start <= index <= |parts|
      invariant index - start + ExtensionRun(parts[index..]) == ExtensionRun(parts[start..])
    {
      assert parts[index..][1..] == parts[index + 1..];
      index := index + 1;
    }
  }

  lemma ExtensionStep(parts: Parts, index: nat, end: nat, seen: set<string>, out: Parts)
    requires index < |parts| && IsSingleton(parts[index]) && Lower(parts[index]) !in seen
    requires index + 1 < end <= |parts| && end == index + 1 + ExtensionRun(parts[index + 1..])
    ensures Prepend(out, CanonExtensions(parts[index..], seen)) ==
      Prepend(out + LowerAll(parts[index..end]), CanonExtensions(parts[end..], seen + {Lower(parts[index])}))
  {
    var p, n := parts[index..], end - index - 1;
    assert p[0] == parts[index] && p[1..] == parts[index + 1..];
    assert p[..1 + n] == parts[index..end] && p[1 + n..] == parts[end..];
    ExtensionsUnfold(p, seen, n);
    PrependTwice(out, LowerAll(parts[index..end]), CanonExtensions(parts[end..], seen + {Lower(parts[index])}));
  }

  lemma LoneSingleton(parts: Parts, index: nat, seen: set<string>)
    requires index < |parts| && IsSingleton(parts[index])
    requires Lower(parts[index]) in seen || ExtensionRun(parts[index + 1..]) == 0
    ensures CanonExtensions(parts[index..], seen).None?
  {
    assert parts[index..][1..] == parts[index + 1..];
  }

  /** The extension loop. `ok` is false when a singleton repeats or stands alone. */
  method TakeExtensions(parts: Parts, start: nat, prefix: Parts)
    returns (ok: bool, index: nat, out: Parts, ghost taken: set<string>)
    requires start <= |parts|
    ensures ok ==>
      && start <= index <= |parts| && (index < |parts| ==> !IsSingleton(parts[index]))
      && Prepend(prefix, CanonExtensions(parts[start..], {})) == Prepend(out, CanonExtensions(parts[index..], taken))
    ensures !ok ==> CanonExtensions(parts[start..], {}).None?
  {
    ok, index, out, taken := true, start, prefix, {};
    var seen: seq<string> := [];
    ghost var goal := Prepend(prefix, CanonExtensions(parts[start..], {}));
    while index < |parts| && IsSingleton(parts[index])
      invariant start <= index <= |parts| && taken == AsSet(seen)
      invariant Prepend(out, CanonExtensions(parts[index..], taken)) == goal
      decreases |parts| - index
    {
      var singleton := Lower(parts[index]);
      var end := TakeRun(parts, index + 1);
      if singleton in seen || end == index + 1 {
        LoneSingleton(parts, index, taken);
        ok := false;
        return;
      }
      ExtensionStep(parts, index, end, taken, out);
      seen := seen + [singleton];
      taken := taken + {singleton};
      out := out + LowerAll(parts[index..end]);
      index := end;
    }
  }

  /** From the variants on. */
  method TakeTail(parts: Parts, start: nat, prefix: Parts) returns (result: Option<Parts>)
    requires start <= |parts|
    ensures result == Prepend(prefix, CanonVariants(parts[start..], {}))
  {
    var ok, index, out := TakeVariants(parts, start, prefix);
    if !ok {
      return None;
    }
    ghost var taken;
    ok, index, out, taken := TakeExtensions(parts, index, out);
    if !ok {
      return None;
    }
    if index < |parts| {
      if !IsPrivate(parts[index..]) {
        return None;
      }
      out := out + LowerAll(parts[index..]);
    } else {
      assert out + [] == out;
    }
    return Some(out);
  }

  lemma ExtlangStep(parts: Parts, index: nat, limit: nat, out: Parts)
    requires index < |parts| && 0 < limit && IsAlphaLen(parts[index], 3)
    ensures Prepend(out, CanonExtlangs(parts[index..], limit)) ==
      Prepend(out + [Lower(parts[index])], CanonExtlangs(parts[index + 1..], limit - 1))
  {
    assert parts[index..][1..] == parts[index + 1..];
    PrependTwice(out, [Lower(parts[index])], CanonExtlangs(parts[index + 1..], limit - 1));
  }

  /** The extended language loop. */
  method TakeExtlangs(parts: Parts, prefix: Parts, limit: nat) returns (index: nat, out: Parts)
    requires parts != []
    ensures 1 <= index <= |parts|
    ensures Prepend(prefix, CanonExtlangs(parts[1..], limit)) == Prepend(out, CanonScript(parts[index..]))
  {
    index, out := 1, prefix;
    var extlangs := 0;
    ghost var whole := Prepend(prefix, CanonExtlangs(parts[1..], limit));
    while index < |parts| && extlangs < limit && IsAlphaLen(parts[index], 3)
      invariant 1 <= index <= |parts| && 0 <= extlangs <= limit
      invariant Prepend(out, CanonExtlangs(parts[index..], limit - extlangs)) == whole
    {
      ExtlangStep(parts, index, limit - extlangs, out);
      out := out + [Lower(parts[index])];
      index := index + 1;
      extlangs := extlangs + 1;
    }
  }

  method TakeScript(parts: Parts, from: nat, prefix: Parts) returns (index: nat, out: Parts)
    requires from <= |parts|
    ensures from <= index <= |parts|
    ensures Prepend(out, CanonRegion(parts[index..])) == Prepend(prefix, CanonScript(parts[from..]))
  {
    index, out := from, prefix;
    if index < |parts| && IsAlphaLen(parts[index], 4) {
      PrependTwice(out, [Title(parts[index])], CanonRegion(parts[index + 1..]));
      assert parts[index..][1..] == parts[index + 1..];
      out := out + [Title(parts[index])];
      index := index + 1;
    }
  }

  method TakeRegion(parts: Parts, from: nat, prefix: Parts) returns (index: nat, out: Parts)
    requires from <= |parts|
    ensures from <= index <= |parts|
    ensures Prepend(out, CanonVariants(parts[index..], {})) == Prepend(prefix, CanonRegion(parts[from..]))
  {
    index, out := from, prefix;
    if index < |parts| && IsRegion(parts[index]) {
      PrependTwice(out, [CanonicalRegion(parts[index])], CanonVariants(parts[index + 1..], {}));
      assert parts[index..][1..] == parts[index + 1..];
      out := out + [CanonicalRegion(parts[index])];
      index := index + 1;
    }
  }

  method CanonicalParts(parts: Parts) returns (result: Option<Parts>)
    requires parts != []
    ensures result == CanonParts(parts)
  {
    if IsX(parts[0]) {
      return if IsPrivate(parts) then Some(LowerAll(parts)) else None;
    }
    if !IsPrimary(parts[0]) {
      return None;
    }
    var index, out := TakeExtlangs(parts, [Lower(parts[0])], if |parts[0]| <= 3 then 3 else 0);
    index, out := TakeScript(parts, index, out);
    index, out := TakeRegion(parts, index, out);
    result := TakeTail(parts, index, out);
  }

  method CanonicalBcp47(tag: string) returns (result: Option<string>)
    ensures result == Canonical(tag)
  {
    if tag == "" || |tag| > 100 || !IsAscii(tag) {
      return None;
    }
    var known := Find(GRANDFATHERED, tag);
    if known.Some? {
      return known;
    }
    if !IsShaped(tag) {
      return None;
    }
    var parts := Split(tag);
    if !ShortParts(parts) {
      return None;
    }
    var out := CanonicalParts(parts);
    return if out.Some? then Some(Join(out.value)) else None;
  }
}
