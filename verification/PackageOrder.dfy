/** The order of the audit's report (scripts/audit-c-surface.ts): by name, then by version, equal ones as they came.
    The library's `sort` is a stable sort, and `localeCompare` is any consistent order of strings. */
module PackageOrder {
  import opened DependencyWalk

  /** `links` is true of a package that names a native library. */
  datatype Package = Package(id: Id, name: string, version: string, links: bool)

  predicate Flips(compare: (string, string) -> int, a: string, b: string) {
    compare(a, b) < 0 <==> compare(b, a) > 0
  }

  predicate Upto(compare: (string, string) -> int, a: string, b: string) { compare(a, b) <= 0 }

  /** What a comparison of strings has to satisfy: its sign flips with its arguments and is transitive. */
  ghost predicate IsOrder(compare: (string, string) -> int) {
    && (forall a, b :: Flips(compare, a, b))
    && (forall a, b, c :: Upto(compare, a, b) && Upto(compare, b, c) ==> Upto(compare, a, c))
  }

  function Compared(compare: (string, string) -> int, p: Package, q: Package): int {
    if compare(p.name, q.name) != 0 then compare(p.name, q.name) else compare(p.version, q.version)
  }

  lemma Flipped(compare: (string, string) -> int, a: string, b: string)
    requires IsOrder(compare)
    ensures compare(a, b) < 0 <==> compare(b, a) > 0
    ensures compare(a, b) == 0 <==> compare(b, a) == 0
  {
    assert Flips(compare, a, b) && Flips(compare, b, a);
  }

  lemma ComparedFlips(compare: (string, string) -> int, p: Package, q: Package)
    requires IsOrder(compare)
    ensures Compared(compare, p, q) < 0 <==> Compared(compare, q, p) > 0
    ensures Compared(compare, p, q) == 0 <==> Compared(compare, q, p) == 0
  {
    Flipped(compare, p.name, q.name);
    Flipped(compare, p.version, q.version);
  }

  /** Where the outer strings compare equal, so does one between them. */
  lemma Between(compare: (string, string) -> int, a: string, b: string, c: string)
    requires IsOrder(compare) && compare(a, b) <= 0 && compare(b, c) <= 0
    ensures compare(a, c) <= 0
    ensures compare(a, c) == 0 ==> compare(a, b) == 0 && compare(b, c) == 0
  {
    assert Upto(compare, a, b) && Upto(compare, b, c);
    assert Upto(compare, a, c);
    if compare(a, c) == 0 {
      Flipped(compare, a, c);
      assert Upto(compare, c, a);
      assert Upto(compare, b, a) && Upto(compare, c, b);
      Flipped(compare, a, b);
      Flipped(compare, b, c);
    }
  }

  lemma ComparedTrans(compare: (string, string) -> int, p: Package, q: Package, r: Package)
    requires IsOrder(compare) && Compared(compare, p, q) <= 0 && Compared(compare, q, r) <= 0
    ensures Compared(compare, p, r) <= 0
  {
    Between(compare, p.name, q.name, r.name);
    if compare(p.name, r.name) == 0 {
      Between(compare, p.version, q.version, r.version);
    }
  }

  predicate IsSorted(compare: (string, string) -> int, s: seq<Package>) {
    forall i, j :: 0 <= i < j < |s| ==> Compared(compare, s[i], s[j]) <= 0
  }

  /** `p` behind everything that does not come after it. */
  function Insert(compare: (string, string) -> int, s: seq<Package>, p: Package): seq<Package> {
    if s == [] then [p]
    else if Compared(compare, s[|s| - 1], p) <= 0 then s + [p]
    else Insert(compare, s[..|s| - 1], p) + [s[|s| - 1]]
  }

  function Sorted(compare: (string, string) -> int, s: seq<Package>): seq<Package> {
    if s == [] then [] else Insert(compare, Sorted(compare, s[..|s| - 1]), s[|s| - 1])
  }

  /** The packages that compare equal to `p`, in order. */
  function Peers(compare: (string, string) -> int, s: seq<Package>, p: Package): seq<Package> {
    if s == [] then []
    else
      var last := s[|s| - 1];
      Peers(compare, s[..|s| - 1], p) + (if Compared(compare, last, p) == 0 then [last] else [])
  }

  lemma PeersSnoc(compare: (string, string) -> int, s: seq<Package>, x: Package, p: Package)
    ensures Peers(compare, s + [x], p) == Peers(compare, s, p) + Peer(compare, x, p)
  {
    assert (s + [x])[..|s|] == s;
  }

  lemma {:induction false} InsertIs(compare: (string, string) -> int, s: seq<Package>, p: Package)
    ensures multiset(Insert(compare, s, p)) == multiset(s) + multiset{p}
    decreases |s|
  {
    if s == [] {
    } else {
      var n := |s| - 1;
      assert s == s[..n] + [s[n]];
      InsertIs(compare, s[..n], p);
    }
  }

  lemma MemberOf(compare: (string, string) -> int, s: seq<Package>, p: Package, q: Package)
    ensures q in Insert(compare, s, p) <==> q in s || q == p
  {
    InsertIs(compare, s, p);
    assert q in Insert(compare, s, p) <==> q in multiset(Insert(compare, s, p));
    assert q in s <==> q in multiset(s);
  }

  lemma {:induction false} InsertSorted(compare: (string, string) -> int, s: seq<Package>, p: Package)
    requires IsOrder(compare) && IsSorted(compare, s)
    ensures IsSorted(compare, Insert(compare, s, p))
    decreases |s|
  {
    if s == [] {
    } else {
      var n := |s| - 1;
      var last := s[n];
      if Compared(compare, last, p) <= 0 {
        forall i | 0 <= i < |s| ensures Compared(compare, s[i], p) <= 0 {
          if i < n {
            ComparedTrans(compare, s[i], last, p);
          }
        }
      } else {
        var front := Insert(compare, s[..n], p);
        InsertSorted(compare, s[..n], p);
        ComparedFlips(compare, last, p);
        forall i | 0 <= i < |front| ensures Compared(compare, front[i], last) <= 0 {
          MemberOf(compare, s[..n], p, front[i]);
        }
      }
    }
  }

  function Peer(compare: (string, string) -> int, x: Package, q: Package): seq<Package> {
    if Compared(compare, x, q) == 0 then [x] else []
  }

  lemma {:induction false} InsertPeers(compare: (string, string) -> int, s: seq<Package>, p: Package, q: Package)
    requires IsOrder(compare)
    ensures Peers(compare, Insert(compare, s, p), q) == Peers(compare, s, q) + Peer(compare, p, q)
    decreases |s|
  {
    if s == [] {
      PeersSnoc(compare, [], p, q);
      assert [] + [p] == [p];
    } else if Compared(compare, s[|s| - 1], p) <= 0 {
      PeersSnoc(compare, s, p, q);
    } else {
      var n := |s| - 1;
      var front, last := s[..n], s[n];
      InsertPeers(compare, front, p, q);
      PeersSnoc(compare, Insert(compare, front, p), last, q);
      PeersPast(compare, front, last, p, q);
      assert front + [last] == s;
    }
  }

  lemma PeersPast(compare: (string, string) -> int, front: seq<Package>, last: Package, p: Package, q: Package)
    requires IsOrder(compare) && Compared(compare, last, p) > 0
    ensures Peers(compare, front, q) + Peer(compare, p, q) + Peer(compare, last, q)
         == Peers(compare, front + [last], q) + Peer(compare, p, q)
  {
    PeersSnoc(compare, front, last, q);
    NotBothPeers(compare, last, p, q);
  }

  lemma NotBothPeers(compare: (string, string) -> int, x: Package, y: Package, q: Package)
    requires IsOrder(compare) && Compared(compare, x, y) > 0
    ensures !(Compared(compare, x, q) == 0 && Compared(compare, y, q) == 0)
  {
    if Compared(compare, x, q) == 0 && Compared(compare, y, q) == 0 {
      ComparedFlips(compare, y, q);
      ComparedTrans(compare, x, q, y);
    }
  }

  lemma {:induction false} SortedInOrder(compare: (string, string) -> int, s: seq<Package>)
    requires IsOrder(compare)
    ensures IsSorted(compare, Sorted(compare, s))
    decreases |s|
  {
    if s == [] {
    } else {
      var n := |s| - 1;
      SortedInOrder(compare, s[..n]);
      InsertSorted(compare, Sorted(compare, s[..n]), s[n]);
    }
  }

  lemma {:induction false} SortedSame(compare: (string, string) -> int, s: seq<Package>)
    ensures multiset(Sorted(compare, s)) == multiset(s)
    decreases |s|
  {
    if s == [] {
    } else {
      var n := |s| - 1;
      SortedSame(compare, s[..n]);
      InsertIs(compare, Sorted(compare, s[..n]), s[n]);
      assert s == s[..n] + [s[n]];
    }
  }

  lemma {:induction false} SortedPeers(compare: (string, string) -> int, s: seq<Package>, q: Package)
    requires IsOrder(compare)
    ensures Peers(compare, Sorted(compare, s), q) == Peers(compare, s, q)
    decreases |s|
  {
    if s == [] {
    } else {
      var n := |s| - 1;
      SortedPeers(compare, s[..n], q);
      InsertPeers(compare, Sorted(compare, s[..n]), s[n], q);
      PeersSnoc(compare, s[..n], s[n], q);
      assert s == s[..n] + [s[n]];
    }
  }

  /** A stable sort: in order, the same packages, and those that compare equal as they came. */
  lemma SortedIs(compare: (string, string) -> int, s: seq<Package>, q: Package)
    requires IsOrder(compare)
    ensures IsSorted(compare, Sorted(compare, s))
    ensures multiset(Sorted(compare, s)) == multiset(s)
    ensures Peers(compare, Sorted(compare, s), q) == Peers(compare, s, q)
  {
    SortedInOrder(compare, s);
    SortedSame(compare, s);
    SortedPeers(compare, s, q);
  }

  /** Sorted packages go by name, and by version under one name. */
  lemma SortedByName(compare: (string, string) -> int, s: seq<Package>, i: nat, j: nat)
    requires IsOrder(compare) && i < j < |Sorted(compare, s)|
    ensures var p, q := Sorted(compare, s)[i], Sorted(compare, s)[j];
      compare(p.name, q.name) < 0 || (compare(p.name, q.name) == 0 && compare(p.version, q.version) <= 0)
  {
    SortedInOrder(compare, s);
  }
}
