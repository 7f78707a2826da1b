/** The dependency audit (scripts/audit-c-surface.ts): which native packages the roots reach, by which routes, and
    the verdict drawn from that. */
module DependencyAudit {
  import opened Wrappers
  import opened DependencyWalk
  import opened PackageOrder

  /** A resolved package. */
  datatype Node = Node(deps: seq<Dependency>, features: seq<string>)

  function Dependencies(nodes: map<Id, Node>): map<Id, seq<Dependency>> {
    map id | id in nodes :: nodes[id].deps
  }

  function FeaturesOf(nodes: map<Id, Node>, id: Id): seq<string> {
    if id in nodes then nodes[id].features else []
  }

  const FORBIDDEN: set<string> := {"openssl-sys", "openssl-src", "native-tls", "dav1d-sys", "libsqlite3-sys"}

  /** The package list as a map; of two entries with one id the later wins. */
  function NamesOf(packages: seq<Package>): (names: map<Id, string>)
    ensures forall i :: 0 <= i < |packages| ==> packages[i].id in names
  {
    if packages == [] then map[]
    else
      var last := packages[|packages| - 1];
      NamesOf(packages[..|packages| - 1])[last.id := last.name]
  }

  function Matching(packages: seq<Package>, name: string): (found: seq<Package>)
    ensures forall p :: p in found <==> p in packages && p.name == name
    ensures |found| <= |packages|
  {
    if packages == [] then []
    else (if packages[0].name == name then [packages[0]] else []) + Matching(packages[1..], name)
  }

  // Where walks start.

  datatype Start = Start(name: string, id: Id)

  /** Each root name stands for exactly one listed package. */
  predicate RootsResolve(packages: seq<Package>, names: seq<string>) {
    forall i :: 0 <= i < |names| ==> |Matching(packages, names[i])| == 1
  }

  function Roots(packages: seq<Package>, names: seq<string>): (roots: seq<Start>)
    requires RootsResolve(packages, names)
    ensures |roots| == |names|
  {
    seq(|names|, i requires 0 <= i < |names| => Start(names[i], Matching(packages, names[i])[0].id))
  }

  /** The workspace members that are listed and resolved. */
  function Members(g: Graph, members: seq<Id>): (starts: seq<Start>)
    ensures forall s :: s in starts ==> s.id in g.names
  {
    if members == [] then []
    else
      var m := members[|members| - 1];
      Members(g, members[..|members| - 1]) + (if m in g.names && m in g.nodes then [Start(g.names[m], m)] else [])
  }

  ghost predicate AllClosed(g: Graph, includeBuild: bool, starts: seq<Start>) {
    forall i :: 0 <= i < |starts| ==> Closed(g, includeBuild, starts[i].id)
  }

  method ResolveRoots(packages: seq<Package>, names: seq<string>) returns (result: Result<seq<Start>, string>)
    ensures result.Ok? <==> RootsResolve(packages, names)
    ensures result.Ok? ==> result.value == Roots(packages, names)
    ensures result.Ok? ==> forall s :: s in result.value ==> s.id in NamesOf(packages)
  {
    var roots: seq<Start> := [];
    for i := 0 to |names|
      invariant |roots| == i && RootsResolve(packages, names[..i])
      invariant forall j :: 0 <= j < i ==> roots[j] == Start(names[j], Matching(packages, names[..i][j])[0].id)
      invariant forall s :: s in roots ==> s.id in NamesOf(packages)
    {
      var found := Matching(packages, names[i]);
      if |found| != 1 {
        return Err("root matched no package or several");
      }
      assert found[0] in packages;
      roots := roots + [Start(names[i], found[0].id)];
      assert names[..i + 1] == names[..i] + [names[i]];
    }
    assert names[..|names|] == names;
    return Ok(roots);
  }

  method ResolveMembers(g: Graph, members: seq<Id>) returns (starts: seq<Start>)
    ensures starts == Members(g, members)
  {
    starts := [];
    for i := 0 to |members|
      invariant starts == Members(g, members[..i])
    {
      assert members[..i + 1][..i] == members[..i];
      var m := members[i];
      if m in g.names && m in g.nodes {
        starts := starts + [Start(g.names[m], m)];
      }
    }
    assert members[..|members|] == members;
  }

  // Walks from several starts.

  /** `paths[i]` are the routes from `starts[i]`. */
  ghost predicate IsWalkAt(g: Graph, includeBuild: bool, starts: seq<Start>, paths: seq<Paths>, i: nat)
    requires i < |starts| == |paths|
  {
    IsWalk(g, includeBuild, starts[i].id, paths[i])
  }

  ghost predicate AreWalks(g: Graph, includeBuild: bool, starts: seq<Start>, paths: seq<Paths>) {
    |paths| == |starts| && forall i :: 0 <= i < |starts| ==> IsWalkAt(g, includeBuild, starts, paths, i)
  }

  method WalkAll(g: Graph, includeBuild: bool, starts: seq<Start>) returns (result: Result<seq<Paths>, string>)
    requires forall s :: s in starts ==> s.id in g.names
    ensures result.Ok? <==> AllClosed(g, includeBuild, starts)
    ensures result.Ok? ==> AreWalks(g, includeBuild, starts, result.value)
  {
    var paths: seq<Paths> := [];
    for i := 0 to |starts|
      invariant |paths| == i
      invariant forall j :: 0 <= j < i ==> Closed(g, includeBuild, starts[j].id)
      invariant forall j :: 0 <= j < i ==> IsWalk(g, includeBuild, starts[j].id, paths[j])
    {
      assert starts[i] in starts;
      var walked := Walk(g, starts[i].id, includeBuild);
      if walked.Err? {
        return Err(walked.error);
      }
      paths := paths + [walked.value];
    }
    return Ok(paths);
  }

  /** A route over normal edges is a route over normal and build edges. */
  lemma RuntimeIsBuild(g: Graph, start: Id, v: Id)
    requires Reachable(g, false, start, v)
    ensures Reachable(g, true, start, v)
  {
    var route :| IsRoute(g, false, start, route, v);
    forall i | 0 <= i < |route| - 1 ensures Edge(g, true, route[i], route[i + 1]) {
      assert Edge(g, false, route[i], route[i + 1]);
    }
    assert IsRoute(g, true, start, route, v);
  }

  lemma ClosedForRuntime(g: Graph, starts: seq<Start>)
    requires AllClosed(g, true, starts)
    ensures AllClosed(g, false, starts)
  {
    forall i | 0 <= i < |starts| ensures Closed(g, false, starts[i].id) {
      assert Closed(g, true, starts[i].id);
      forall v | Reachable(g, false, starts[i].id, v) ensures v in g.nodes && v in g.names {
        RuntimeIsBuild(g, starts[i].id, v);
      }
    }
  }

  // Routes to one package.

  datatype Reach = Reach(root: string, route: seq<string>)

  /** `e` prints a route of minimum length from `s` to `id`. */
  ghost predicate IsReach(g: Graph, includeBuild: bool, s: Start, id: Id, e: Reach) {
    && e.root == s.name
    && (exists route :: IsRoute(g, includeBuild, s.id, route, id) && e.route == Names(g, route))
    && (forall route :: IsRoute(g, includeBuild, s.id, route, id) ==> |e.route| <= |route|)
  }

  /** One entry for each start that reaches the package, in the order of the starts, with a shortest route. */
  ghost predicate Covers(g: Graph, includeBuild: bool, starts: seq<Start>, id: Id, entries: seq<Reach>)
    decreases |starts|
  {
    if starts == [] then entries == []
    else
      var n := |starts| - 1;
      if Reachable(g, includeBuild, starts[n].id, id) then
        && entries != [] && IsReach(g, includeBuild, starts[n], id, entries[|entries| - 1])
        && Covers(g, includeBuild, starts[..n], id, entries[..|entries| - 1])
      else Covers(g, includeBuild, starts[..n], id, entries)
  }

  lemma {:induction false} CoversNone(g: Graph, includeBuild: bool, starts: seq<Start>, id: Id, entries: seq<Reach>)
    requires Covers(g, includeBuild, starts, id, entries)
    ensures entries == [] <==> forall s :: s in starts ==> !Reachable(g, includeBuild, s.id, id)
    decreases |starts|
  {
    if starts == [] {
    } else {
      var n := |starts| - 1;
      assert starts == starts[..n] + [starts[n]];
      if Reachable(g, includeBuild, starts[n].id, id) {
        assert starts[n] in starts;
      } else {
        CoversNone(g, includeBuild, starts[..n], id, entries);
      }
    }
  }

  /** One more start, with its shortest route if it has any. */
  ghost predicate Finds(g: Graph, includeBuild: bool, s: Start, id: Id, found: Option<seq<string>>) {
    if found.Some? then IsReach(g, includeBuild, s, id, Reach(s.name, found.value))
    else !Reachable(g, includeBuild, s.id, id)
  }

  lemma WalkFinds(g: Graph, includeBuild: bool, starts: seq<Start>, paths: seq<Paths>, i: nat, id: Id)
    requires AreWalks(g, includeBuild, starts, paths) && i < |starts|
    ensures Finds(g, includeBuild, starts[i], id, if id in paths[i] then Some(paths[i][id]) else None)
  {
    assert IsWalkAt(g, includeBuild, starts, paths, i);
  }

  lemma CoversNext(
    g: Graph, includeBuild: bool, starts: seq<Start>, id: Id, entries: seq<Reach>, s: Start, found: Option<seq<string>>)
    requires Covers(g, includeBuild, starts, id, entries) && Finds(g, includeBuild, s, id, found)
    ensures Covers(g, includeBuild, starts + [s], id,
                   if found.Some? then entries + [Reach(s.name, found.value)] else entries)
  {
    var all := starts + [s];
    assert all[..|starts|] == starts;
    if found.Some? {
      var more := entries + [Reach(s.name, found.value)];
      assert more[..|entries|] == entries;
    }
  }

  method RoutesTo(g: Graph, includeBuild: bool, starts: seq<Start>, paths: seq<Paths>, id: Id)
    returns (entries: seq<Reach>)
    requires AreWalks(g, includeBuild, starts, paths)
    ensures Covers(g, includeBuild, starts, id, entries)
  {
    entries := [];
    for i := 0 to |starts|
      invariant Covers(g, includeBuild, starts[..i], id, entries)
    {
      var found := if id in paths[i] then Some(paths[i][id]) else None;
      WalkFinds(g, includeBuild, starts, paths, i, id);
      CoversNext(g, includeBuild, starts[..i], id, entries, starts[i], found);
      assert starts[..i + 1] == starts[..i] + [starts[i]];
      if id in paths[i] {
        entries := entries + [Reach(starts[i].name, paths[i][id])];
      }
    }
    assert starts[..|starts|] == starts;
  }

  // The report.

  datatype Item = Item(
    package: Package, features: seq<string>, runtime: seq<Reach>, build: seq<Reach>, consumers: seq<Reach>)

  datatype Report = Report(surface: seq<Item>, violations: seq<Item>, passed: bool)

  /** What the report lists. */
  predicate InSurface(p: Package) {
    (|p.name| >= 4 && p.name[|p.name| - 4..] == "-sys") || p.links || p.name in FORBIDDEN
  }

  function Surfaced(packages: seq<Package>): seq<Package> {
    if packages == [] then []
    else
      var last := packages[|packages| - 1];
      Surfaced(packages[..|packages| - 1]) + (if InSurface(last) then [last] else [])
  }

  ghost predicate IsItem(g: Graph, roots: seq<Start>, members: seq<Start>, it: Item) {
    && Covers(g, false, roots, it.package.id, it.runtime)
    && Covers(g, true, roots, it.package.id, it.build)
    && Covers(g, true, members, it.package.id, it.consumers)
  }

  /** The items describe the packages `some`, one for one and in order. */
  ghost predicate Describes(
    g: Graph, nodes: map<Id, Node>, roots: seq<Start>, members: seq<Start>, some: seq<Package>, items: seq<Item>)
  {
    && |items| == |some|
    && forall i :: 0 <= i < |items| ==>
         && items[i].package == some[i] && items[i].features == FeaturesOf(nodes, some[i].id)
         && IsItem(g, roots, members, items[i])
  }

  /** A forbidden package that some root reaches over normal or build edges. */
  ghost predicate Violates(g: Graph, roots: seq<Start>, p: Package) {
    p.name in FORBIDDEN && exists s :: s in roots && Reachable(g, true, s.id, p.id)
  }

  ghost predicate IsReport(
    g: Graph, compare: (string, string) -> int, packages: seq<Package>, nodes: map<Id, Node>, roots: seq<Start>,
    members: seq<Start>, r: Report)
  {
    && Describes(g, nodes, roots, members, Sorted(compare, Surfaced(packages)), r.surface)
    && (forall it :: it in r.violations <==> it in r.surface && Violates(g, roots, it.package))
    && (r.passed <==> forall p :: p in packages ==> !Violates(g, roots, p))
  }

  lemma ItemViolates(g: Graph, roots: seq<Start>, members: seq<Start>, it: Item)
    requires IsItem(g, roots, members, it)
    ensures it.package.name in FORBIDDEN && (it.runtime != [] || it.build != []) <==> Violates(g, roots, it.package)
  {
    var id := it.package.id;
    CoversNone(g, false, roots, id, it.runtime);
    CoversNone(g, true, roots, id, it.build);
    forall s | s in roots && Reachable(g, false, s.id, id) ensures Reachable(g, true, s.id, id) {
      RuntimeIsBuild(g, s.id, id);
    }
  }

  lemma {:induction false} SurfacedIs(packages: seq<Package>, p: Package)
    ensures p in Surfaced(packages) <==> p in packages && InSurface(p)
    decreases |packages|
  {
    if packages == [] {
    } else {
      var n := |packages| - 1;
      SurfacedIs(packages[..n], p);
      assert packages == packages[..n] + [packages[n]];
    }
  }

  method Describe(
    g: Graph, nodes: map<Id, Node>, roots: seq<Start>, runtime: seq<Paths>, build: seq<Paths>, members: seq<Start>,
    consumers: seq<Paths>, p: Package)
    returns (it: Item)
    requires AreWalks(g, false, roots, runtime) && AreWalks(g, true, roots, build)
    requires AreWalks(g, true, members, consumers)
    ensures it.package == p && it.features == FeaturesOf(nodes, p.id) && IsItem(g, roots, members, it)
  {
    var r := RoutesTo(g, false, roots, runtime, p.id);
    var b := RoutesTo(g, true, roots, build, p.id);
    var c := RoutesTo(g, true, members, consumers, p.id);
    it := Item(p, FeaturesOf(nodes, p.id), r, b, c);
  }

  /** One item for each package listed. */
  method Surface(
    g: Graph, nodes: map<Id, Node>, listed: seq<Package>, roots: seq<Start>, runtime: seq<Paths>, build: seq<Paths>,
    members: seq<Start>, consumers: seq<Paths>)
    returns (items: seq<Item>)
    requires AreWalks(g, false, roots, runtime) && AreWalks(g, true, roots, build)
    requires listed != [] ==> AreWalks(g, true, members, consumers)
    ensures Describes(g, nodes, roots, members, listed, items)
  {
    items := [];
    for i := 0 to |listed|
      invariant Describes(g, nodes, roots, members, listed[..i], items)
    {
      var it := Describe(g, nodes, roots, runtime, build, members, consumers, listed[i]);
      items := items + [it];
      assert listed[..i + 1] == listed[..i] + [listed[i]];
    }
    assert listed[..|listed|] == listed;
  }

  /** The filter before the sort. */
  method ListSurface(packages: seq<Package>) returns (listed: seq<Package>)
    ensures listed == Surfaced(packages)
  {
    listed := [];
    for i := 0 to |packages|
      invariant listed == Surfaced(packages[..i])
    {
      assert packages[..i + 1][..i] == packages[..i];
      if InSurface(packages[i]) {
        listed := listed + [packages[i]];
      }
    }
    assert packages[..|packages|] == packages;
  }

  method Violations(
    g: Graph, nodes: map<Id, Node>, roots: seq<Start>, members: seq<Start>, some: seq<Package>, items: seq<Item>)
    returns (violations: seq<Item>)
    requires Describes(g, nodes, roots, members, some, items)
    ensures forall it :: it in violations <==> it in items && Violates(g, roots, it.package)
  {
    violations := [];
    for i := 0 to |items|
      invariant forall it :: it in violations <==> it in items[..i] && Violates(g, roots, it.package)
    {
      var it := items[i];
      ItemViolates(g, roots, members, it);
      assert items[..i + 1] == items[..i] + [it];
      if it.package.name in FORBIDDEN && (it.runtime != [] || it.build != []) {
        violations := violations + [it];
      }
    }
    assert items[..|items|] == items;
  }

  /** Sorting lists exactly the native packages. */
  lemma ListedIs(compare: (string, string) -> int, packages: seq<Package>, p: Package)
    ensures p in Sorted(compare, Surfaced(packages)) <==> p in packages && InSurface(p)
  {
    var listed := Surfaced(packages);
    SortedSame(compare, listed);
    SurfacedIs(packages, p);
    assert p in Sorted(compare, listed) <==> p in multiset(Sorted(compare, listed));
    assert p in listed <==> p in multiset(listed);
  }

  lemma PassedIs(
    g: Graph, compare: (string, string) -> int, packages: seq<Package>, nodes: map<Id, Node>, roots: seq<Start>,
    members: seq<Start>, surface: seq<Item>, violations: seq<Item>)
    requires Describes(g, nodes, roots, members, Sorted(compare, Surfaced(packages)), surface)
    requires forall it :: it in violations <==> it in surface && Violates(g, roots, it.package)
    ensures violations == [] <==> forall p :: p in packages ==> !Violates(g, roots, p)
  {
    var listed := Sorted(compare, Surfaced(packages));
    if violations != [] {
      var it := violations[0];
      assert it in violations;
      var i :| 0 <= i < |surface| && surface[i] == it;
      ListedIs(compare, packages, listed[i]);
      assert it.package in packages;
    }
    forall p | p in packages && Violates(g, roots, p) ensures violations != [] {
      ListedIs(compare, packages, p);
      var i :| 0 <= i < |surface| && listed[i] == p;
      assert surface[i] in violations;
    }
  }

  /** When the audit throws nothing: full metadata, roots that resolve, and a closed graph from every root and, if
      there is anything to list, from every resolved workspace member. */
  ghost predicate Auditable(
    version: int, packages: seq<Package>, nodes: Option<map<Id, Node>>, members: seq<Id>, names: seq<string>)
  {
    && version == 1 && nodes.Some? && names != [] && RootsResolve(packages, names)
    && var g := Graph(NamesOf(packages), Dependencies(nodes.value));
    && AllClosed(g, true, Roots(packages, names))
    && (Surfaced(packages) != [] ==> AllClosed(g, true, Members(g, members)))
  }

  method WalkRoots(g: Graph, roots: seq<Start>) returns (ok: bool, runtime: seq<Paths>, build: seq<Paths>)
    requires forall s :: s in roots ==> s.id in g.names
    ensures ok <==> AllClosed(g, true, roots)
    ensures ok ==> AreWalks(g, false, roots, runtime) && AreWalks(g, true, roots, build)
  {
    var first := WalkAll(g, false, roots);
    var second := WalkAll(g, true, roots);
    if second.Ok? {
      ClosedForRuntime(g, roots);
    }
    if first.Err? || second.Err? {
      return false, [], [];
    }
    return true, first.value, second.value;
  }

  method WalkMembers(g: Graph, members: seq<Start>, needed: bool) returns (ok: bool, consumers: seq<Paths>)
    requires forall s :: s in members ==> s.id in g.names
    ensures ok <==> (needed ==> AllClosed(g, true, members))
    ensures ok && needed ==> AreWalks(g, true, members, consumers)
  {
    if !needed {
      return true, [];
    }
    var walked := WalkAll(g, true, members);
    if walked.Err? {
      return false, [];
    }
    return true, walked.value;
  }

  /** The audit: an error exactly when the metadata will not do; otherwise the native packages by name and version
      with all shortest routes to them, the violations among them, and a pass exactly when no forbidden package is
      reachable from a root over normal and build edges. */
  method Audit(
    compare: (string, string) -> int, version: int, packages: seq<Package>, nodes: Option<map<Id, Node>>,
    members: seq<Id>, names: seq<string>)
    returns (result: Result<Report, string>)
    ensures result.Ok? <==> Auditable(version, packages, nodes, members, names)
    ensures result.Ok? ==>
      var g := Graph(NamesOf(packages), Dependencies(nodes.value));
      IsReport(g, compare, packages, nodes.value, Roots(packages, names), Members(g, members), result.value)
  {
    if version != 1 || nodes.None? || names == [] {
      return Err("full metadata is required");
    }
    var g := Graph(NamesOf(packages), Dependencies(nodes.value));
    var resolved := ResolveRoots(packages, names);
    if resolved.Err? {
      return Err(resolved.error);
    }
    var roots := resolved.value;
    var workspace := ResolveMembers(g, members);
    var closed, runtime, build := WalkRoots(g, roots);
    if !closed {
      return Err("package graph is not closed");
    }
    var native := ListSurface(packages);
    var consumers;
    closed, consumers := WalkMembers(g, workspace, native != []);
    if !closed {
      return Err("package graph is not closed");
    }
    var listed := Sorted(compare, native);
    SortedSame(compare, native);
    assert native == [] ==> listed == [];
    var surface := Surface(g, nodes.value, listed, roots, runtime, build, workspace, consumers);
    var violations := Violations(g, nodes.value, roots, workspace, listed, surface);
    PassedIs(g, compare, packages, nodes.value, roots, workspace, surface, violations);
    result := Ok(Report(surface, violations, violations == []));
  }

  /** A name that the list holds once under it is that package's. */
  lemma {:induction false} NamesAre(packages: seq<Package>, i: nat)
    requires i < |packages| && forall j :: i < j < |packages| ==> packages[j].id != packages[i].id
    ensures NamesOf(packages)[packages[i].id] == packages[i].name
    decreases |packages|
  {
    var n := |packages| - 1;
    if i == n {
    } else {
      assert packages[..n][i] == packages[i];
      NamesAre(packages[..n], i);
      assert packages[n].id != packages[i].id;
    }
  }

  /** Exactly the members that are listed and resolved are walked, under their names. */
  lemma {:induction false} MembersAre(g: Graph, members: seq<Id>, s: Start)
    ensures s in Members(g, members) <==>
      s.id in members && s.id in g.names && s.id in g.nodes && s.name == g.names[s.id]
    decreases |members|
  {
    if members == [] {
    } else {
      var n := |members| - 1;
      MembersAre(g, members[..n], s);
      assert members == members[..n] + [members[n]];
    }
  }

  /** Listed are the packages whose name ends in "-sys", those that link a library, and the five forbidden ones. */
  lemma SurfaceIs(p: Package, prefix: string)
    ensures p.name == prefix + "-sys" ==> InSurface(p)
    ensures p.links ==> InSurface(p)
    ensures p.name in ["openssl-sys", "openssl-src", "native-tls", "dav1d-sys", "libsqlite3-sys"] ==>
      InSurface(p) && p.name in FORBIDDEN
    ensures InSurface(p) && !p.links && p.name !in FORBIDDEN ==> exists front :: p.name == front + "-sys"
  {
    if p.name == prefix + "-sys" {
      assert p.name[|p.name| - 4..] == "-sys";
    }
    if |p.name| >= 4 && p.name[|p.name| - 4..] == "-sys" {
      assert p.name == p.name[..|p.name| - 4] + "-sys";
    }
  }
}
