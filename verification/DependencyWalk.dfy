/** The walk of the dependency audit (scripts/audit-c-surface.ts): breadth first, keeping one route per package. */
module DependencyWalk {
  import opened Wrappers

  type Id = string

  datatype Kind = Normal | Build | Dev

  datatype Dependency = Dependency(pkg: Id, kinds: seq<Kind>)

  /** `names` is the package list by id, `nodes` the resolved dependencies by id. */
  datatype Graph = Graph(names: map<Id, string>, nodes: map<Id, seq<Dependency>>)

  predicate Admits(d: Dependency, includeBuild: bool) {
    exists i :: 0 <= i < |d.kinds| && (d.kinds[i].Normal? || (includeBuild && d.kinds[i].Build?))
  }

  predicate Edge(g: Graph, includeBuild: bool, u: Id, v: Id) {
    && u in g.nodes
    && exists k :: 0 <= k < |g.nodes[u]| && g.nodes[u][k].pkg == v && Admits(g.nodes[u][k], includeBuild)
  }

  /** A path of package ids from `start` to `v` along admitted edges. */
  ghost predicate IsRoute(g: Graph, includeBuild: bool, start: Id, route: seq<Id>, v: Id) {
    && route != [] && route[0] == start && route[|route| - 1] == v
    && forall i :: 0 <= i < |route| - 1 ==> Edge(g, includeBuild, route[i], route[i + 1])
  }

  ghost predicate Reachable(g: Graph, includeBuild: bool, start: Id, v: Id) {
    exists route :: IsRoute(g, includeBuild, start, route, v)
  }

  /** The route as the report prints it. */
  function Names(g: Graph, route: seq<Id>): seq<string> {
    seq(|route|, i requires 0 <= i < |route| => if route[i] in g.names then g.names[route[i]] else "")
  }

  /** Every reachable package is resolved and listed: what `cargo metadata` promises, and what the walk needs. */
  ghost predicate Closed(g: Graph, includeBuild: bool, start: Id) {
    forall v :: Reachable(g, includeBuild, start, v) ==> v in g.nodes && v in g.names
  }

  // The state of the walk.

  type Paths = map<Id, seq<string>>

  /** Every package found has a route, and its printed form is what `paths` keeps. */
  ghost predicate Sound(g: Graph, includeBuild: bool, start: Id, paths: Paths, routes: map<Id, seq<Id>>) {
    && routes.Keys == paths.Keys <= g.names.Keys && start in paths && |paths[start]| == 1
    && forall v :: v in paths ==>
         IsRoute(g, includeBuild, start, routes[v], v) && paths[v] == Names(g, routes[v]) && paths[v] != []
  }

  /** The queue holds exactly the packages found, in order of route length, and never spans more than two
      lengths from `index` on. */
  ghost predicate Queue(paths: Paths, pending: seq<Id>, index: nat) {
    && index < |pending|
    && (forall i :: 0 <= i < |pending| ==> pending[i] in paths)
    && (forall v :: v in paths ==> v in pending)
    && (forall i, j :: 0 <= i <= j < |pending| ==> |paths[pending[i]]| <= |paths[pending[j]]|)
    && |paths[pending[|pending| - 1]]| <= |paths[pending[index]]| + 1
  }

  /** The first `count` dependencies of `u` have been followed. */
  ghost predicate Followed(g: Graph, includeBuild: bool, paths: Paths, u: Id, count: nat) {
    && u in g.nodes && u in paths && count <= |g.nodes[u]|
    && forall k :: 0 <= k < count && Admits(g.nodes[u][k], includeBuild) ==>
         g.nodes[u][k].pkg in paths && |paths[g.nodes[u][k].pkg]| <= |paths[u]| + 1
  }

  ghost predicate Expanded(g: Graph, includeBuild: bool, paths: Paths, pending: seq<Id>, index: nat) {
    && index <= |pending|
    && forall i :: 0 <= i < index ==>
         pending[i] in g.nodes && Followed(g, includeBuild, paths, pending[i], |g.nodes[pending[i]]|)
  }

  /** `paths` has only grown. */
  predicate Extends(paths: Paths, more: Paths) {
    forall v :: v in paths ==> v in more && more[v] == paths[v]
  }

  lemma RouteExtends(g: Graph, includeBuild: bool, start: Id, route: seq<Id>, u: Id, v: Id)
    requires IsRoute(g, includeBuild, start, route, u) && Edge(g, includeBuild, u, v)
    ensures IsRoute(g, includeBuild, start, route + [v], v)
  {
  }

  lemma NamesExtends(g: Graph, route: seq<Id>, v: Id)
    requires v in g.names
    ensures Names(g, route + [v]) == Names(g, route) + [g.names[v]]
  {
  }

  /** A newly found package goes to the end of the queue with its parent's route and its own name. */
  lemma Found(
    g: Graph, includeBuild: bool, start: Id, paths: Paths, routes: map<Id, seq<Id>>, pending: seq<Id>, index: nat,
    v: Id)
    requires Sound(g, includeBuild, start, paths, routes) && Queue(paths, pending, index)
    requires v in g.names && v !in paths && Edge(g, includeBuild, pending[index], v)
    ensures var u := pending[index];
      && Sound(g, includeBuild, start, paths[v := paths[u] + [g.names[v]]], routes[v := routes[u] + [v]])
      && Queue(paths[v := paths[u] + [g.names[v]]], pending + [v], index)
  {
    var u := pending[index];
    FoundSound(g, includeBuild, start, paths, routes, u, v);
    FoundQueue(paths, pending, index, v, g.names[v]);
  }

  lemma FoundSound(
    g: Graph, includeBuild: bool, start: Id, paths: Paths, routes: map<Id, seq<Id>>, u: Id, v: Id)
    requires Sound(g, includeBuild, start, paths, routes) && u in paths
    requires v in g.names && v !in paths && Edge(g, includeBuild, u, v)
    ensures Sound(g, includeBuild, start, paths[v := paths[u] + [g.names[v]]], routes[v := routes[u] + [v]])
  {
    var paths', routes' := paths[v := paths[u] + [g.names[v]]], routes[v := routes[u] + [v]];
    assert IsRoute(g, includeBuild, start, routes'[v], v) by {
      RouteExtends(g, includeBuild, start, routes[u], u, v);
    }
    assert paths'[v] == Names(g, routes'[v]) by {
      NamesExtends(g, routes[u], v);
    }
    assert paths'.Keys == paths.Keys + {v} && routes'.Keys == routes.Keys + {v};
  }

  lemma FoundQueue(paths: Paths, pending: seq<Id>, index: nat, v: Id, name: string)
    requires Queue(paths, pending, index) && v !in paths
    ensures Queue(paths[v := paths[pending[index]] + [name]], pending + [v], index)
  {
    var paths' := paths[v := paths[pending[index]] + [name]];
    forall i, j | 0 <= i <= j < |pending + [v]|
      ensures |paths'[(pending + [v])[i]]| <= |paths'[(pending + [v])[j]]|
    {
      assert i < |pending| ==> |paths[pending[i]]| <= |paths[pending[|pending| - 1]]|;
    }
  }

  lemma ExpandedKept(g: Graph, includeBuild: bool, paths: Paths, more: Paths, pending: seq<Id>, index: nat, v: Id)
    requires Expanded(g, includeBuild, paths, pending, index) && Extends(paths, more)
    ensures Expanded(g, includeBuild, more, pending + [v], index)
  {
  }

  /** Invariant of the outer loop, before `pending[index]` is looked at. */
  ghost predicate Outer(
    g: Graph, includeBuild: bool, start: Id, paths: Paths, routes: map<Id, seq<Id>>, pending: seq<Id>, index: nat)
  {
    && Sound(g, includeBuild, start, paths, routes) && Expanded(g, includeBuild, paths, pending, index)
    && (index < |pending| ==> Queue(paths, pending, index))
    && (forall v :: v in paths ==> v in pending)
  }

  /** Invariant of the inner loop, before the `k`-th dependency of `pending[index]`. */
  ghost predicate Inner(
    g: Graph, includeBuild: bool, start: Id, paths: Paths, routes: map<Id, seq<Id>>, pending: seq<Id>, index: nat,
    k: nat)
  {
    && Sound(g, includeBuild, start, paths, routes) && Expanded(g, includeBuild, paths, pending, index)
    && Queue(paths, pending, index) && Followed(g, includeBuild, paths, pending[index], k)
  }

  lemma InnerKnown(
    g: Graph, includeBuild: bool, start: Id, paths: Paths, routes: map<Id, seq<Id>>, pending: seq<Id>, index: nat,
    k: nat)
    requires Inner(g, includeBuild, start, paths, routes, pending, index, k) && k < |g.nodes[pending[index]]|
    requires Admits(g.nodes[pending[index]][k], includeBuild) ==> g.nodes[pending[index]][k].pkg in paths
    ensures Inner(g, includeBuild, start, paths, routes, pending, index, k + 1)
  {
    var d := g.nodes[pending[index]][k];
    if Admits(d, includeBuild) {
      assert d.pkg in pending;
      assert |paths[d.pkg]| <= |paths[pending[|pending| - 1]]|;
    }
  }

  lemma FollowedNew(g: Graph, includeBuild: bool, paths: Paths, u: Id, k: nat, v: Id, more: Paths)
    requires Followed(g, includeBuild, paths, u, k) && k < |g.nodes[u]| && g.nodes[u][k].pkg == v
    requires Extends(paths, more) && v in more && |more[v]| <= |paths[u]| + 1
    ensures Followed(g, includeBuild, more, u, k + 1)
  {
  }

  lemma InnerNew(
    g: Graph, includeBuild: bool, start: Id, paths: Paths, routes: map<Id, seq<Id>>, pending: seq<Id>, index: nat,
    k: nat, v: Id)
    requires Inner(g, includeBuild, start, paths, routes, pending, index, k) && k < |g.nodes[pending[index]]|
    requires Admits(g.nodes[pending[index]][k], includeBuild) && g.nodes[pending[index]][k].pkg == v
    requires v in g.names && v !in paths
    ensures var u := pending[index];
      Inner(g, includeBuild, start, paths[v := paths[u] + [g.names[v]]], routes[v := routes[u] + [v]], pending + [v],
            index, k + 1)
  {
    var u := pending[index];
    assert Edge(g, includeBuild, u, v);
    Found(g, includeBuild, start, paths, routes, pending, index, v);
    var paths' := paths[v := paths[u] + [g.names[v]]];
    ExpandedKept(g, includeBuild, paths, paths', pending, index, v);
    FollowedNew(g, includeBuild, paths, u, k, v, paths');
    assert (pending + [v])[index] == u;
  }

  lemma InnerDone(
    g: Graph, includeBuild: bool, start: Id, paths: Paths, routes: map<Id, seq<Id>>, pending: seq<Id>, index: nat)
    requires index < |pending| && pending[index] in g.nodes
    requires Inner(g, includeBuild, start, paths, routes, pending, index, |g.nodes[pending[index]]|)
    ensures Outer(g, includeBuild, start, paths, routes, pending, index + 1)
  {
    if index + 1 < |pending| {
      assert |paths[pending[index]]| <= |paths[pending[index + 1]]|;
    }
  }

  lemma FoundSmaller(all: set<Id>, paths: Paths, v: Id, path: seq<string>)
    requires v in all && v !in paths
    ensures |all - paths[v := path].Keys| < |all - paths.Keys|
  {
    assert all - paths.Keys == (all - paths[v := path].Keys) + {v};
  }

  /** A package that the walk stumbles over is reachable, so the graph was not closed. */
  lemma Stumbled(
    g: Graph, includeBuild: bool, start: Id, paths: Paths, routes: map<Id, seq<Id>>, u: Id, v: Id)
    requires Sound(g, includeBuild, start, paths, routes) && u in paths
    requires u == v || Edge(g, includeBuild, u, v)
    ensures Reachable(g, includeBuild, start, v)
  {
    if u == v {
      assert IsRoute(g, includeBuild, start, routes[u], u);
    } else {
      RouteExtends(g, includeBuild, start, routes[u], u, v);
    }
  }

  /** With nothing left to expand, every route leads to a package found, by a route no longer than it. */
  lemma {:induction false} RoutesCovered(
    g: Graph, includeBuild: bool, start: Id, paths: Paths, routes: map<Id, seq<Id>>, pending: seq<Id>,
    route: seq<Id>, v: Id)
    requires Outer(g, includeBuild, start, paths, routes, pending, |pending|)
    requires IsRoute(g, includeBuild, start, route, v)
    ensures v in paths && v in g.nodes && |paths[v]| <= |route|
    decreases |route|
  {
    if |route| == 1 {
      FoundIsExpanded(g, includeBuild, start, paths, routes, pending, v);
    } else {
      var n := |route| - 1;
      var u := route[n - 1];
      assert IsRoute(g, includeBuild, start, route[..n], u);
      RoutesCovered(g, includeBuild, start, paths, routes, pending, route[..n], u);
      FoundIsExpanded(g, includeBuild, start, paths, routes, pending, u);
      assert Edge(g, includeBuild, route[n - 1], route[n - 1 + 1]);
      FoundIsExpanded(g, includeBuild, start, paths, routes, pending, v);
    }
  }

  lemma FoundIsExpanded(
    g: Graph, includeBuild: bool, start: Id, paths: Paths, routes: map<Id, seq<Id>>, pending: seq<Id>, u: Id)
    requires Outer(g, includeBuild, start, paths, routes, pending, |pending|) && u in paths
    ensures u in g.nodes && Followed(g, includeBuild, paths, u, |g.nodes[u]|)
  {
    var i :| 0 <= i < |pending| && pending[i] == u;
  }

  // The walk.

  /** What `walk` returns: a shortest route for each reachable package and nothing else. */
  ghost predicate IsWalk(g: Graph, includeBuild: bool, start: Id, paths: Paths) {
    && (forall v :: v in paths <==> Reachable(g, includeBuild, start, v))
    && (forall v :: v in paths ==>
          exists route :: IsRoute(g, includeBuild, start, route, v) && paths[v] == Names(g, route))
    && (forall v, route :: v in paths && IsRoute(g, includeBuild, start, route, v) ==> |paths[v]| <= |route|)
  }

  lemma WalkDone(
    g: Graph, includeBuild: bool, start: Id, paths: Paths, routes: map<Id, seq<Id>>, pending: seq<Id>)
    requires Outer(g, includeBuild, start, paths, routes, pending, |pending|)
    ensures IsWalk(g, includeBuild, start, paths) && Closed(g, includeBuild, start)
  {
    forall v, route | IsRoute(g, includeBuild, start, route, v)
      ensures v in paths && v in g.nodes && |paths[v]| <= |route|
    {
      RoutesCovered(g, includeBuild, start, paths, routes, pending, route, v);
    }
  }

  /** Nothing found yet, or fewer packages left to find. */
  predicate Grown(g: Graph, paths0: Paths, pending0: seq<Id>, paths: Paths, pending: seq<Id>) {
    (paths == paths0 && pending == pending0) || |g.names.Keys - paths.Keys| < |g.names.Keys - paths0.Keys|
  }

  /** The body of the inner loop: the `k`-th dependency of `pending[index]`. */
  method Follow(
    g: Graph, includeBuild: bool, start: Id, paths0: Paths, ghost routes0: map<Id, seq<Id>>, pending0: seq<Id>,
    index: nat, k: nat)
    returns (ok: bool, paths: Paths, ghost routes: map<Id, seq<Id>>, pending: seq<Id>)
    requires Inner(g, includeBuild, start, paths0, routes0, pending0, index, k) && k < |g.nodes[pending0[index]]|
    ensures ok ==> Inner(g, includeBuild, start, paths, routes, pending, index, k + 1)
    ensures index < |pending| && pending[index] == pending0[index]
    ensures !ok ==> !Closed(g, includeBuild, start)
    ensures Grown(g, paths0, pending0, paths, pending)
  {
    ok, paths, routes, pending := true, paths0, routes0, pending0;
    var u := pending[index];
    var dependency := g.nodes[u][k];
    if !Admits(dependency, includeBuild) || dependency.pkg in paths {
      InnerKnown(g, includeBuild, start, paths, routes, pending, index, k);
      return;
    }
    var v := dependency.pkg;
    if v !in g.names {
      assert Edge(g, includeBuild, u, v);
      Stumbled(g, includeBuild, start, paths, routes, u, v);
      ok := false;
      return;
    }
    InnerNew(g, includeBuild, start, paths, routes, pending, index, k, v);
    FoundSmaller(g.names.Keys, paths, v, paths[u] + [g.names[v]]);
    paths, routes, pending :=
      paths[v := paths[u] + [g.names[v]]], routes[v := routes[u] + [v]], pending + [v];
  }

  /** The inner loop: all dependencies of `pending[index]`. */
  method Expand(
    g: Graph, includeBuild: bool, start: Id, paths0: Paths, ghost routes0: map<Id, seq<Id>>, pending0: seq<Id>,
    index: nat)
    returns (ok: bool, paths: Paths, ghost routes: map<Id, seq<Id>>, pending: seq<Id>)
    requires index < |pending0| && pending0[index] in g.nodes
    requires Outer(g, includeBuild, start, paths0, routes0, pending0, index)
    ensures ok ==> Outer(g, includeBuild, start, paths, routes, pending, index + 1)
    ensures !ok ==> !Closed(g, includeBuild, start)
    ensures Grown(g, paths0, pending0, paths, pending)
  {
    ok, paths, routes, pending := true, paths0, routes0, pending0;
    var u := pending[index];
    var k := 0;
    while k < |g.nodes[u]|
      invariant 0 <= k <= |g.nodes[u]| && index < |pending| && pending[index] == u
      invariant Inner(g, includeBuild, start, paths, routes, pending, index, k)
      invariant Grown(g, paths0, pending0, paths, pending)
    {
      ok, paths, routes, pending := Follow(g, includeBuild, start, paths, routes, pending, index, k);
      if !ok {
        return;
      }
      k := k + 1;
    }
    InnerDone(g, includeBuild, start, paths, routes, pending, index);
  }

  lemma OuterStart(g: Graph, includeBuild: bool, start: Id)
    requires start in g.names
    ensures Outer(g, includeBuild, start, map[start := [g.names[start]]], map[start := [start]], [start], 0)
  {
    assert Names(g, [start]) == [g.names[start]];
  }

  /** `walk` succeeds exactly on a closed graph, and then finds exactly the reachable packages by shortest
      routes. */
  method Walk(g: Graph, start: Id, includeBuild: bool) returns (result: Result<Paths, string>)
    requires start in g.names
    ensures result.Ok? <==> Closed(g, includeBuild, start)
    ensures result.Ok? ==> IsWalk(g, includeBuild, start, result.value)
  {
    var paths: Paths := map[start := [g.names[start]]];
    ghost var routes: map<Id, seq<Id>> := map[start := [start]];
    var pending := [start];
    var index := 0;
    OuterStart(g, includeBuild, start);
    while index < |pending|
      invariant 0 <= index <= |pending|
      invariant Outer(g, includeBuild, start, paths, routes, pending, index)
      decreases |g.names.Keys - paths.Keys|, |pending| - index
    {
      var u := pending[index];
      if u !in g.nodes {
        Stumbled(g, includeBuild, start, paths, routes, u, u);
        return Err("missing resolved package");
      }
      var ok;
      ok, paths, routes, pending := Expand(g, includeBuild, start, paths, routes, pending, index);
      if !ok {
        return Err("unknown dependency");
      }
      index := index + 1;
    }
    WalkDone(g, includeBuild, start, paths, routes, pending);
    result := Ok(paths);
  }

  /** The report prints a route package by package, by name. */
  lemma NamesPrint(g: Graph, route: seq<Id>, i: nat)
    requires i < |route| && route[i] in g.names
    ensures |Names(g, route)| == |route| && Names(g, route)[i] == g.names[route[i]]
  {
  }

  /** A dependency counts when it is a normal one, or a build one where those are wanted. */
  lemma AdmitsNormal(d: Dependency, includeBuild: bool)
    ensures Admits(d, includeBuild) <==> Normal in d.kinds || (includeBuild && Build in d.kinds)
  {
  }
}
