/** The build graph traversal of the software bill of materials (scripts/release_package.py,
    make_sbom): one worklist computes two reachability relations. */
module SbomGraph {
  import opened Common

  type Id = string

  datatype Kind = Normal | Build | Dev | Unknown(name: string)

  datatype Dep = Dep(pkg: Id, kinds: seq<Kind>)

  datatype Package = Package(name: Bytes, version: Bytes, source: Option<string>)

  datatype Artifact = Artifact(kinds: set<string>)

  datatype Graph = Graph(root: Id, packages: map<Id, Package>, nodes: map<Id, seq<Dep>>, built: map<Id, Artifact>)

  datatype SbomError =
    | UnsupportedTarget | RootDiffers | IncompleteGraph | UnknownKind | BuildDiffers | Ambiguous | NoEvidence

  predicate Active(g: Graph, id: Id) {
    id in g.built && "proc-macro" !in g.built[id].kinds
  }

  // ----- The two relations, by paths -----

  predicate Links(g: Graph, x: Id, y: Id) {
    x in g.nodes && exists dep :: dep in g.nodes[x] && dep.pkg == y && exists kind :: kind in dep.kinds && kind != Dev
  }

  predicate LinksAtRuntime(g: Graph, x: Id, y: Id) {
    x in g.nodes && exists dep :: dep in g.nodes[x] && dep.pkg == y && Normal in dep.kinds
  }

  /** From the root to the last package of `p`, all built, by edges that are not dev edges. */
  predicate BuildPath(g: Graph, p: seq<Id>) {
    && p != [] && p[0] == g.root && (forall i :: 0 <= i < |p| ==> p[i] in g.built)
    && forall i :: 0 < i < |p| ==> Links(g, p[i - 1], p[i])
  }

  predicate RuntimePath(g: Graph, p: seq<Id>) {
    && p != [] && p[0] == g.root && (forall i :: 0 <= i < |p| ==> Active(g, p[i]))
    && forall i :: 0 < i < |p| ==> LinksAtRuntime(g, p[i - 1], p[i])
  }

  ghost predicate Reachable(g: Graph, x: Id) {
    exists p :: BuildPath(g, p) && p[|p| - 1] == x
  }

  ghost predicate RuntimeReachable(g: Graph, x: Id) {
    exists p :: RuntimePath(g, p) && p[|p| - 1] == x
  }

  /** Named by the root or by a reachable package, built or not. */
  ghost predicate Offered(g: Graph, x: Id) {
    x == g.root || exists y :: Reachable(g, y) && Links(g, y, x)
  }

  ghost predicate OfferedAtRuntime(g: Graph, x: Id) {
    x == g.root || exists y :: RuntimeReachable(g, y) && LinksAtRuntime(g, y, x)
  }

  lemma OfferedAndBuilt(g: Graph, x: Id)
    requires Offered(g, x) && x in g.built
    ensures Reachable(g, x)
  {
    if x == g.root {
      assert BuildPath(g, [x]);
    } else {
      var y :| Reachable(g, y) && Links(g, y, x);
      var p :| BuildPath(g, p) && p[|p| - 1] == y;
      assert BuildPath(g, p + [x]);
    }
  }

  lemma OfferedAndActive(g: Graph, x: Id)
    requires OfferedAtRuntime(g, x) && Active(g, x)
    ensures RuntimeReachable(g, x)
  {
    if x == g.root {
      assert RuntimePath(g, [x]);
    } else {
      var y :| RuntimeReachable(g, y) && LinksAtRuntime(g, y, x);
      var p :| RuntimePath(g, p) && p[|p| - 1] == y;
      assert RuntimePath(g, p + [x]);
    }
  }

  predicate Known(deps: seq<Dep>) {
    forall dep :: dep in deps ==> forall kind :: kind in dep.kinds ==> !kind.Unknown?
  }

  /** Every package the build names is described, with dependency kinds Cargo knows. */
  ghost predicate Complete(g: Graph) {
    && (forall x :: Offered(g, x) ==> x in g.nodes && x in g.packages)
    && (forall x :: Reachable(g, x) && x in g.nodes ==> Known(g.nodes[x]))
  }

  // ----- The worklist -----

  type Visit = (Id, bool)

  predicate Offers(deps: seq<Dep>, active: bool, v: Visit) {
    exists dep :: dep in deps && dep.pkg == v.0
                  && exists kind :: kind in dep.kinds && kind != Dev && v.1 == (active && kind == Normal)
  }

  predicate OffersOne(dep: Dep, kinds: seq<Kind>, active: bool, v: Visit) {
    dep.pkg == v.0 && exists kind :: kind in kinds && kind != Dev && v.1 == (active && kind == Normal)
  }

  method ExpandOne(dep: Dep, active: bool, pending: seq<Visit>) returns (ok: bool, after: seq<Visit>)
    ensures ok <==> forall kind :: kind in dep.kinds ==> !kind.Unknown?
    ensures ok ==> forall v :: v in after <==> v in pending || OffersOne(dep, dep.kinds, active, v)
  {
    after := pending;
    for i := 0 to |dep.kinds|
      invariant forall kind :: kind in dep.kinds[..i] ==> !kind.Unknown?
      invariant forall v :: v in after <==> v in pending || OffersOne(dep, dep.kinds[..i], active, v)
    {
      var kind := dep.kinds[i];
      OffersOneAppend(dep, i, active);
      if kind.Unknown? {
        return false, after;
      }
      if kind != Dev {
        after := after + [(dep.pkg, active && kind == Normal)];
      }
    }
    assert dep.kinds[..|dep.kinds|] == dep.kinds;
    return true, after;
  }

  lemma OffersOneAppend(dep: Dep, i: nat, active: bool)
    requires i < |dep.kinds|
    ensures forall kind :: kind in dep.kinds[..i + 1] <==> kind in dep.kinds[..i] || kind == dep.kinds[i]
    ensures forall v :: OffersOne(dep, dep.kinds[..i + 1], active, v)
                        <==> OffersOne(dep, dep.kinds[..i], active, v)
                             || (dep.kinds[i] != Dev && v == (dep.pkg, active && dep.kinds[i] == Normal))
  {
    var kinds, last := dep.kinds[..i], dep.kinds[i];
    assert dep.kinds[..i + 1] == kinds + [last];
    forall v ensures OffersOne(dep, kinds + [last], active, v)
                     <==> OffersOne(dep, kinds, active, v) || (last != Dev && v == (dep.pkg, active && last == Normal))
    {
      assert last in kinds + [last];
      assert forall kind :: kind in kinds ==> kind in kinds + [last];
    }
  }

  method Expand(deps: seq<Dep>, active: bool, pending: seq<Visit>) returns (ok: bool, after: seq<Visit>)
    ensures ok <==> Known(deps)
    ensures ok ==> forall v :: v in after <==> v in pending || Offers(deps, active, v)
  {
    after := pending;
    for i := 0 to |deps|
      invariant Known(deps[..i])
      invariant forall v :: v in after <==> v in pending || Offers(deps[..i], active, v)
    {
      var was := after;
      ok, after := ExpandOne(deps[i], active, was);
      if !ok {
        return;
      }
      OffersAppend(deps, i, active);
    }
    assert deps[..|deps|] == deps;
    ok := true;
  }

  lemma OffersAppend(deps: seq<Dep>, i: nat, active: bool)
    requires i < |deps|
    ensures forall v :: Offers(deps[..i + 1], active, v)
                        <==> Offers(deps[..i], active, v) || OffersOne(deps[i], deps[i].kinds, active, v)
    ensures Known(deps[..i + 1]) <==> Known(deps[..i]) && forall kind :: kind in deps[i].kinds ==> !kind.Unknown?
  {
    assert deps[..i + 1] == deps[..i] + [deps[i]];
  }

  /** Justified: a real path leads to the visit. */
  ghost predicate Sound(g: Graph, v: Visit) {
    Offered(g, v.0) && (v.1 ==> OfferedAtRuntime(g, v.0))
  }

  /** Everything a visited package offers has been seen. */
  ghost predicate Settled(g: Graph, v: Visit, visited: set<Visit>, pending: seq<Visit>) {
    && v.0 in g.nodes && v.0 in g.packages
    && (v.0 in g.built ==> Known(g.nodes[v.0]) && forall w :: Offers(g.nodes[v.0], v.1 && Active(g, v.0), w) ==>
          w in visited || w in pending)
  }

  ghost predicate Recorded(g: Graph, visited: set<Visit>, reached: set<Id>, runtime: set<Id>) {
    && (forall x :: x in reached <==> x in g.built && ((x, true) in visited || (x, false) in visited))
    && (forall x :: x in runtime <==> Active(g, x) && (x, true) in visited)
  }

  lemma OfferIsSound(g: Graph, v: Visit, w: Visit)
    requires Sound(g, v) && v.0 in g.built && v.0 in g.nodes && Offers(g.nodes[v.0], v.1 && Active(g, v.0), w)
    ensures Sound(g, w)
  {
    OfferedAndBuilt(g, v.0);
    assert Links(g, v.0, w.0);
    if w.1 {
      OfferedAndActive(g, v.0);
      assert LinksAtRuntime(g, v.0, w.0);
    }
  }

  /** What holds whenever the worklist is looked at. */
  ghost predicate Exploring(g: Graph, visited: set<Visit>, pending: seq<Visit>, reached: set<Id>, runtime: set<Id>) {
    && (forall v :: v in visited || v in pending ==> Sound(g, v))
    && (forall v :: v in visited ==> Settled(g, v, visited, pending))
    && Recorded(g, visited, reached, runtime)
    && ((g.root, true) in visited || (g.root, true) in pending)
  }

  lemma {:induction false} SettledStays(g: Graph, v: Visit, visited: set<Visit>, pending: seq<Visit>,
                                        visited': set<Visit>, pending': seq<Visit>)
    requires Settled(g, v, visited, pending)
    requires forall w :: w in visited || w in pending ==> w in visited' || w in pending'
    ensures Settled(g, v, visited', pending')
  {
  }

  lemma SkipKeeps(g: Graph, visited: set<Visit>, rest: seq<Visit>, v: Visit, reached: set<Id>, runtime: set<Id>)
    requires Exploring(g, visited, rest + [v], reached, runtime) && v in visited
    ensures Exploring(g, visited, rest, reached, runtime)
  {
    hide Settled, Sound, Recorded;
    forall u | u in visited ensures Settled(g, u, visited, rest) {
      SettledStays(g, u, visited, rest + [v], visited, rest);
    }
  }

  lemma RecordedGrows(g: Graph, visited: set<Visit>, v: Visit, reached: set<Id>, runtime: set<Id>)
    requires Recorded(g, visited, reached, runtime)
    ensures Recorded(g, visited + {v},
              if v.0 in g.built then reached + {v.0} else reached,
              if v.1 && Active(g, v.0) then runtime + {v.0} else runtime)
  {
  }

  lemma VisitKeeps(g: Graph, visited: set<Visit>, rest: seq<Visit>, v: Visit, pending: seq<Visit>, reached: set<Id>,
                   runtime: set<Id>)
    requires Exploring(g, visited, rest + [v], reached, runtime)
    requires v.0 in g.nodes && v.0 in g.packages && (v.0 in g.built ==> Known(g.nodes[v.0]))
    requires forall w :: w in pending <==>
               || w in rest
               || (v.0 in g.built && Offers(g.nodes[v.0], v.1 && Active(g, v.0), w))
    ensures Exploring(g, visited + {v}, pending,
              if v.0 in g.built then reached + {v.0} else reached,
              if v.1 && Active(g, v.0) then runtime + {v.0} else runtime)
  {
    hide Offers, Known, Sound, Recorded, Active;
    RecordedGrows(g, visited, v, reached, runtime);
    assert Sound(g, v);
    forall w | w in pending ensures Sound(g, w) {
      if w !in rest {
        OfferIsSound(g, v, w);
      }
    }
    forall u | u in visited + {v} ensures Settled(g, u, visited + {v}, pending) {
      if u in visited {
        SettledStays(g, u, visited, rest + [v], visited + {v}, pending);
      }
    }
  }

  method Traverse(g: Graph) returns (r: Result<(set<Id>, set<Id>), SbomError>)
    ensures r.Ok? <==> Complete(g)
    ensures r.Ok? ==> forall x :: x in r.value.0 <==> Reachable(g, x)
    ensures r.Ok? ==> forall x :: x in r.value.1 <==> RuntimeReachable(g, x)
    ensures r.Err? ==> r.error == IncompleteGraph || r.error == UnknownKind
  {
    hide Offered, OfferedAtRuntime, Reachable, RuntimeReachable, Offers, Known, Complete, Exploring, Closed, Recorded,
      Sound,Settled, AllVisits, Links, LinksAtRuntime, BuildPath, RuntimePath;
    var reached: set<Id>, runtime: set<Id> := {}, {};
    var pending: seq<Visit> := [(g.root, true)];
    var visited: set<Visit> := {};
    ghost var all := AllVisits(g);
    StartExploring(g);
    while pending != []
      invariant visited <= all
      invariant Exploring(g, visited, pending, reached, runtime)
      decreases |all - visited|, |pending|
    {
      var v := pending[|pending| - 1];
      var rest := pending[..|pending| - 1];
      assert pending == rest + [v];
      PendingIsSound(g, visited, pending, reached, runtime, v);
      if v in visited {
        SkipKeeps(g, visited, rest, v, reached, runtime);
        pending := rest;
        continue;
      }
      if v.0 !in g.nodes || v.0 !in g.packages {
        Missing(g, v);
        return Err(IncompleteGraph);
      }
      VisitListed(g, v);
      Shrinks(all, visited, v);
      if v.0 in g.built {
        var active := v.1 && Active(g, v.0);
        var ok, after := Expand(g.nodes[v.0], active, rest);
        if !ok {
          Unrecognised(g, v);
          return Err(UnknownKind);
        }
        VisitKeeps(g, visited, rest, v, after, reached, runtime);
        reached := reached + {v.0};
        if active {
          runtime := runtime + {v.0};
        }
        pending := after;
      } else {
        VisitKeeps(g, visited, rest, v, rest, reached, runtime);
        pending := rest;
      }
      visited := visited + {v};
    }
    ExploredIsClosed(g, visited, reached, runtime);
    Finished(g, visited, reached, runtime);
    return Ok((reached, runtime));
  }

  ghost function AllVisits(g: Graph): set<Visit> {
    (set x | x in g.nodes :: (x, true)) + (set x | x in g.nodes :: (x, false))
  }

  lemma VisitListed(g: Graph, v: Visit)
    requires v.0 in g.nodes
    ensures v in AllVisits(g)
  {
    match v
    case (x, active) =>
      assert (if active then (x, true) else (x, false)) in AllVisits(g);
  }

  lemma StartExploring(g: Graph)
    ensures Exploring(g, {}, [(g.root, true)], {}, {})
  {
  }

  lemma PendingIsSound(g: Graph, visited: set<Visit>, pending: seq<Visit>, reached: set<Id>, runtime: set<Id>, v: Visit)
    requires Exploring(g, visited, pending, reached, runtime) && v in pending
    ensures Sound(g, v)
  {
  }

  lemma ExploredIsClosed(g: Graph, visited: set<Visit>, reached: set<Id>, runtime: set<Id>)
    requires Exploring(g, visited, [], reached, runtime)
    ensures Closed(g, visited) && Recorded(g, visited, reached, runtime)
  {
  }

  lemma Missing(g: Graph, v: Visit)
    requires Sound(g, v) && (v.0 !in g.nodes || v.0 !in g.packages)
    ensures !Complete(g)
  {
  }

  lemma Unrecognised(g: Graph, v: Visit)
    requires Sound(g, v) && v.0 in g.built && v.0 in g.nodes && !Known(g.nodes[v.0])
    ensures !Complete(g)
  {
    OfferedAndBuilt(g, v.0);
  }

  lemma Shrinks(all: set<Visit>, seen: set<Visit>, v: Visit)
    requires v in all && v !in seen
    ensures |all - (seen + {v})| < |all - seen|
  {
    assert all - seen == (all - (seen + {v})) + {v};
  }

  // ----- Once nothing is pending, everything reachable has been visited -----

  ghost predicate Closed(g: Graph, visited: set<Visit>) {
    && (g.root, true) in visited
    && forall v :: v in visited ==> Sound(g, v) && Settled(g, v, visited, [])
  }

  lemma LinkVisited(g: Graph, visited: set<Visit>, x: Id, y: Id)
    requires Closed(g, visited) && x in g.built && ((x, true) in visited || (x, false) in visited) && Links(g, x, y)
    ensures (y, true) in visited || (y, false) in visited
  {
    var v := (x, (x, true) in visited);
    assert v in visited;
    var active := v.1 && Active(g, x);
    var dep :| dep in g.nodes[x] && dep.pkg == y && exists kind :: kind in dep.kinds && kind != Dev;
    var kind :| kind in dep.kinds && kind != Dev;
    var w := (y, active && kind == Normal);
    assert Offers(g.nodes[x], active, w);
    assert w in visited;
  }

  lemma RuntimeLinkVisited(g: Graph, visited: set<Visit>, x: Id, y: Id)
    requires Closed(g, visited) && Active(g, x) && (x, true) in visited && LinksAtRuntime(g, x, y)
    ensures (y, true) in visited
  {
    var v := (x, true);
    assert v in visited;
    var dep :| dep in g.nodes[x] && dep.pkg == y && Normal in dep.kinds;
    assert Offers(g.nodes[x], true && Active(g, x), (y, true));
  }

  lemma {:induction false} PathVisited(g: Graph, visited: set<Visit>, p: seq<Id>)
    requires Closed(g, visited) && BuildPath(g, p)
    ensures (p[|p| - 1], true) in visited || (p[|p| - 1], false) in visited
    decreases |p|
  {
    if |p| > 1 {
      var q := p[..|p| - 1];
      PathVisited(g, visited, q);
      LinkVisited(g, visited, q[|q| - 1], p[|p| - 1]);
    }
  }

  lemma {:induction false} RuntimePathVisited(g: Graph, visited: set<Visit>, p: seq<Id>)
    requires Closed(g, visited) && RuntimePath(g, p)
    ensures (p[|p| - 1], true) in visited
    decreases |p|
  {
    if |p| > 1 {
      var q := p[..|p| - 1];
      RuntimePathVisited(g, visited, q);
      RuntimeLinkVisited(g, visited, q[|q| - 1], p[|p| - 1]);
    }
  }

  lemma ReachableVisited(g: Graph, visited: set<Visit>, x: Id)
    requires Closed(g, visited) && Reachable(g, x)
    ensures x in g.built && ((x, true) in visited || (x, false) in visited)
  {
    var p :| BuildPath(g, p) && p[|p| - 1] == x;
    PathVisited(g, visited, p);
  }

  lemma RuntimeReachableVisited(g: Graph, visited: set<Visit>, x: Id)
    requires Closed(g, visited) && RuntimeReachable(g, x)
    ensures Active(g, x) && (x, true) in visited
  {
    var p :| RuntimePath(g, p) && p[|p| - 1] == x;
    RuntimePathVisited(g, visited, p);
  }

  lemma OfferedVisited(g: Graph, visited: set<Visit>, x: Id)
    requires Closed(g, visited) && Offered(g, x)
    ensures x in g.nodes && x in g.packages
  {
    if x == g.root {
      assert Settled(g, (x, true), visited, []);
    } else {
      var y :| Reachable(g, y) && Links(g, y, x);
      ReachableVisited(g, visited, y);
      LinkVisited(g, visited, y, x);
      var v := (x, (x, true) in visited);
      assert Settled(g, v, visited, []);
    }
  }

  lemma ClosedIsComplete(g: Graph, visited: set<Visit>)
    requires Closed(g, visited)
    ensures Complete(g)
  {
    hide Known, Offered, Reachable;
    forall x | Offered(g, x) ensures x in g.nodes && x in g.packages {
      OfferedVisited(g, visited, x);
    }
    forall x | Reachable(g, x) && x in g.nodes ensures Known(g.nodes[x]) {
      ReachableVisited(g, visited, x);
      var v := (x, (x, true) in visited);
      assert Settled(g, v, visited, []);
    }
  }

  lemma Finished(g: Graph, visited: set<Visit>, reached: set<Id>, runtime: set<Id>)
    requires Closed(g, visited) && Recorded(g, visited, reached, runtime)
    ensures Complete(g)
    ensures forall x :: x in reached <==> Reachable(g, x)
    ensures forall x :: x in runtime <==> RuntimeReachable(g, x)
  {
    hide Reachable, RuntimeReachable, Offered, OfferedAtRuntime, Settled, Active, Complete;
    ClosedIsComplete(g, visited);
    forall x ensures x in reached <==> Reachable(g, x) {
      if x in reached {
        var v := (x, (x, true) in visited);
        assert Sound(g, v);
        OfferedAndBuilt(g, x);
      } else if Reachable(g, x) {
        ReachableVisited(g, visited, x);
      }
    }
    forall x ensures x in runtime <==> RuntimeReachable(g, x) {
      if x in runtime {
        assert Sound(g, (x, true));
        OfferedAndActive(g, x);
      } else if RuntimeReachable(g, x) {
        RuntimeReachableVisited(g, visited, x);
      }
    }
  }

  // ----- The relations, written out -----

  /** A dependency of any kind but dev, by position. */
  lemma LinkMeans(g: Graph, x: Id, y: Id)
    ensures Links(g, x, y)
            <==> x in g.nodes && exists i, j :: 0 <= i < |g.nodes[x]| && g.nodes[x][i].pkg == y
                                                && 0 <= j < |g.nodes[x][i].kinds| && !g.nodes[x][i].kinds[j].Dev?
  {
    if x in g.nodes {
      if dep :| dep in g.nodes[x] && dep.pkg == y && exists kind :: kind in dep.kinds && kind != Dev {
        var kind :| kind in dep.kinds && kind != Dev;
        var i :| 0 <= i < |g.nodes[x]| && g.nodes[x][i] == dep;
        var j :| 0 <= j < |dep.kinds| && dep.kinds[j] == kind;
      }
      if i, j :| 0 <= i < |g.nodes[x]| && g.nodes[x][i].pkg == y
                 && 0 <= j < |g.nodes[x][i].kinds| && !g.nodes[x][i].kinds[j].Dev? {
        assert g.nodes[x][i] in g.nodes[x] && g.nodes[x][i].kinds[j] in g.nodes[x][i].kinds;
      }
    }
  }

  /** A normal dependency, by position. */
  lemma RuntimeLinkMeans(g: Graph, x: Id, y: Id)
    ensures LinksAtRuntime(g, x, y)
            <==> x in g.nodes && exists i, j :: 0 <= i < |g.nodes[x]| && g.nodes[x][i].pkg == y
                                                && 0 <= j < |g.nodes[x][i].kinds| && g.nodes[x][i].kinds[j].Normal?
  {
    if x in g.nodes {
      if dep :| dep in g.nodes[x] && dep.pkg == y && Normal in dep.kinds {
        var i :| 0 <= i < |g.nodes[x]| && g.nodes[x][i] == dep;
        var j :| 0 <= j < |dep.kinds| && dep.kinds[j] == Normal;
      }
      if i, j :| 0 <= i < |g.nodes[x]| && g.nodes[x][i].pkg == y
                 && 0 <= j < |g.nodes[x][i].kinds| && g.nodes[x][i].kinds[j].Normal? {
        assert g.nodes[x][i] in g.nodes[x] && g.nodes[x][i].kinds[j] == Normal;
      }
    }
  }

  /** The two reachability relations, step by step: the root, and from there along their edges, through
      built packages, and for the runtime through packages that are no procedural macros. */
  lemma ReachabilityMeans(g: Graph, x: Id)
    ensures Reachable(g, x)
            <==> x in g.built && (x == g.root || exists y :: Reachable(g, y) && Links(g, y, x))
    ensures RuntimeReachable(g, x)
            <==> x in g.built && "proc-macro" !in g.built[x].kinds
                 && (x == g.root || exists y :: RuntimeReachable(g, y) && LinksAtRuntime(g, y, x))
  {
    hide Links, LinksAtRuntime;
    if p :| BuildPath(g, p) && p[|p| - 1] == x && x != g.root {
      var q := p[..|p| - 1];
      assert BuildPath(g, q) && q[|q| - 1] == p[|p| - 2];
      assert Reachable(g, p[|p| - 2]) && Links(g, p[|p| - 1 - 1], p[|p| - 1]);
    }
    if p :| RuntimePath(g, p) && p[|p| - 1] == x && x != g.root {
      var q := p[..|p| - 1];
      assert RuntimePath(g, q) && q[|q| - 1] == p[|p| - 2];
      assert RuntimeReachable(g, p[|p| - 2]) && LinksAtRuntime(g, p[|p| - 1 - 1], p[|p| - 1]);
    }
    if x in g.built && Offered(g, x) {
      OfferedAndBuilt(g, x);
    }
    if Active(g, x) && OfferedAtRuntime(g, x) {
      OfferedAndActive(g, x);
    }
  }

  /** A graph is complete exactly if the root and every target of a reachable package is described, and
      reachable packages have only the three kinds of dependency. */
  lemma CompleteMeans(g: Graph)
    ensures Complete(g)
            <==> && g.root in g.nodes && g.root in g.packages
                 && (forall x, y :: Reachable(g, x) && Links(g, x, y) ==> y in g.nodes && y in g.packages)
                 && (forall x, dep, kind ::
                       Reachable(g, x) && x in g.nodes && dep in g.nodes[x] && kind in dep.kinds ==>
                         kind == Normal || kind == Build || kind == Dev)
  {
    hide Reachable, Links;
  }
}
