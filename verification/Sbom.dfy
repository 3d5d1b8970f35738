/** The bill of materials document (scripts/release_package.py, make_sbom): components and
    dependency entries over the traversed build graph. */
module Sbom {
  import opened Common
  import opened Ordering
  import opened SbomGraph
  import opened SbomRefs

  /** A licence record of the reviewed inventory. */
  datatype Evidence = Evidence(checksum: string, licenses: seq<string>)

  datatype Scope = Application | Required | Excluded | Toolchain | External

  datatype Component = Component(ref: string, scope: Scope, checksum: Option<string>, licenses: seq<string>)

  datatype Dependency = Dependency(ref: string, dependsOn: seq<string>)

  datatype Document = Document(root: Component, components: seq<Component>, dependencies: seq<Dependency>)

  /** What the build is judged by: the inventory, and the local packages that pass review. */
  datatype Reviewed = Reviewed(inventory: map<(Bytes, Bytes, string), Evidence>, local: set<Id>)

  /** What is being released, and the version of the Cargo metadata it was described by. */
  datatype Release = Release(target: string, metadataVersion: int, version: Bytes, binaryDigest: string)

  const TARGETS :=
    {"x86_64-unknown-linux-gnu", "aarch64-unknown-linux-gnu", "aarch64-apple-darwin", "x86_64-pc-windows-msvc"}
  const REGISTRY := "registry+https://github.com/rust-lang/crates.io-index"
  const PROJECT_LICENSE := "AGPL-3.0-only"

  // ----- What a build must satisfy -----

  predicate Supported(release: Release) {
    release.target in TARGETS && release.metadataVersion == 1
  }

  predicate RootMatches(g: Graph, version: Bytes) {
    g.root in g.built && g.root in g.packages && g.packages[g.root].version == version
  }

  /** No two built packages share their name and version. */
  predicate Unambiguous(g: Graph) {
    forall x, y :: x in g.built && y in g.built && x in g.packages && y in g.packages && x != y ==>
      g.packages[x].name != g.packages[y].name || g.packages[x].version != g.packages[y].version
  }

  predicate Evidenced(g: Graph, reviewed: Reviewed, x: Id)
    requires x in g.packages
  {
    var package := g.packages[x];
    match package.source
    case None => x in reviewed.local
    case Some(source) => source == REGISTRY && (package.name, package.version, source) in reviewed.inventory
  }

  ghost predicate Acceptable(g: Graph, release: Release, reviewed: Reviewed) {
    && Supported(release) && RootMatches(g, release.version) && Complete(g)
    && (forall x :: x in g.built ==> Reachable(g, x))
    && Unambiguous(g)
    && (forall x :: x in g.built && x in g.packages && x != g.root ==> Evidenced(g, reviewed, x))
  }

  // ----- References -----

  function RefOf(g: Graph, x: Id): string
    requires x in g.packages
  {
    PackageRef(g.packages[x].name, g.packages[x].version)
  }

  function Refs(g: Graph, reached: set<Id>): map<Id, string>
    requires reached <= g.packages.Keys
  {
    map x | x in reached :: RefOf(g, x)
  }

  lemma {:induction false} DistinctValues(m: map<string, string>)
    ensures |m.Values| <= |m|
    ensures |m.Values| == |m| <==> Injective(m.Keys, m)
    decreases |m|
  {
    if m != map[] {
      var k :| k in m;
      var rest := m - {k};
      DistinctValues(rest);
      assert m.Keys == rest.Keys + {k};
      ValuesWithout(m, k);
      if m[k] in rest.Values {
        var x :| x in rest && rest[x] == m[k];
      } else {
        InjectiveWithout(m, k);
      }
    }
  }

  lemma ValuesWithout(m: map<string, string>, k: string)
    requires k in m
    ensures m.Values == (m - {k}).Values + {m[k]} && |m| == |m - {k}| + 1
  {
    var rest := m - {k};
    assert m.Keys == rest.Keys + {k};
    assert |m.Keys| == |m| && |rest.Keys| == |rest|;
    forall v | v in m.Values ensures v in rest.Values + {m[k]} {
      var x :| x in m && m[x] == v;
      if x != k {
        assert x in rest && rest[x] == v;
      }
    }
  }

  lemma InjectiveWithout(m: map<string, string>, k: string)
    requires k in m && m[k] !in (m - {k}).Values
    ensures Injective(m.Keys, m) <==> Injective((m - {k}).Keys, m - {k})
  {
    var rest := m - {k};
    if Injective(rest.Keys, rest) {
      forall x, y | x in m && y in m && m[x] == m[y] ensures x == y {
        assert x != k ==> x in rest && rest[x] == m[x];
        assert y != k ==> y in rest && rest[y] == m[y];
      }
    } else {
      var x, y :| x in rest && y in rest && rest[x] == rest[y] && x != y;
      assert m[x] == m[y];
    }
  }

  /** The test on the number of different references is a test on package identities. */
  lemma CountingDetectsAmbiguity(g: Graph)
    requires g.built.Keys <= g.packages.Keys
    ensures var refs := Refs(g, g.built.Keys);
            (|refs.Values| == |refs| <==> Unambiguous(g)) && (Unambiguous(g) <==> Injective(g.built.Keys, refs))
  {
    hide PackageRef;
    var refs := Refs(g, g.built.Keys);
    DistinctValues(refs);
    assert refs.Keys == g.built.Keys;
    forall x, y | x in g.built && y in g.built
      ensures refs[x] == refs[y] <==>
                && g.packages[x].name == g.packages[y].name
                && g.packages[x].version == g.packages[y].version
    {
      PackageRefsDiffer(g.packages[x].name, g.packages[x].version, g.packages[y].name, g.packages[y].version);
    }
  }

  // ----- Components -----

  function ComponentOf(g: Graph, reviewed: Reviewed, runtime: set<Id>, x: Id): Component
    requires x in g.packages && Evidenced(g, reviewed, x)
  {
    var package := g.packages[x];
    var scope := if x in runtime then Required else Excluded;
    match package.source
    case None => Component(RefOf(g, x), scope, None, [PROJECT_LICENSE])
    case Some(source) =>
      var record := reviewed.inventory[(package.name, package.version, source)];
      Component(RefOf(g, x), scope, Some(record.checksum), record.licenses)
  }

  method PackageComponents(g: Graph, reviewed: Reviewed, runtime: set<Id>, order: seq<Id>)
    returns (ok: bool, components: seq<Component>)
    requires forall i :: 0 <= i < |order| ==> order[i] in g.packages
    ensures ok <==> forall i :: 0 <= i < |order| ==> Evidenced(g, reviewed, order[i])
    ensures ok ==> |components| == |order|
                   && forall i :: 0 <= i < |order| ==> components[i] == ComponentOf(g, reviewed, runtime, order[i])
  {
    components := [];
    for i := 0 to |order|
      invariant |components| == i
      invariant forall j :: 0 <= j < i ==>
                  && Evidenced(g, reviewed, order[j])
                  && components[j] == ComponentOf(g, reviewed, runtime, order[j])
    {
      if !Evidenced(g, reviewed, order[i]) {
        return false, [];
      }
      components := components + [ComponentOf(g, reviewed, runtime, order[i])];
    }
    ok := true;
  }

  method SystemComponents(libraries: seq<string>) returns (refs: seq<string>, components: seq<Component>)
    ensures |refs| == |components| == |libraries|
    ensures forall i :: 0 <= i < |libraries| ==>
            refs[i] == SystemRef(i) && components[i] == Component(SystemRef(i), External, None, [])
  {
    refs, components := [], [];
    for i := 0 to |libraries|
      invariant |refs| == |components| == i
      invariant forall j :: 0 <= j < i ==>
                  && refs[j] == SystemRef(j)
                  && components[j] == Component(SystemRef(j), External, None, [])
    {
      refs := refs + [SystemRef(i)];
      components := components + [Component(SystemRef(i), External, None, [])];
    }
  }

  /** What the build graph says a package depends on. */
  predicate DependsOn(g: Graph, reached: set<Id>, x: Id, ref: string)
    requires reached <= g.packages.Keys
  {
    exists y :: y in reached && Links(g, x, y) && ref == RefOf(g, y)
  }

  method DependencyRefs(g: Graph, reached: set<Id>, x: Id) returns (refs: set<string>)
    requires reached <= g.packages.Keys && x in g.nodes
    ensures forall ref :: ref in refs <==> DependsOn(g, reached, x, ref)
  {
    hide PackageRef;
    refs := set dep | dep in g.nodes[x] && dep.pkg in reached
      && (exists kind :: kind in dep.kinds && kind != Dev) :: RefOf(g, dep.pkg);
    forall ref | DependsOn(g, reached, x, ref) ensures ref in refs {
      var y :| y in reached && Links(g, x, y) && ref == RefOf(g, y);
    }
  }

  /** The references listed for a package: its reached dependencies, and for the root the
      toolchain and the system libraries too. */
  ghost predicate Lists(g: Graph, reached: set<Id>, libraries: seq<string>, x: Id, ref: string)
    requires reached <= g.packages.Keys
  {
    || DependsOn(g, reached, x, ref)
    || (x == g.root && (ref == STD_REF || exists i :: 0 <= i < |libraries| && ref == SystemRef(i)))
  }

  ghost predicate DependencyFor(g: Graph, reached: set<Id>, libraries: seq<string>, x: Id, d: Dependency)
    requires reached <= g.packages.Keys && x in reached
  {
    d.ref == RefOf(g, x) && Ascending(d.dependsOn)
    && forall ref :: ref in d.dependsOn <==> Lists(g, reached, libraries, x, ref)
  }

  method DependencyOf(g: Graph, reached: set<Id>, libraries: seq<string>, system: seq<string>, x: Id)
    returns (d: Dependency)
    requires reached <= g.packages.Keys && x in reached && x in g.nodes
    requires |system| == |libraries| && forall i :: 0 <= i < |system| ==> system[i] == SystemRef(i)
    ensures DependencyFor(g, reached, libraries, x, d)
  {
    hide DependsOn, PackageRef, Decimal, Ascending;
    var refs := DependencyRefs(g, reached, x);
    if x == g.root {
      refs := refs + {STD_REF} + set s | s in system;
    }
    var list := Sort(refs);
    d := Dependency(RefOf(g, x), list);
  }

  method Dependencies(g: Graph, reached: set<Id>, libraries: seq<string>, system: seq<string>, order: seq<Id>)
    returns (list: seq<Dependency>)
    requires reached <= g.packages.Keys && reached <= g.nodes.Keys
             && forall i :: 0 <= i < |order| ==> order[i] in reached
    requires |system| == |libraries| && forall i :: 0 <= i < |system| ==> system[i] == SystemRef(i)
    ensures |list| == |order| && forall i :: 0 <= i < |order| ==>
            DependencyFor(g, reached, libraries, order[i], list[i])
  {
    hide DependencyFor, SystemRef;
    list := [];
    for i := 0 to |order|
      invariant |list| == i && forall j :: 0 <= j < i ==> DependencyFor(g, reached, libraries, order[j], list[j])
    {
      var d := DependencyOf(g, reached, libraries, system, order[i]);
      list := list + [d];
    }
  }

  // ----- The document -----

  function Declared(doc: Document): seq<string> {
    [doc.root.ref] + seq(|doc.components|, i requires 0 <= i < |doc.components| => doc.components[i].ref)
  }

  /** Every package but the root has exactly one component, in the order of references, marked
      as required exactly when it can run. */
  ghost predicate ListsPackages(doc: Document, g: Graph, reviewed: Reviewed, runtime: set<Id>, order: seq<Id>) {
    && (forall x :: x in order <==> x in g.built && x != g.root)
    && |order| <= |doc.components|
    && (forall i :: 0 <= i < |order| ==>
          && order[i] in g.packages && Evidenced(g, reviewed, order[i])
          && doc.components[i] == ComponentOf(g, reviewed, runtime, order[i]))
    && (forall i, j :: 0 <= i < j < |order| ==> Before(doc.components[i].ref, doc.components[j].ref))
  }

  /** After the packages come the toolchain and one component per system library. */
  ghost predicate ListsRest(doc: Document, libraries: seq<string>, count: nat) {
    && |doc.components| == count + 1 + |libraries|
    && doc.components[count] == Component(STD_REF, Toolchain, None, [])
    && forall i :: 0 <= i < |libraries| ==> doc.components[count + 1 + i] == Component(SystemRef(i), External, None, [])
  }

  ghost predicate ListsDependencies(doc: Document, g: Graph, libraries: seq<string>, order: seq<Id>)
    requires g.built.Keys <= g.packages.Keys
  {
    && (forall x :: x in order <==> x in g.built)
    && |doc.dependencies| == |order|
    && (forall i :: 0 <= i < |order| ==> DependencyFor(g, g.built.Keys, libraries, order[i], doc.dependencies[i]))
    && (forall i, j :: 0 <= i < j < |order| ==> Before(doc.dependencies[i].ref, doc.dependencies[j].ref))
  }

  ghost predicate Assembled(doc: Document, g: Graph, reviewed: Reviewed, libraries: seq<string>, runtime: set<Id>,
                            packages: seq<Id>, all: seq<Id>)
    requires g.built.Keys <= g.packages.Keys && g.root in g.built
  {
    && doc.root.ref == RefOf(g, g.root)
    && ListsPackages(doc, g, reviewed, runtime, packages)
    && ListsRest(doc, libraries, |packages|)
    && ListsDependencies(doc, g, libraries, all)
  }

  ghost predicate Describes(doc: Document, g: Graph, reviewed: Reviewed, libraries: seq<string>, runtime: set<Id>,
                            packages: seq<Id>, all: seq<Id>)
  {
    && g.built.Keys <= g.packages.Keys && g.root in g.built && Unambiguous(g)
    && (forall x :: x in runtime <==> RuntimeReachable(g, x))
    && Assembled(doc, g, reviewed, libraries, runtime, packages, all)
  }

  method Assemble(g: Graph, reviewed: Reviewed, libraries: seq<string>, runtime: set<Id>, refs: map<Id, string>,
                  root: Component)
    returns (r: Result<Document, SbomError>)
    requires g.built.Keys <= g.packages.Keys && g.built.Keys <= g.nodes.Keys && g.root in g.built
    requires refs == Refs(g, g.built.Keys) && Injective(g.built.Keys, refs) && root.ref == RefOf(g, g.root)
    ensures r.Ok? ==> r.value.root == root
    ensures r.Ok? <==> forall x :: x in g.built && x != g.root ==> Evidenced(g, reviewed, x)
    ensures r.Ok? ==> exists packages, all :: Assembled(r.value, g, reviewed, libraries, runtime, packages, all)
  {
    hide Evidenced, ComponentOf, RefOf, Injective, AscendingBy, DependencyFor, Before, SystemRef, Refs, ListsPackages,
      ListsDependencies;
    var reached := g.built.Keys;
    InjectivePart(g, refs, reached - {g.root});
    var packages := SortBy(reached - {g.root}, refs);
    var ok, components := PackageComponents(g, reviewed, runtime, packages);
    if !ok {
      return Err(NoEvidence);
    }
    var system, libs := SystemComponents(libraries);
    var all := SortBy(reached, refs);
    var list := Dependencies(g, reached, libraries, system, all);
    var doc := Document(root, components + [Component(STD_REF, Toolchain, None, [])] + libs, list);
    PackagesListed(doc, g, reviewed, runtime, packages);
    DependenciesListed(doc, g, libraries, all);
    assert Assembled(doc, g, reviewed, libraries, runtime, packages, all);
    return Ok(doc);
  }

  method MakeSbom(g: Graph, release: Release, reviewed: Reviewed, libraries: seq<string>)
    returns (r: Result<Document, SbomError>)
    ensures r.Ok? <==> Acceptable(g, release, reviewed)
    ensures r.Ok? ==>
              && g.root in g.packages
              && r.value.root == Component(RefOf(g, g.root), Application, Some(release.binaryDigest), [PROJECT_LICENSE])
    ensures r.Ok? ==>
              exists runtime, packages, all :: Describes(r.value, g, reviewed, libraries, runtime, packages, all)
  {
    hide Complete, Reachable, RuntimeReachable, Unambiguous, Evidenced, RefOf, Injective, Refs, Assembled;
    if release.target !in TARGETS || release.metadataVersion != 1 {
      return Err(UnsupportedTarget);
    }
    if g.root !in g.built || g.root !in g.packages || g.packages[g.root].version != release.version {
      return Err(RootDiffers);
    }
    var found := Traverse(g);
    if found.Err? {
      return Err(found.error);
    }
    var (reached, runtime) := found.value;
    AllReached(g, reached);
    if reached != g.built.Keys {
      return Err(BuildDiffers);
    }
    BuiltIsDescribed(g);
    var refs := Refs(g, reached);
    CountingDetectsAmbiguity(g);
    if |refs.Values| != |refs| {
      return Err(Ambiguous);
    }
    var root := Component(RefOf(g, g.root), Application, Some(release.binaryDigest), [PROJECT_LICENSE]);
    r := Assemble(g, reviewed, libraries, runtime, refs, root);
    if r.Ok? {
      ghost var packages, all :| Assembled(r.value, g, reviewed, libraries, runtime, packages, all);
      assert Describes(r.value, g, reviewed, libraries, runtime, packages, all);
    }
  }

  lemma AllReached(g: Graph, reached: set<Id>)
    requires forall x :: x in reached <==> Reachable(g, x)
    ensures reached == g.built.Keys <==> forall x :: x in g.built ==> Reachable(g, x)
  {
    forall x | Reachable(g, x) ensures x in g.built {
      var p :| BuildPath(g, p) && p[|p| - 1] == x;
    }
  }

  lemma BuiltIsDescribed(g: Graph)
    requires Complete(g) && forall x :: x in g.built ==> Reachable(g, x)
    ensures g.built.Keys <= g.packages.Keys && g.built.Keys <= g.nodes.Keys
  {
    forall x | x in g.built ensures x in g.packages && x in g.nodes {
      ReachableIsOffered(g, x);
    }
  }

  lemma ReachableIsOffered(g: Graph, x: Id)
    requires Reachable(g, x)
    ensures Offered(g, x)
  {
    var p :| BuildPath(g, p) && p[|p| - 1] == x;
    if |p| > 1 {
      var q := p[..|p| - 1];
      assert BuildPath(g, q) && q[|q| - 1] == p[|p| - 2];
      assert Reachable(g, p[|p| - 2]) && Links(g, p[|p| - 1 - 1], p[|p| - 1]);
    }
  }

  lemma InjectivePart(g: Graph, refs: map<Id, string>, part: set<Id>)
    requires g.built.Keys <= g.packages.Keys && refs == Refs(g, g.built.Keys) && Injective(g.built.Keys, refs)
    requires part <= g.built.Keys
    ensures Injective(part, refs)
  {
  }

  lemma PackagesListed(doc: Document, g: Graph, reviewed: Reviewed, runtime: set<Id>, order: seq<Id>)
    requires g.built.Keys <= g.packages.Keys && forall x :: x in order <==> x in g.built && x != g.root
    requires AscendingBy(order, Refs(g, g.built.Keys))
    requires |order| <= |doc.components|
    requires forall i :: 0 <= i < |order| ==>
               Evidenced(g, reviewed, order[i]) && doc.components[i] == ComponentOf(g, reviewed, runtime, order[i])
    ensures ListsPackages(doc, g, reviewed, runtime, order)
  {
    hide PackageRef, Before, Evidenced;
    forall i, j | 0 <= i < j < |order| ensures Before(doc.components[i].ref, doc.components[j].ref) {
      ComponentRef(g, reviewed, runtime, order[i]);
      ComponentRef(g, reviewed, runtime, order[j]);
    }
  }

  lemma ComponentRef(g: Graph, reviewed: Reviewed, runtime: set<Id>, x: Id)
    requires x in g.packages && Evidenced(g, reviewed, x)
    ensures ComponentOf(g, reviewed, runtime, x).ref == RefOf(g, x)
  {
  }

  lemma DependenciesListed(doc: Document, g: Graph, libraries: seq<string>, order: seq<Id>)
    requires g.built.Keys <= g.packages.Keys && (forall x :: x in order <==> x in g.built)
             && |doc.dependencies| == |order|
    requires AscendingBy(order, Refs(g, g.built.Keys))
    requires forall i :: 0 <= i < |order| ==> DependencyFor(g, g.built.Keys, libraries, order[i], doc.dependencies[i])
    ensures ListsDependencies(doc, g, libraries, order)
  {
    hide PackageRef, Before, Lists, Ascending;
  }

  // ----- What every produced document keeps -----

  /** All references of the document are different. */
  lemma ReferencesAreUnique(doc: Document, g: Graph, reviewed: Reviewed, libraries: seq<string>, runtime: set<Id>,
                            packages: seq<Id>, all: seq<Id>)
    requires Describes(doc, g, reviewed, libraries, runtime, packages, all)
    ensures Distinct(Declared(doc))
  {
    hide ListsPackages, ListsRest, ListsDependencies, SystemRef, PackageRef, Unambiguous, RuntimeReachable;
    var refs := Declared(doc);
    forall i, j | 0 <= i < j < |refs| ensures refs[i] != refs[j] {
      assert refs[j] == doc.components[j - 1].ref;
      if i == 0 {
        RootIsAlone(doc, g, reviewed, libraries, runtime, packages, all, j - 1);
      } else {
        assert refs[i] == doc.components[i - 1].ref;
        ComponentsDiffer(doc, g, reviewed, libraries, runtime, packages, all, i - 1, j - 1);
      }
    }
  }

  lemma RootIsAlone(doc: Document, g: Graph, reviewed: Reviewed, libraries: seq<string>, runtime: set<Id>,
                    packages: seq<Id>, all: seq<Id>, j: nat)
    requires Describes(doc, g, reviewed, libraries, runtime, packages, all) && j < |doc.components|
    ensures doc.root.ref != doc.components[j].ref
  {
    hide ListsDependencies, SystemRef, PackageRef, RuntimeReachable, ComponentOf, Evidenced, Before;
    var root := g.packages[g.root];
    if j < |packages| {
      assert packages[j] in packages;
      ComponentRef(g, reviewed, runtime, packages[j]);
      var package := g.packages[packages[j]];
      PackageRefsDiffer(root.name, root.version, package.name, package.version);
    } else {
      FamiliesDiffer(root.name, root.version, if j == |packages| then 0 else j - |packages| - 1);
    }
  }

  lemma ComponentsDiffer(doc: Document, g: Graph, reviewed: Reviewed, libraries: seq<string>, runtime: set<Id>,
                         packages: seq<Id>, all: seq<Id>, i: nat, j: nat)
    requires Describes(doc, g, reviewed, libraries, runtime, packages, all) && i < j < |doc.components|
    ensures doc.components[i].ref != doc.components[j].ref
  {
    hide ListsDependencies, SystemRef, PackageRef, RuntimeReachable, ComponentOf, Evidenced, Before;
    var n := |packages|;
    if j < n {
      BeforeIsStrict(doc.components[i].ref, doc.components[j].ref);
    } else if i < n {
      ComponentRef(g, reviewed, runtime, packages[i]);
      var package := g.packages[packages[i]];
      FamiliesDiffer(package.name, package.version, if j == n then 0 else j - n - 1);
    } else if i == n {
      FamiliesDiffer([], [], j - n - 1);
    } else {
      SystemRefsDiffer(i - n - 1, j - n - 1);
    }
  }

  /** Every reference a dependency entry mentions is declared. */
  lemma DependenciesAreDeclared(doc: Document, g: Graph, reviewed: Reviewed, libraries: seq<string>, runtime: set<Id>,
                                packages: seq<Id>, all: seq<Id>, k: nat)
    requires Describes(doc, g, reviewed, libraries, runtime, packages, all) && k < |doc.dependencies|
    ensures doc.dependencies[k].ref in Declared(doc)
    ensures forall ref :: ref in doc.dependencies[k].dependsOn ==> ref in Declared(doc)
  {
    hide Declared, ListsPackages, ListsRest, SystemRef, RefOf, RuntimeReachable, Unambiguous, Before, Links, Ascending;
    var d := doc.dependencies[k];
    assert all[k] in all;
    PackageIsDeclared(doc, g, reviewed, libraries, runtime, packages, all, all[k]);
    forall ref | ref in d.dependsOn ensures ref in Declared(doc) {
      assert Lists(g, g.built.Keys, libraries, all[k], ref);
      if DependsOn(g, g.built.Keys, all[k], ref) {
        var y :| y in g.built.Keys && Links(g, all[k], y) && ref == RefOf(g, y);
        PackageIsDeclared(doc, g, reviewed, libraries, runtime, packages, all, y);
      } else {
        RestIsDeclared(doc, libraries, |packages|, ref);
      }
    }
  }

  lemma PackageIsDeclared(doc: Document, g: Graph, reviewed: Reviewed, libraries: seq<string>, runtime: set<Id>,
                          packages: seq<Id>, all: seq<Id>, x: Id)
    requires Describes(doc, g, reviewed, libraries, runtime, packages, all) && x in g.built
    ensures RefOf(g, x) in Declared(doc)
  {
    hide ListsDependencies, ListsRest, PackageRef, RuntimeReachable, ComponentOf, Evidenced, Before, Unambiguous;
    if x == g.root {
      assert Declared(doc)[0] == doc.root.ref;
    } else {
      var i :| 0 <= i < |packages| && packages[i] == x;
      ComponentRef(g, reviewed, runtime, x);
      assert Declared(doc)[i + 1] == doc.components[i].ref;
    }
  }

  lemma RestIsDeclared(doc: Document, libraries: seq<string>, count: nat, ref: string)
    requires ListsRest(doc, libraries, count)
    requires ref == STD_REF || exists i :: 0 <= i < |libraries| && ref == SystemRef(i)
    ensures ref in Declared(doc)
  {
    hide SystemRef;
    if ref == STD_REF {
      assert Declared(doc)[count + 1] == ref;
    } else {
      var i :| 0 <= i < |libraries| && ref == SystemRef(i);
      assert Declared(doc)[count + 2 + i] == ref;
    }
  }

  // ----- What a document says about one package -----

  /** Every built package but the root is listed under its own reference: as required exactly if it
      can run, with the project's licence if it is local, and otherwise with the checksum and the
      licences of its reviewed record. */
  lemma PackageIsDescribed(doc: Document, g: Graph, reviewed: Reviewed, libraries: seq<string>, runtime: set<Id>,
                           packages: seq<Id>, all: seq<Id>, x: Id) returns (i: nat)
    requires Describes(doc, g, reviewed, libraries, runtime, packages, all) && x in g.built && x != g.root
    ensures i < |doc.components|
    ensures var c, package := doc.components[i], g.packages[x];
            && c.ref == PackageRef(package.name, package.version)
            && (RuntimeReachable(g, x) ==> c.scope == Required) && (!RuntimeReachable(g, x) ==> c.scope == Excluded)
            && (package.source == None ==>
                  x in reviewed.local && c.checksum == None && c.licenses == ["AGPL-3.0-only"])
            && (package.source != None ==>
                  && package.source == Some("registry+https://github.com/rust-lang/crates.io-index")
                  && var key := (package.name, package.version, package.source.value);
                     && key in reviewed.inventory && c.checksum == Some(reviewed.inventory[key].checksum)
                     && c.licenses == reviewed.inventory[key].licenses)
  {
    hide ListsDependencies, ListsRest, RuntimeReachable, Before, PackageRef, Unambiguous;
    i :| 0 <= i < |packages| && packages[i] == x;
  }

  /** A built target of a non-dev dependency, and for the root the toolchain or a numbered system
      library. */
  ghost predicate Named(g: Graph, libraries: seq<string>, x: Id, ref: string)
    requires g.built.Keys <= g.packages.Keys
  {
    || (exists y :: y in g.built && Links(g, x, y) && ref == PackageRef(g.packages[y].name, g.packages[y].version))
    || (x == g.root && ref == "rust-standard-library")
    || (x == g.root && exists n: nat :: n < |libraries| && ref == Numbered(n))
  }

  function Numbered(n: nat): string {
    "system-library-" + Decimal(n)
  }

  lemma ListsMeans(g: Graph, libraries: seq<string>, x: Id, ref: string)
    requires g.built.Keys <= g.packages.Keys
    ensures Lists(g, g.built.Keys, libraries, x, ref) <==> Named(g, libraries, x, ref)
  {
    hide PackageRef, Links, Decimal;
    if y :| y in g.built.Keys && Links(g, x, y) && ref == RefOf(g, y) {
      assert ref == PackageRef(g.packages[y].name, g.packages[y].version) && y in g.built;
    }
    if y :| y in g.built && Links(g, x, y) && ref == PackageRef(g.packages[y].name, g.packages[y].version) {
      assert ref == RefOf(g, y) && y in g.built.Keys;
    }
    if n: nat :| n < |libraries| && ref == SystemRef(n) {
      assert ref == Numbered(n);
    }
    if n: nat :| n < |libraries| && ref == Numbered(n) {
      assert ref == SystemRef(n);
    }
  }

  /** The entry of a package lists exactly what it depends on, each once and in order. */
  lemma DependencyIsDescribed(doc: Document, g: Graph, reviewed: Reviewed, libraries: seq<string>, runtime: set<Id>,
                              packages: seq<Id>, all: seq<Id>, x: Id) returns (k: nat)
    requires Describes(doc, g, reviewed, libraries, runtime, packages, all) && x in g.built
    ensures k < |doc.dependencies| && doc.dependencies[k].ref == PackageRef(g.packages[x].name, g.packages[x].version)
    ensures Ascending(doc.dependencies[k].dependsOn)
    ensures forall ref :: ref in doc.dependencies[k].dependsOn <==> Named(g, libraries, x, ref)
  {
    hide ListsPackages, ListsRest, RuntimeReachable, Before, PackageRef, Unambiguous, Ascending, Lists, Named;
    k :| 0 <= k < |all| && all[k] == x;
    assert DependencyFor(g, g.built.Keys, libraries, x, doc.dependencies[k]);
    forall ref ensures ref in doc.dependencies[k].dependsOn <==> Named(g, libraries, x, ref) {
      ListsMeans(g, libraries, x, ref);
    }
  }

  /** What a released build must be: one of four targets, described by metadata of version one, with
      the released version at its root, and built from exactly the packages its graph reaches. */
  lemma AcceptableMeans(g: Graph, release: Release, reviewed: Reviewed)
    requires Acceptable(g, release, reviewed)
    ensures release.target in {"x86_64-unknown-linux-gnu", "aarch64-unknown-linux-gnu", "aarch64-apple-darwin",
                               "x86_64-pc-windows-msvc"} && release.metadataVersion == 1
    ensures g.root in g.built && g.root in g.packages && g.packages[g.root].version == release.version
    ensures forall x :: x in g.built <==> Reachable(g, x)
    ensures forall x, y :: x in g.built && y in g.built && x != y ==>
              && x in g.packages && y in g.packages
              && (g.packages[x].name, g.packages[x].version) != (g.packages[y].name, g.packages[y].version)
  {
    hide Reachable, Evidenced;
    BuiltIsDescribed(g);
    forall x | Reachable(g, x) ensures x in g.built {
      ReachabilityMeans(g, x);
    }
  }
}
