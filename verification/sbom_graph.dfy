/** sbom_dependency_graph.py: the index of packages by image and of images by package. */
module SbomGraph {
  import opened Text
  import opened Sorting

  // --- Documents -----------------------------------------------------------------------------

  /** A package of a document, the defaults already filled in. */
  datatype Listed = Listed(name: string, version: string, license: string, supplier: string, location: string)

  datatype Relation = Relation(source: string, target: string, kind: string)

  datatype Document = Document(packages: seq<Listed>, relations: seq<Relation>)

  /** The file of an image: unreadable ones are skipped. */
  datatype Sbom = Sbom(image: string, document: Option<Document>)

  datatype Package = Package(name: string, version: string, license: string, supplier: string, location: string,
                             images: seq<string>)

  // --- The graph as a value ------------------------------------------------------------------

  /** Dictionaries with the order of their keys. */
  datatype Graph = Graph(packages: map<string, Package>, keys: seq<string>,
                         images: map<string, seq<string>>, names: seq<string>, edges: seq<(string, string)>)

  const Empty := Graph(map[], [], map[], [], [])

  function Key(p: Listed): string {
    p.name + ("@" + p.version)
  }

  /** The list of an image starts anew, even if there was one. */
  function StartImage(g: Graph, image: string): Graph {
    g.(images := g.images[image := []], names := if image in g.images then g.names else g.names + [image])
  }

  /** The first package with a key leaves its data; every one leaves its image. */
  function AddPackage(g: Graph, image: string, p: Listed): (r: Graph)
    requires image in g.images
    ensures image in r.images
  {
    if p.name == "" then g else
    var key := Key(p);
    var entry := if key in g.packages then g.packages[key]
                 else Package(p.name, p.version, p.license, p.supplier, p.location, []);
    g.(packages := g.packages[key := entry.(images := entry.images + [image])],
       keys := if key in g.packages then g.keys else g.keys + [key],
       images := g.images[image := g.images[image] + [key]])
  }

  function AddPackages(g: Graph, image: string, ps: seq<Listed>, n: nat): (r: Graph)
    requires image in g.images && n <= |ps|
    ensures image in r.images
  {
    if n == 0 then g else AddPackage(AddPackages(g, image, ps, n - 1), image, ps[n - 1])
  }

  function AddEdges(g: Graph, rs: seq<Relation>, n: nat): Graph
    requires n <= |rs|
  {
    if n == 0 then g else
    var g' := AddEdges(g, rs, n - 1);
    var r := rs[n - 1];
    if r.kind == "DEPENDS_ON" || r.kind == "CONTAINS" then g'.(edges := g'.edges + [(r.source, r.target)]) else g'
  }

  function AddSbom(g: Graph, s: Sbom): Graph {
    match s.document
    case None => g
    case Some(d) =>
      AddEdges(AddPackages(StartImage(g, s.image), s.image, d.packages, |d.packages|), d.relations, |d.relations|)
  }

  function AddSboms(g: Graph, ss: seq<Sbom>, n: nat): Graph
    requires n <= |ss|
  {
    if n == 0 then g else AddSbom(AddSboms(g, ss, n - 1), ss[n - 1])
  }

  // --- The class ---------------------------------------------------------------------------------

  /** A package in the list of the most shared ones. */
  datatype Shared = Shared(package: string, version: string, images: seq<string>, license: string) {
    function ImageCount(): nat { |images| }
  }

  predicate MoreShared(a: Shared, b: Shared) {
    a.ImageCount() >= b.ImageCount()
  }

  function SharedOf(p: Package): Shared {
    Shared(p.name, p.version, p.images, p.license)
  }

  /** The packages of the first n keys that are in more than one image's list. */
  function SharedUpto(g: Graph, n: nat): seq<Shared>
    requires n <= |g.keys|
  {
    if n == 0 then [] else
    SharedUpto(g, n - 1) +
    if g.keys[n - 1] in g.packages && |g.packages[g.keys[n - 1]].images| > 1 then [SharedOf(g.packages[g.keys[n - 1]])] else []
  }

  function Top<T>(s: seq<T>, n: nat): seq<T> {
    if n <= |s| then s[..n] else s
  }

  class DependencyGraph {
    var packages: map<string, Package>
    var keys: seq<string>
    var images: map<string, seq<string>>
    var names: seq<string>
    var edges: seq<(string, string)>

    ghost function Value(): Graph
      reads this
    {
      Graph(packages, keys, images, names, edges)
    }

    constructor ()
      ensures Value() == Empty
    {
      packages, keys, images, names, edges := map[], [], map[], [], [];
    }

    method LoadSboms(sboms: seq<Sbom>)
      modifies this
      ensures Value() == AddSboms(old(Value()), sboms, |sboms|)
    {
      hide AddSbom;
      for i := 0 to |sboms|
        invariant Value() == AddSboms(old(Value()), sboms, i)
      {
        LoadSbom(sboms[i]);
      }
    }

    /** The body of the loop over the files. */
    method LoadSbom(sbom: Sbom)
      modifies this
      ensures Value() == AddSbom(old(Value()), sbom)
    {
      hide Key;
      if sbom.document == None {
        return;
      }
      var document, image := sbom.document.value, sbom.image;
      if image !in images {
        names := names + [image];
      }
      images := images[image := []];
      ghost var started := Value();
      for i := 0 to |document.packages|
        invariant image in images
        invariant Value() == AddPackages(started, image, document.packages, i)
      {
        var p := document.packages[i];
        if p.name == "" {
          continue;
        }
        var key := Key(p);
        if key !in packages {
          packages := packages[key := Package(p.name, p.version, p.license, p.supplier, p.location, [])];
          keys := keys + [key];
        }
        packages := packages[key := packages[key].(images := packages[key].images + [image])];
        images := images[image := images[image] + [key]];
      }
      ghost var filled := Value();
      for i := 0 to |document.relations|
        invariant Value() == AddEdges(filled, document.relations, i)
      {
        var r := document.relations[i];
        if r.kind == "DEPENDS_ON" || r.kind == "CONTAINS" {
          edges := edges + [(r.source, r.target)];
        }
      }
    }

    method GetMostSharedPackages(n: nat) returns (top: seq<Shared>)
      ensures top == Top(Sort(SharedUpto(Value(), |keys|), MoreShared), n)
    {
      var shared: seq<Shared> := [];
      for i := 0 to |keys|
        invariant shared == SharedUpto(Value(), i)
      {
        if keys[i] in packages && |packages[keys[i]].images| > 1 {
          shared := shared + [SharedOf(packages[keys[i]])];
        }
      }
      shared := Sort(shared, MoreShared);
      top := if n <= |shared| then shared[..n] else shared;
    }
  }

  // --- The two directions agree ----------------------------------------------------------------------

  function ImagesOf(g: Graph, key: string): seq<string> {
    if key in g.packages then g.packages[key].images else []
  }

  function PackagesOf(g: Graph, image: string): seq<string> {
    if image in g.images then g.images[image] else []
  }

  /** An image occurs in a package's list as often as the package in the image's list. */
  ghost predicate Agree(g: Graph) {
    forall key, image :: multiset(ImagesOf(g, key))[image] == multiset(PackagesOf(g, image))[key]
  }

  lemma CountAppend(s: seq<string>, x: string, y: string)
    ensures multiset(s + [x])[y] == multiset(s)[y] + if x == y then 1 else 0
  {
  }

  lemma PackageAgrees(g: Graph, image: string, p: Listed)
    requires image in g.images && Agree(g)
    ensures Agree(AddPackage(g, image, p))
  {
    hide Key;
    var r, added := AddPackage(g, image, p), Key(p);
    if p.name != "" {
      forall k, i ensures multiset(ImagesOf(r, k))[i] == multiset(PackagesOf(r, i))[k] {
        assert ImagesOf(r, k) == if k == added then ImagesOf(g, k) + [image] else ImagesOf(g, k);
        assert PackagesOf(r, i) == if i == image then PackagesOf(g, i) + [added] else PackagesOf(g, i);
        CountAppend(ImagesOf(g, k), image, i);
        CountAppend(PackagesOf(g, i), added, k);
      }
    }
  }

  lemma {:induction false} PackagesAgree(g: Graph, image: string, ps: seq<Listed>, n: nat)
    requires image in g.images && n <= |ps| && Agree(g)
    ensures Agree(AddPackages(g, image, ps, n))
  {
    hide Agree;
    hide AddPackage;
    if n > 0 {
      PackagesAgree(g, image, ps, n - 1);
      PackageAgrees(AddPackages(g, image, ps, n - 1), image, ps[n - 1]);
    }
  }

  lemma {:induction false} EdgesKeep(g: Graph, rs: seq<Relation>, n: nat)
    requires n <= |rs|
    ensures AddEdges(g, rs, n).(edges := g.edges) == g
  {
    if n > 0 {
      EdgesKeep(g, rs, n - 1);
    }
  }

  lemma EdgesAgree(g: Graph, h: Graph)
    requires h.(edges := g.edges) == g
    ensures Agree(g) <==> Agree(h)
  {
    forall key, image ensures ImagesOf(g, key) == ImagesOf(h, key) && PackagesOf(g, image) == PackagesOf(h, image) {
    }
  }

  /** The list of an image may only start anew when it held nothing. */
  lemma StartAgrees(g: Graph, image: string)
    requires Agree(g)
    ensures Agree(StartImage(g, image)) <==> PackagesOf(g, image) == []
  {
    var r := StartImage(g, image);
    assert forall k :: ImagesOf(r, k) == ImagesOf(g, k);
    assert forall i | i != image :: PackagesOf(r, i) == PackagesOf(g, i);
    assert PackagesOf(r, image) == [];
    if PackagesOf(g, image) != [] {
      var k := PackagesOf(g, image)[0];
      assert k in multiset(PackagesOf(g, image));
      assert multiset(ImagesOf(r, k))[image] > 0;
    }
  }

  /** Loading a file keeps the agreement when its image was not loaded before, or had no package. */
  lemma SbomAgrees(g: Graph, s: Sbom)
    requires Agree(g) && PackagesOf(g, s.image) == []
    ensures Agree(AddSbom(g, s))
  {
    hide Agree;
    hide AddPackages;
    hide AddEdges;
    if s.document.Some? {
      var d := s.document.value;
      StartAgrees(g, s.image);
      var filled := AddPackages(StartImage(g, s.image), s.image, d.packages, |d.packages|);
      PackagesAgree(StartImage(g, s.image), s.image, d.packages, |d.packages|);
      EdgesKeep(filled, d.relations, |d.relations|);
      EdgesAgree(filled, AddEdges(filled, d.relations, |d.relations|));
    }
  }

  // --- The totals ------------------------------------------------------------------------------------

  predicate Distinct(s: seq<string>) {
    forall i, j | 0 <= i < j < |s| :: s[i] != s[j]
  }

  /** The keys are listed once each. */
  ghost predicate Listing(g: Graph) {
    && Distinct(g.keys) && Distinct(g.names)
    && (forall k :: k in g.keys <==> k in g.packages)
    && (forall i :: i in g.names <==> i in g.images)
  }

  function Sum(ks: seq<string>, f: string -> nat): nat {
    if ks == [] then 0 else f(ks[0]) + Sum(ks[1..], f)
  }

  /** All entries in the lists of the packages. */
  function Uses(g: Graph): nat {
    Sum(g.keys, UsesAt(g))
  }

  function UsesAt(g: Graph): string -> nat {
    key => |ImagesOf(g, key)|
  }

  /** All entries in the lists of the images. */
  function Holdings(g: Graph): nat {
    Sum(g.names, HoldingsAt(g))
  }

  function HoldingsAt(g: Graph): string -> nat {
    image => |PackagesOf(g, image)|
  }

  /** One more at one key. */
  lemma {:induction false} SumGrows(ks: seq<string>, f: string -> nat, h: string -> nat, key: string)
    requires Distinct(ks) && forall x :: h(x) == f(x) + if x == key then 1 else 0
    ensures Sum(ks, h) == Sum(ks, f) + if key in ks then 1 else 0
  {
    if ks != [] {
      assert Distinct(ks[1..]);
      SumGrows(ks[1..], f, h, key);
      assert ks == [ks[0]] + ks[1..];
      assert ks[0] !in ks[1..];
    }
  }

  lemma {:induction false} SumAppend(ks: seq<string>, k: string, f: string -> nat)
    ensures Sum(ks + [k], f) == Sum(ks, f) + f(k)
  {
    if ks == [] {
      assert [k][1..] == [];
    } else {
      assert (ks + [k])[1..] == ks[1..] + [k];
      SumAppend(ks[1..], k, f);
    }
  }

  lemma {:induction false} SumSame(ks: seq<string>, f: string -> nat, h: string -> nat)
    requires forall x :: h(x) == f(x)
    ensures Sum(ks, h) == Sum(ks, f)
  {
    if ks != [] {
      SumSame(ks[1..], f, h);
    }
  }

  lemma DistinctAppend(s: seq<string>, x: string)
    requires Distinct(s) && x !in s
    ensures Distinct(s + [x])
  {
  }

  /** What adding a package does to the two kinds of lists. */
  lemma AddedLists(g: Graph, image: string, p: Listed)
    requires image in g.images && p.name != ""
    ensures var r := AddPackage(g, image, p);
            && (forall k :: UsesAt(r)(k) == UsesAt(g)(k) + if k == Key(p) then 1 else 0)
            && (forall i :: HoldingsAt(r)(i) == HoldingsAt(g)(i) + if i == image then 1 else 0)
            && UsesAt(g)(Key(p)) >= 0
            && (Key(p) !in g.packages ==> UsesAt(r)(Key(p)) == 1)
  {
    hide Key;
    var r, key := AddPackage(g, image, p), Key(p);
    assert forall k :: ImagesOf(r, k) == if k == key then ImagesOf(g, k) + [image] else ImagesOf(g, k);
    assert forall i :: PackagesOf(r, i) == if i == image then PackagesOf(g, i) + [key] else PackagesOf(g, i);
  }

  lemma AddedListing(g: Graph, image: string, p: Listed)
    requires image in g.images && Listing(g)
    ensures Listing(AddPackage(g, image, p))
  {
    hide Key;
    if p.name != "" && Key(p) !in g.packages {
      DistinctAppend(g.keys, Key(p));
    }
  }

  lemma PackageTotals(g: Graph, image: string, p: Listed)
    requires image in g.images && Listing(g)
    ensures var r := AddPackage(g, image, p);
            Listing(r) && Uses(r) - Uses(g) == Holdings(r) - Holdings(g)
  {
    hide Key;
    hide UsesAt;
    hide HoldingsAt;
    hide Sum;
    AddedListing(g, image, p);
    var r, key := AddPackage(g, image, p), Key(p);
    if p.name != "" {
      AddedLists(g, image, p);
      SumGrows(g.keys, UsesAt(g), UsesAt(r), key);
      SumGrows(g.names, HoldingsAt(g), HoldingsAt(r), image);
      if key !in g.packages {
        SumAppend(g.keys, key, UsesAt(r));
      }
    }
  }

  lemma {:induction false} PackagesTotals(g: Graph, image: string, ps: seq<Listed>, n: nat)
    requires image in g.images && n <= |ps| && Listing(g)
    ensures var r := AddPackages(g, image, ps, n);
            Listing(r) && Uses(r) - Uses(g) == Holdings(r) - Holdings(g)
  {
    hide Listing;
    hide AddPackage;
    hide Uses;
    hide Holdings;
    if n > 0 {
      PackagesTotals(g, image, ps, n - 1);
      PackageTotals(AddPackages(g, image, ps, n - 1), image, ps[n - 1]);
    }
  }

  lemma StartedLists(g: Graph, image: string)
    requires PackagesOf(g, image) == []
    ensures var r := StartImage(g, image);
            && (forall k :: UsesAt(r)(k) == UsesAt(g)(k)) && (forall i :: HoldingsAt(r)(i) == HoldingsAt(g)(i))
            && HoldingsAt(r)(image) == 0
  {
    var r := StartImage(g, image);
    assert forall k :: ImagesOf(r, k) == ImagesOf(g, k);
    assert forall i :: PackagesOf(r, i) == PackagesOf(g, i);
  }

  lemma StartTotals(g: Graph, image: string)
    requires Listing(g) && PackagesOf(g, image) == []
    ensures var r := StartImage(g, image); Listing(r) && Uses(r) == Uses(g) && Holdings(r) == Holdings(g)
  {
    hide UsesAt;
    hide HoldingsAt;
    hide Sum;
    var r := StartImage(g, image);
    StartedLists(g, image);
    SumSame(g.keys, UsesAt(g), UsesAt(r));
    SumSame(g.names, HoldingsAt(g), HoldingsAt(r));
    if image !in g.images {
      SumAppend(g.names, image, HoldingsAt(r));
      DistinctAppend(g.names, image);
    }
  }

  lemma EdgesTotals(g: Graph, h: Graph)
    requires h.(edges := g.edges) == g && Listing(g)
    ensures Listing(h) && Uses(h) == Uses(g) && Holdings(h) == Holdings(g)
  {
    assert forall k :: ImagesOf(h, k) == ImagesOf(g, k);
    assert forall i :: PackagesOf(h, i) == PackagesOf(g, i);
    SumSame(g.keys, UsesAt(g), UsesAt(h));
    SumSame(g.names, HoldingsAt(g), HoldingsAt(h));
  }

  /** The two directions agree, and so do their totals. */
  ghost predicate Sound(g: Graph) {
    Agree(g) && Listing(g) && Uses(g) == Holdings(g)
  }

  lemma SbomSound(g: Graph, s: Sbom)
    requires Sound(g) && PackagesOf(g, s.image) == []
    ensures Sound(AddSbom(g, s))
  {
    SbomAgrees(g, s);
    hide Agree;
    hide Listing;
    hide Uses;
    hide Holdings;
    hide AddPackages;
    hide AddEdges;
    if s.document.Some? {
      var d := s.document.value;
      var filled := AddPackages(StartImage(g, s.image), s.image, d.packages, |d.packages|);
      StartTotals(g, s.image);
      PackagesTotals(StartImage(g, s.image), s.image, d.packages, |d.packages|);
      EdgesKeep(filled, d.relations, |d.relations|);
      EdgesTotals(filled, AddEdges(filled, d.relations, |d.relations|));
    }
  }

  /** The files are of different images. */
  predicate DistinctImages(ss: seq<Sbom>) {
    forall i, j | 0 <= i < j < |ss| :: ss[i].image != ss[j].image
  }

  lemma {:induction false} AddPackagesNames(g: Graph, image: string, ps: seq<Listed>, n: nat)
    requires image in g.images && n <= |ps|
    ensures AddPackages(g, image, ps, n).images.Keys == g.images.Keys
  {
    hide Key;
    if n > 0 {
      AddPackagesNames(g, image, ps, n - 1);
    }
  }

  lemma SbomNames(g: Graph, s: Sbom)
    ensures forall i :: i in AddSbom(g, s).images ==> i in g.images || i == s.image
  {
    if s.document.Some? {
      var d := s.document.value;
      var started := StartImage(g, s.image);
      AddPackagesNames(started, s.image, d.packages, |d.packages|);
      var filled := AddPackages(started, s.image, d.packages, |d.packages|);
      EdgesKeep(filled, d.relations, |d.relations|);
      hide AddPackages;
      hide AddEdges;
      assert forall i :: i in filled.images <==> i in filled.images.Keys;
      assert forall i :: i in started.images <==> i in started.images.Keys;
    }
  }

  /** After any series of files of different images the index agrees with itself. */
  lemma {:induction false} IndexIsSound(ss: seq<Sbom>, n: nat)
    requires n <= |ss| && DistinctImages(ss)
    ensures Sound(AddSboms(Empty, ss, n))
    ensures forall i :: i in AddSboms(Empty, ss, n).images ==> exists k :: 0 <= k < n && ss[k].image == i
  {
    hide Sound;
    hide AddSbom;
    if n == 0 {
      EmptySound();
    } else {
      IndexIsSound(ss, n - 1);
      var g := AddSboms(Empty, ss, n - 1);
      SbomSound(g, ss[n - 1]);
      SbomNames(g, ss[n - 1]);
      forall i | i in AddSboms(Empty, ss, n).images ensures exists k :: 0 <= k < n && ss[k].image == i {
        if i in g.images {
          var k :| 0 <= k < n - 1 && ss[k].image == i;
        } else {
          assert ss[n - 1].image == i;
        }
      }
    }
  }

  lemma EmptySound()
    ensures Sound(Empty)
  {
    assert forall k :: ImagesOf(Empty, k) == [];
    assert forall i :: PackagesOf(Empty, i) == [];
  }

  /** Loading an image twice breaks the agreement exactly when its first list held a package. */
  lemma LoadedTwice(g: Graph, s: Sbom)
    requires Agree(g) && s.document.Some?
    ensures Agree(AddSbom(g, s)) <==> PackagesOf(g, s.image) == []
  {
    if PackagesOf(g, s.image) == [] {
      SbomAgrees(g, s);
    } else {
      var d, started := s.document.value, StartImage(g, s.image);
      StartAgrees(g, s.image);
      var filled := AddPackages(started, s.image, d.packages, |d.packages|);
      var k := Disagreement(g, s.image);
      Lasting(started, s.image, d.packages, |d.packages|, k);
      EdgesKeep(filled, d.relations, |d.relations|);
      EdgesAgree(filled, AddEdges(filled, d.relations, |d.relations|));
      assert !Agree(filled);
    }
  }

  lemma Disagreement(g: Graph, image: string) returns (k: string)
    requires Agree(g) && PackagesOf(g, image) != []
    ensures multiset(ImagesOf(StartImage(g, image), k))[image] > multiset(PackagesOf(StartImage(g, image), image))[k]
  {
    k := PackagesOf(g, image)[0];
    assert k in multiset(PackagesOf(g, image));
    assert multiset(ImagesOf(g, k))[image] == multiset(PackagesOf(g, image))[k] > 0;
    assert PackagesOf(StartImage(g, image), image) == [];
  }

  lemma LastingOne(g: Graph, image: string, p: Listed, k: string)
    requires image in g.images && multiset(ImagesOf(g, k))[image] > multiset(PackagesOf(g, image))[k]
    ensures var r := AddPackage(g, image, p); multiset(ImagesOf(r, k))[image] > multiset(PackagesOf(r, image))[k]
  {
    hide Key;
    if p.name != "" {
      var r, added := AddPackage(g, image, p), Key(p);
      assert ImagesOf(r, k) == if k == added then ImagesOf(g, k) + [image] else ImagesOf(g, k);
      assert PackagesOf(r, image) == PackagesOf(g, image) + [added];
      CountAppend(ImagesOf(g, k), image, image);
      CountAppend(PackagesOf(g, image), added, k);
    }
  }

  /** A difference stays, whatever packages are added. */
  lemma {:induction false} Lasting(g: Graph, image: string, ps: seq<Listed>, n: nat, k: string)
    requires image in g.images && n <= |ps|
    requires multiset(ImagesOf(g, k))[image] > multiset(PackagesOf(g, image))[k]
    ensures var r := AddPackages(g, image, ps, n); multiset(ImagesOf(r, k))[image] > multiset(PackagesOf(r, image))[k]
  {
    hide AddPackage;
    hide ImagesOf;
    hide PackagesOf;
    if n > 0 {
      Lasting(g, image, ps, n - 1, k);
      LastingOne(AddPackages(g, image, ps, n - 1), image, ps[n - 1], k);
    }
  }

  // --- The most shared packages ---------------------------------------------------------------------

  lemma SharedTotal()
    ensures TotalOrder(MoreShared)
  {
  }

  /**
   The list of the n most shared packages: it is sorted, it holds n packages or all shared ones,
   and no shared package that is left out is in more images than one that is listed.
   */
  lemma TopIsMostShared(g: Graph, n: nat) returns (rest: seq<Shared>)
    ensures var all := SharedUpto(g, |g.keys|);
            var top := Top(Sort(all, MoreShared), n);
            && Ordered(top, MoreShared)
            && |top| == (if n <= |all| then n else |all|)
            && multiset(top) + multiset(rest) == multiset(all)
            && forall i, j | 0 <= i < |top| && 0 <= j < |rest| :: MoreShared(top[i], rest[j])
  {
    hide MoreShared;
    hide SharedUpto;
    hide Sort;
    var all := SharedUpto(g, |g.keys|);
    var sorted := Sort(all, MoreShared);
    SharedTotal();
    SortOrdered(all, MoreShared);
    SortBag(all, MoreShared);
    rest := sorted[|Top(sorted, n)|..];
    assert sorted == Top(sorted, n) + rest;
  }

  /** A package is in the list of shared ones exactly when its own list holds more than one image. */
  lemma {:induction false} SharedExactly(g: Graph, n: nat, x: Shared)
    requires n <= |g.keys|
    ensures x in SharedUpto(g, n) <==>
            exists i :: 0 <= i < n && g.keys[i] in g.packages && |g.packages[g.keys[i]].images| > 1 &&
                        SharedOf(g.packages[g.keys[i]]) == x
  {
    if n > 0 {
      SharedExactly(g, n - 1, x);
    }
  }

  // --- What the documents say -----------------------------------------------------------------------

  /** The relation stands for a dependency of source on target. */
  predicate Depends(r: Relation, source: string, target: string) {
    r.source == source && r.target == target && (r.kind == "DEPENDS_ON" || r.kind == "CONTAINS")
  }

  ghost predicate Said(ss: seq<Sbom>, n: nat, source: string, target: string)
    requires n <= |ss|
  {
    exists i :: 0 <= i < n && SaidBy(ss[i], source, target)
  }

  ghost predicate SaidBy(s: Sbom, source: string, target: string) {
    s.document.Some? && exists r :: r in s.document.value.relations && Depends(r, source, target)
  }

  lemma {:induction false} EdgesIn(g: Graph, rs: seq<Relation>, n: nat, source: string, target: string)
    requires n <= |rs|
    ensures (source, target) in AddEdges(g, rs, n).edges <==>
            (source, target) in g.edges || exists i :: 0 <= i < n && Depends(rs[i], source, target)
  {
    if n > 0 {
      EdgesIn(g, rs, n - 1, source, target);
      var before, after := AddEdges(g, rs, n - 1).edges, AddEdges(g, rs, n).edges;
      if Depends(rs[n - 1], source, target) {
        assert after == before + [(source, target)];
      } else {
        assert (source, target) in after <==> (source, target) in before;
      }
    }
  }

  lemma {:induction false} PackagesKeepEdges(g: Graph, image: string, ps: seq<Listed>, n: nat)
    requires image in g.images && n <= |ps|
    ensures AddPackages(g, image, ps, n).edges == g.edges
  {
    if n > 0 {
      PackagesKeepEdges(g, image, ps, n - 1);
    }
  }

  lemma SbomEdges(g: Graph, s: Sbom, source: string, target: string)
    ensures (source, target) in AddSbom(g, s).edges <==> (source, target) in g.edges || SaidBy(s, source, target)
  {
    if s.document.Some? {
      var d := s.document.value;
      var started := StartImage(g, s.image);
      PackagesKeepEdges(started, s.image, d.packages, |d.packages|);
      EdgesIn(AddPackages(started, s.image, d.packages, |d.packages|), d.relations, |d.relations|, source, target);
      hide Depends;
      if i :| 0 <= i < |d.relations| && Depends(d.relations[i], source, target) {
        assert d.relations[i] in d.relations;
      }
    }
  }

  /** An edge leads from source to target exactly when some document says that source depends on or contains target. */
  lemma {:induction false} EdgesExactly(ss: seq<Sbom>, n: nat, source: string, target: string)
    requires n <= |ss|
    ensures (source, target) in AddSboms(Empty, ss, n).edges <==> Said(ss, n, source, target)
  {
    hide AddSbom;
    hide SaidBy;
    if n > 0 {
      EdgesExactly(ss, n - 1, source, target);
      SbomEdges(AddSboms(Empty, ss, n - 1), ss[n - 1], source, target);
      if Said(ss, n, source, target) && !SaidBy(ss[n - 1], source, target) {
        var i :| 0 <= i < n && SaidBy(ss[i], source, target);
        assert i < n - 1;
      }
    }
  }

  /** The keys of the packages that have a name. */
  function NamedKeys(ps: seq<Listed>): seq<string> {
    if ps == [] then [] else
    (if ps[0].name == "" then [] else [ps[0].name + "@" + ps[0].version]) + NamedKeys(ps[1..])
  }

  lemma {:induction false} NamedAppend(a: seq<Listed>, b: seq<Listed>)
    ensures NamedKeys(a + b) == NamedKeys(a) + NamedKeys(b)
  {
    if a == [] {
      assert a + b == b;
    } else {
      assert (a + b)[1..] == a[1..] + b;
      NamedAppend(a[1..], b);
    }
  }

  lemma KeyText(p: Listed)
    ensures Key(p) == p.name + "@" + p.version
  {
  }

  lemma {:induction false} ListGrows(g: Graph, image: string, ps: seq<Listed>, n: nat)
    requires image in g.images && n <= |ps|
    ensures PackagesOf(AddPackages(g, image, ps, n), image) == PackagesOf(g, image) + NamedKeys(ps[..n])
    ensures forall other | other != image :: PackagesOf(AddPackages(g, image, ps, n), other) == PackagesOf(g, other)
  {
    hide Key;
    if n > 0 {
      ListGrows(g, image, ps, n - 1);
      assert ps[..n] == ps[..n - 1] + [ps[n - 1]];
      NamedAppend(ps[..n - 1], [ps[n - 1]]);
      assert [ps[n - 1]][1..] == [];
      KeyText(ps[n - 1]);
      hide NamedKeys;
    } else {
      assert ps[..0] == [];
    }
  }

  lemma SbomLists(g: Graph, s: Sbom, image: string)
    ensures PackagesOf(AddSbom(g, s), image) ==
            if s.image == image && s.document.Some? then NamedKeys(s.document.value.packages) else PackagesOf(g, image)
  {
    if s.document.Some? {
      var d, started := s.document.value, StartImage(g, s.image);
      ListGrows(started, s.image, d.packages, |d.packages|);
      assert d.packages[..|d.packages|] == d.packages;
      var filled := AddPackages(started, s.image, d.packages, |d.packages|);
      EdgesKeep(filled, d.relations, |d.relations|);
      assert AddSbom(g, s).images == filled.images;
      if image == s.image {
        assert PackagesOf(started, image) == [];
      } else {
        assert PackagesOf(filled, image) == PackagesOf(started, image) == PackagesOf(g, image);
      }
      hide AddPackages;
      hide AddEdges;
      hide NamedKeys;
    }
  }

  /** The list of an image holds the named packages of its last readable file, in order, by name and version. */
  lemma {:induction false} ImageHolds(ss: seq<Sbom>, n: nat, i: nat)
    requires i < n <= |ss| && ss[i].document.Some?
    requires forall j | i < j < n :: ss[j].image != ss[i].image || ss[j].document == None
    ensures PackagesOf(AddSboms(Empty, ss, n), ss[i].image) == NamedKeys(ss[i].document.value.packages)
  {
    hide AddSbom;
    hide NamedKeys;
    hide PackagesOf;
    SbomLists(AddSboms(Empty, ss, n - 1), ss[n - 1], ss[i].image);
    if i < n - 1 {
      ImageHolds(ss, n - 1, i);
    }
  }

  /** Every entry is filed under its own name and version. */
  ghost predicate Filed(g: Graph) {
    forall k | k in g.packages :: k == g.packages[k].name + "@" + g.packages[k].version
  }

  lemma {:induction false} PackagesFiled(g: Graph, image: string, ps: seq<Listed>, n: nat)
    requires image in g.images && n <= |ps| && Filed(g)
    ensures Filed(AddPackages(g, image, ps, n))
  {
    hide Key;
    if n > 0 {
      PackagesFiled(g, image, ps, n - 1);
      KeyText(ps[n - 1]);
    }
  }

  lemma {:induction false} AllFiled(ss: seq<Sbom>, n: nat)
    requires n <= |ss|
    ensures Filed(AddSboms(Empty, ss, n))
  {
    if n > 0 {
      AllFiled(ss, n - 1);
      var g, s := AddSboms(Empty, ss, n - 1), ss[n - 1];
      if s.document.Some? {
        var d, started := s.document.value, StartImage(g, s.image);
        PackagesFiled(started, s.image, d.packages, |d.packages|);
        var filled := AddPackages(started, s.image, d.packages, |d.packages|);
        EdgesKeep(filled, d.relations, |d.relations|);
        hide AddPackages;
        hide AddEdges;
      }
    }
  }
}
