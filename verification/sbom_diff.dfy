/** sbom_diff.py: the difference of two documents, as a patch. */
module SbomDiff {
  import opened Text
  import opened Sorting
  import Extract

  // --- Sorted names ---------------------------------------------------------------------------

  predicate LeName(a: string, b: string) {
    CompareText(a, b) <= 0
  }

  lemma NamesTotal()
    ensures TotalOrder(LeName) && forall a, b :: LeName(a, b) && LeName(b, a) ==> a == b
  {
    forall a, b ensures (LeName(a, b) || LeName(b, a)) && (LeName(a, b) && LeName(b, a) ==> a == b) {
      TextOrder(a, b);
    }
    forall a, b, c ensures LeName(a, b) && LeName(b, c) ==> LeName(a, c) {
      if LeName(a, b) && LeName(b, c) {
        TextTransitive(a, b, c);
      }
    }
  }

  lemma {:induction false} LeastExists(s: set<string>) returns (m: string)
    requires s != {}
    ensures m in s && forall x | x in s :: LeName(m, x)
    decreases |s|
  {
    NamesTotal();
    hide LeName;
    var y :| y in s;
    var rest := s - {y};
    assert s == rest + {y};
    if rest == {} {
      m := y;
    } else {
      m := LeastExists(rest);
      if !LeName(m, y) {
        m := y;
      }
    }
  }

  lemma LeastIsUnique(s: set<string>)
    requires s != {}
    ensures exists m :: m in s && forall x | x in s :: LeName(m, x)
    ensures forall a, b :: LeName(a, b) && LeName(b, a) ==> a == b
  {
    NamesTotal();
    var m := LeastExists(s);
  }

  /** `sorted` of a set. */
  function SortedOf(s: set<string>): (r: seq<string>)
    ensures |r| == |s| && forall x :: x in r <==> x in s
  {
    if s == {} then [] else
    LeastIsUnique(s);
    var m :| m in s && forall x | x in s :: LeName(m, x);
    [m] + SortedOf(s - {m})
  }

  // --- Documents ---------------------------------------------------------------------------------

  datatype Package = Package(version: string, license: string, supplier: string, location: string)

  datatype Relation = Relation(source: string, target: string, kind: string)

  datatype Document = Document(packages: map<string, Package>, relations: seq<Relation>)

  /** The relations by their ends; of several between the same ends the last one counts. */
  function RelationsOf(rs: seq<Relation>, n: nat): map<(string, string), string>
    requires n <= |rs|
  {
    if n == 0 then map[] else RelationsOf(rs, n - 1)[(rs[n - 1].source, rs[n - 1].target) := rs[n - 1].kind]
  }

  datatype VersionChange = VersionChange(package: string, old_version: string, new_version: string, upgrade: bool)

  datatype LicenseChange = LicenseChange(package: string, old_license: string, new_license: string)

  datatype Listed = Listed(name: string, package: Package)

  datatype Summary = Summary(old_total: nat, new_total: nat, added: nat, removed: nat,
                             version_changes: nat, license_changes: nat, dependency_changes: nat)

  datatype Diff = Diff(summary: Summary, added: seq<Listed>, removed: seq<Listed>,
                       versions: seq<VersionChange>, licenses: seq<LicenseChange>,
                       relationsAdded: set<(string, string)>, relationsRemoved: set<(string, string)>)

  // --- Upgrades ------------------------------------------------------------------------------------

  /** The numeric parts of a version. */
  function Parts(words: seq<string>): seq<nat> {
    if words == [] then [] else
    (if Numeral(words[0]) then [Extract.Value(words[0])] else []) + Parts(words[1..])
  }

  /** Python's order of lists. */
  predicate Above(a: seq<nat>, b: seq<nat>) {
    a != [] && (b == [] || a[0] > b[0] || (a[0] == b[0] && Above(a[1..], b[1..])))
  }

  /** `_is_upgrade` */
  predicate IsUpgrade(old_version: string, new_version: string) {
    var o, n := Parts(Split(old_version, '.')), Parts(Split(new_version, '.'));
    o != [] && n != [] && Above(n, o)
  }

  lemma {:induction false} AboveStrict(a: seq<nat>, b: seq<nat>)
    ensures !(Above(a, b) && Above(b, a)) && (Above(a, b) || Above(b, a) <==> a != b)
  {
    if a != [] && b != [] {
      AboveStrict(a[1..], b[1..]);
      assert a == [a[0]] + a[1..] && b == [b[0]] + b[1..];
    }
  }

  lemma {:induction false} AboveTransitive(a: seq<nat>, b: seq<nat>, c: seq<nat>)
    requires Above(a, b) && Above(b, c)
    ensures Above(a, c)
  {
    if c != [] && a[0] == b[0] == c[0] {
      AboveTransitive(a[1..], b[1..], c[1..]);
    }
  }

  /** Upgrading is a strict order, and it tells any two versions apart that differ in their numeric parts. */
  lemma UpgradeIsStrict(u: string, v: string, w: string)
    ensures !IsUpgrade(u, u) && !(IsUpgrade(u, v) && IsUpgrade(v, u))
    ensures IsUpgrade(u, v) && IsUpgrade(v, w) ==> IsUpgrade(u, w)
    ensures var p, q := Parts(Split(u, '.')), Parts(Split(v, '.'));
            p != [] && q != [] ==> (IsUpgrade(u, v) || IsUpgrade(v, u) <==> p != q)
  {
    hide Parts;
    var p, q, r := Parts(Split(u, '.')), Parts(Split(v, '.')), Parts(Split(w, '.'));
    AboveStrict(p, p);
    AboveStrict(p, q);
    if Above(q, p) && Above(r, q) {
      AboveTransitive(r, q, p);
    }
  }

  /** a is b up to some place, and there a goes on, or has the larger number. */
  ghost predicate Higher(a: seq<nat>, b: seq<nat>) {
    exists k :: HigherAt(a, b, k)
  }

  predicate HigherAt(a: seq<nat>, b: seq<nat>, k: int) {
    0 <= k <= |b| && k < |a| && a[..k] == b[..k] && (k == |b| || a[k] > b[k])
  }

  lemma {:induction false} AboveExactly(a: seq<nat>, b: seq<nat>)
    ensures Above(a, b) <==> Higher(a, b)
  {
    if a != [] && b != [] && a[0] == b[0] {
      AboveExactly(a[1..], b[1..]);
      assert a == [a[0]] + a[1..] && b == [b[0]] + b[1..];
      if k :| HigherAt(a[1..], b[1..], k) {
        assert HigherAt(a, b, k + 1);
      }
      if k :| HigherAt(a, b, k) {
        assert k > 0 && a[1..][..k - 1] == a[..k][1..] == b[..k][1..] == b[1..][..k - 1];
        assert HigherAt(a[1..], b[1..], k - 1);
      }
    } else if Above(a, b) {
      assert HigherAt(a, b, 0);
    } else if k :| HigherAt(a, b, k) {
      HigherFirst(a, b, k);
    }
  }

  lemma HigherFirst(a: seq<nat>, b: seq<nat>, k: int)
    ensures HigherAt(a, b, k) ==> a != [] && (b == [] || a[0] >= b[0])
  {
    if HigherAt(a, b, k) && k > 0 {
      assert a[0] == a[..k][0] == b[..k][0] == b[0];
    }
  }

  /** An upgrade has the larger number at the first place where the numeric parts differ, or more of them. */
  lemma UpgradeExactly(u: string, v: string)
    ensures var p, q := Parts(Split(u, '.')), Parts(Split(v, '.'));
            IsUpgrade(u, v) <==> p != [] && q != [] && Higher(q, p)
  {
    hide Parts;
    AboveExactly(Parts(Split(v, '.')), Parts(Split(u, '.')));
  }

  // --- The difference ---------------------------------------------------------------------------------

  function Listing(names: seq<string>, packages: map<string, Package>): seq<Listed> {
    if names == [] then [] else
    (if names[0] in packages then [Listed(names[0], packages[names[0]])] else []) + Listing(names[1..], packages)
  }

  function Versions(names: seq<string>, a: map<string, Package>, b: map<string, Package>): seq<VersionChange>
    requires forall x | x in names :: x in a && x in b
  {
    if names == [] then [] else
    var n := |names| - 1;
    var old_version, new_version := a[names[n]].version, b[names[n]].version;
    Versions(names[..n], a, b) +
    if old_version != new_version then
      [VersionChange(names[n], old_version, new_version, IsUpgrade(old_version, new_version))]
    else []
  }

  function Licenses(names: seq<string>, a: map<string, Package>, b: map<string, Package>): seq<LicenseChange>
    requires forall x | x in names :: x in a && x in b
  {
    if names == [] then [] else
    var n := |names| - 1;
    Licenses(names[..n], a, b) +
    if a[names[n]].license != b[names[n]].license then
      [LicenseChange(names[n], a[names[n]].license, b[names[n]].license)]
    else []
  }

  function DiffOf(a: Document, b: Document): Diff {
    var added, removed := b.packages.Keys - a.packages.Keys, a.packages.Keys - b.packages.Keys;
    var common := SortedOf(a.packages.Keys * b.packages.Keys);
    var versions := Versions(common, a.packages, b.packages);
    var licenses := Licenses(common, a.packages, b.packages);
    var aRels, bRels := RelationsOf(a.relations, |a.relations|).Keys, RelationsOf(b.relations, |b.relations|).Keys;
    Diff(Summary(|a.packages|, |b.packages|, |added|, |removed|, |versions|, |licenses|, |bRels - aRels| + |aRels - bRels|),
         Listing(SortedOf(added), b.packages), Listing(SortedOf(removed), a.packages), versions, licenses,
         bRels - aRels, aRels - bRels)
  }

  method DiffSboms(a: Document, b: Document) returns (diff: Diff)
    ensures diff == DiffOf(a, b)
  {
    hide SortedOf;
    hide Listing;
    hide Versions;
    hide Licenses;
    var added, removed := b.packages.Keys - a.packages.Keys, a.packages.Keys - b.packages.Keys;
    var common := SortedOf(a.packages.Keys * b.packages.Keys);
    var versions := CollectVersions(common, a.packages, b.packages);
    var licenses := CollectLicenses(common, a.packages, b.packages);
    var aRels := CollectRelations(a.relations);
    var bRels := CollectRelations(b.relations);
    diff := Diff(Summary(|a.packages|, |b.packages|, |added|, |removed|, |versions|, |licenses|,
                         |bRels.Keys - aRels.Keys| + |aRels.Keys - bRels.Keys|),
                 Listing(SortedOf(added), b.packages), Listing(SortedOf(removed), a.packages), versions, licenses,
                 bRels.Keys - aRels.Keys, aRels.Keys - bRels.Keys);
  }

  method CollectVersions(common: seq<string>, a: map<string, Package>, b: map<string, Package>)
    returns (versions: seq<VersionChange>)
    requires forall x | x in common :: x in a && x in b
    ensures versions == Versions(common, a, b)
  {
    hide IsUpgrade;
    versions := [];
    for i := 0 to |common|
      invariant versions == Versions(common[..i], a, b)
    {
      assert common[..i + 1][..i] == common[..i] && common[i] in common;
      var oldVersion, newVersion := a[common[i]].version, b[common[i]].version;
      if oldVersion != newVersion {
        versions := versions + [VersionChange(common[i], oldVersion, newVersion, IsUpgrade(oldVersion, newVersion))];
      }
    }
    assert common[..|common|] == common;
  }

  method CollectLicenses(common: seq<string>, a: map<string, Package>, b: map<string, Package>)
    returns (licenses: seq<LicenseChange>)
    requires forall x | x in common :: x in a && x in b
    ensures licenses == Licenses(common, a, b)
  {
    licenses := [];
    for i := 0 to |common|
      invariant licenses == Licenses(common[..i], a, b)
    {
      assert common[..i + 1][..i] == common[..i] && common[i] in common;
      var oldLicense, newLicense := a[common[i]].license, b[common[i]].license;
      if oldLicense != newLicense {
        licenses := licenses + [LicenseChange(common[i], oldLicense, newLicense)];
      }
    }
    assert common[..|common|] == common;
  }

  method CollectRelations(rs: seq<Relation>) returns (r: map<(string, string), string>)
    ensures r == RelationsOf(rs, |rs|)
  {
    r := map[];
    for i := 0 to |rs|
      invariant r == RelationsOf(rs, i)
    {
      r := r[(rs[i].source, rs[i].target) := rs[i].kind];
    }
  }

  // --- The patch -----------------------------------------------------------------------------------

  /** What the difference speaks of: version and licence by name. */
  function View(packages: map<string, Package>): map<string, (string, string)> {
    map x | x in packages :: (packages[x].version, packages[x].license)
  }

  function WithAdded(m: map<string, (string, string)>, added: seq<Listed>): map<string, (string, string)> {
    if added == [] then m else
    WithAdded(m, added[1..])[added[0].name := (added[0].package.version, added[0].package.license)]
  }

  function WithVersions(m: map<string, (string, string)>, cs: seq<VersionChange>): map<string, (string, string)> {
    if cs == [] then m else
    var r := WithVersions(m, cs[..|cs| - 1]);
    var c := cs[|cs| - 1];
    if c.package in r then r[c.package := (c.new_version, r[c.package].1)] else r
  }

  function WithLicenses(m: map<string, (string, string)>, cs: seq<LicenseChange>): map<string, (string, string)> {
    if cs == [] then m else
    var r := WithLicenses(m, cs[..|cs| - 1]);
    var c := cs[|cs| - 1];
    if c.package in r then r[c.package := (r[c.package].0, c.new_license)] else r
  }

  function NamesIn(ls: seq<Listed>): set<string> {
    set l | l in ls :: l.name
  }

  /** Removing, adding, and changing what the difference says. */
  function Patch(m: map<string, (string, string)>, d: Diff): map<string, (string, string)> {
    WithAdded(WithLicenses(WithVersions(m - NamesIn(d.removed), d.versions), d.licenses), d.added)
  }

  lemma {:induction false} ListingNames(names: seq<string>, packages: map<string, Package>)
    requires forall x | x in names :: x in packages
    ensures forall l :: l in Listing(names, packages) <==> l.name in names && l.name in packages && l.package == packages[l.name]
  {
    if names != [] {
      ListingNames(names[1..], packages);
      assert names == [names[0]] + names[1..];
    }
  }

  lemma {:induction false} AddedView(m: map<string, (string, string)>, names: seq<string>, packages: map<string, Package>)
    requires forall x | x in names :: x in packages
    ensures var r := WithAdded(m, Listing(names, packages));
            && (forall x :: x in r <==> x in m || x in names)
            && (forall x | x in r :: r[x] == if x in names then (packages[x].version, packages[x].license) else m[x])
  {
    if names != [] {
      AddedView(m, names[1..], packages);
      assert names == [names[0]] + names[1..];
      var rest := Listing(names[1..], packages);
      assert ([Listed(names[0], packages[names[0]])] + rest)[1..] == rest;
    }
  }

  /** What the change of the last name does. */
  lemma VersionsStep(m: map<string, (string, string)>, names: seq<string>, a: map<string, Package>, b: map<string, Package>)
    requires names != [] && forall x | x in names :: x in a && x in b
    ensures var n := |names| - 1;
            var r := WithVersions(m, Versions(names[..n], a, b));
            WithVersions(m, Versions(names, a, b)) ==
            if a[names[n]].version != b[names[n]].version && names[n] in r
            then r[names[n] := (b[names[n]].version, r[names[n]].1)] else r
  {
    hide IsUpgrade;
    var n := |names| - 1;
    var before, all := Versions(names[..n], a, b), Versions(names, a, b);
    if a[names[n]].version != b[names[n]].version {
      assert all[..|all| - 1] == before;
    } else {
      assert before + [] == before;
    }
  }

  lemma {:induction false} VersionsView(m: map<string, (string, string)>, names: seq<string>,
                                        a: map<string, Package>, b: map<string, Package>)
    requires forall x | x in names :: x in a && x in b && x in m && m[x].0 == a[x].version
    ensures var r := WithVersions(m, Versions(names, a, b));
            && r.Keys == m.Keys
            && (forall x | x in m :: r[x] == if x in names then (b[x].version, m[x].1) else m[x])
  {
    hide Versions;
    if names != [] {
      hide WithVersions;
      var n := |names| - 1;
      VersionsView(m, names[..n], a, b);
      VersionsStep(m, names, a, b);
      assert names == names[..n] + [names[n]];
    } else {
      assert Versions(names, a, b) == [] by { NoVersions(a, b); }
    }
  }

  lemma NoVersions(a: map<string, Package>, b: map<string, Package>)
    ensures Versions([], a, b) == []
  {
  }

  lemma LicensesStep(m: map<string, (string, string)>, names: seq<string>, a: map<string, Package>, b: map<string, Package>)
    requires names != [] && forall x | x in names :: x in a && x in b
    ensures var n := |names| - 1;
            var r := WithLicenses(m, Licenses(names[..n], a, b));
            WithLicenses(m, Licenses(names, a, b)) ==
            if a[names[n]].license != b[names[n]].license && names[n] in r
            then r[names[n] := (r[names[n]].0, b[names[n]].license)] else r
  {
    var n := |names| - 1;
    var before, all := Licenses(names[..n], a, b), Licenses(names, a, b);
    if a[names[n]].license != b[names[n]].license {
      assert all[..|all| - 1] == before;
    } else {
      assert before + [] == before;
    }
  }

  lemma {:induction false} LicensesView(m: map<string, (string, string)>, names: seq<string>,
                                        a: map<string, Package>, b: map<string, Package>)
    requires forall x | x in names :: x in a && x in b && x in m && m[x].1 == a[x].license
    ensures var r := WithLicenses(m, Licenses(names, a, b));
            && r.Keys == m.Keys
            && (forall x | x in m :: r[x] == if x in names then (m[x].0, b[x].license) else m[x])
  {
    hide Licenses;
    if names != [] {
      hide WithLicenses;
      var n := |names| - 1;
      LicensesView(m, names[..n], a, b);
      LicensesStep(m, names, a, b);
      assert names == names[..n] + [names[n]];
    } else {
      assert Licenses(names, a, b) == [] by { NoLicenses(a, b); }
    }
  }

  lemma NoLicenses(a: map<string, Package>, b: map<string, Package>)
    ensures Licenses([], a, b) == []
  {
  }

  lemma RemovedNames(a: map<string, Package>, gone: set<string>)
    requires gone <= a.Keys
    ensures NamesIn(Listing(SortedOf(gone), a)) == gone
  {
    hide SortedOf;
    var ls := Listing(SortedOf(gone), a);
    ListingNames(SortedOf(gone), a);
    forall x | x in gone ensures x in NamesIn(ls) {
      assert Listed(x, a[x]) in ls;
    }
  }

  /** The common packages end up with the new version and licence, whatever the order of the steps. */
  lemma CommonView(a: Document, b: Document)
    ensures var kept := View(a.packages) - (a.packages.Keys - b.packages.Keys);
            var common := SortedOf(a.packages.Keys * b.packages.Keys);
            var r := WithLicenses(WithVersions(kept, Versions(common, a.packages, b.packages)),
                                  Licenses(common, a.packages, b.packages));
            && r.Keys == a.packages.Keys * b.packages.Keys
            && forall x | x in r :: r[x] == (b.packages[x].version, b.packages[x].license)
  {
    hide SortedOf;
    hide WithVersions;
    hide WithLicenses;
    hide Versions;
    hide Licenses;
    var kept := View(a.packages) - (a.packages.Keys - b.packages.Keys);
    var common := SortedOf(a.packages.Keys * b.packages.Keys);
    VersionsView(kept, common, a.packages, b.packages);
    var versioned := WithVersions(kept, Versions(common, a.packages, b.packages));
    LicensesView(versioned, common, a.packages, b.packages);
    assert kept.Keys == a.packages.Keys * b.packages.Keys;
  }

  /** The parts of a difference. */
  lemma DiffParts(a: Document, b: Document)
    ensures var d := DiffOf(a, b);
            var common := SortedOf(a.packages.Keys * b.packages.Keys);
            && d.added == Listing(SortedOf(b.packages.Keys - a.packages.Keys), b.packages)
            && d.removed == Listing(SortedOf(a.packages.Keys - b.packages.Keys), a.packages)
            && d.versions == Versions(common, a.packages, b.packages)
            && d.licenses == Licenses(common, a.packages, b.packages)
    ensures var d := DiffOf(a, b);
            var x, y := RelationsOf(a.relations, |a.relations|), RelationsOf(b.relations, |b.relations|);
            d.relationsAdded == y.Keys - x.Keys && d.relationsRemoved == x.Keys - y.Keys
  {
    hide SortedOf;
    hide Listing;
    hide Versions;
    hide Licenses;
    hide RelationsOf;
  }

  lemma ViewOf(r: map<string, (string, string)>, packages: map<string, Package>)
    requires r.Keys == packages.Keys && forall x | x in r :: r[x] == (packages[x].version, packages[x].license)
    ensures r == View(packages)
  {
  }

  /** The old versions and licences and the difference give exactly the new ones. */
  lemma DiffIsPatch(a: Document, b: Document)
    ensures Patch(View(a.packages), DiffOf(a, b)) == View(b.packages)
  {
    hide SortedOf;
    hide Listing;
    hide NamesIn;
    hide WithAdded;
    hide WithVersions;
    hide WithLicenses;
    hide Versions;
    hide Licenses;
    hide DiffOf;
    hide View;
    DiffParts(a, b);
    var gone, freshNames := a.packages.Keys - b.packages.Keys, b.packages.Keys - a.packages.Keys;
    RemovedNames(a.packages, gone);
    CommonView(a, b);
    var common := SortedOf(a.packages.Keys * b.packages.Keys);
    var licensed := WithLicenses(WithVersions(View(a.packages) - gone, Versions(common, a.packages, b.packages)),
                                 Licenses(common, a.packages, b.packages));
    AddedView(licensed, SortedOf(freshNames), b.packages);
    var r := WithAdded(licensed, Listing(SortedOf(freshNames), b.packages));
    assert forall x :: x in r.Keys <==> x in b.packages.Keys;
    ViewOf(r, b.packages);
  }

  // --- Totals, swapping, relations --------------------------------------------------------------------

  lemma SplitSize(s: set<string>, t: set<string>)
    ensures |s| + |t - s| == |t| + |s - t|
  {
    assert s + t == s + (t - s) && s + t == t + (s - t);
    assert |s + (t - s)| == |s| + |t - s|;
    assert |t + (s - t)| == |t| + |s - t|;
  }

  /** The new total is the old one with the added and without the removed packages. */
  lemma TotalsAdd(a: Document, b: Document)
    ensures var s := DiffOf(a, b).summary; s.new_total + s.removed == s.old_total + s.added
    ensures var d := DiffOf(a, b); |d.added| == d.summary.added && |d.removed| == d.summary.removed
  {
    hide SortedOf;
    hide Versions;
    hide Licenses;
    hide RelationsOf;
    SplitSize(a.packages.Keys, b.packages.Keys);
    ListingSize(SortedOf(b.packages.Keys - a.packages.Keys), b.packages);
    ListingSize(SortedOf(a.packages.Keys - b.packages.Keys), a.packages);
    hide Listing;
  }

  lemma {:induction false} ListingSize(names: seq<string>, packages: map<string, Package>)
    requires forall x | x in names :: x in packages
    ensures |Listing(names, packages)| == |names|
  {
    if names != [] {
      ListingSize(names[1..], packages);
    }
  }

  /** A version change seen from the other side. */
  function Turned(c: VersionChange): VersionChange {
    VersionChange(c.package, c.new_version, c.old_version, IsUpgrade(c.new_version, c.old_version))
  }

  function AllTurned(cs: seq<VersionChange>): (r: seq<VersionChange>)
    ensures |r| == |cs| && forall i | 0 <= i < |cs| :: r[i] == Turned(cs[i])
  {
    seq(|cs|, i requires 0 <= i < |cs| => Turned(cs[i]))
  }

  lemma {:induction false} VersionsTurned(names: seq<string>, a: map<string, Package>, b: map<string, Package>)
    requires forall x | x in names :: x in a && x in b
    ensures Versions(names, b, a) == AllTurned(Versions(names, a, b))
  {
    hide IsUpgrade;
    if names != [] {
      VersionsTurned(names[..|names| - 1], a, b);
    }
  }

  /** Comparing the other way round exchanges added and removed, and turns every change. */
  lemma SwapTurns(a: Document, b: Document)
    ensures var d, e := DiffOf(a, b), DiffOf(b, a);
            && e.added == d.removed && e.removed == d.added
            && e.versions == AllTurned(d.versions)
            && e.relationsAdded == d.relationsRemoved && e.relationsRemoved == d.relationsAdded
  {
    hide Listing;
    hide RelationsOf;
    hide Licenses;
    assert a.packages.Keys * b.packages.Keys == b.packages.Keys * a.packages.Keys;
    var common := SortedOf(a.packages.Keys * b.packages.Keys);
    hide SortedOf;
    VersionsTurned(common, a.packages, b.packages);
    hide Versions;
    hide AllTurned;
  }

  lemma PatchedKinds(x: map<(string, string), string>, y: map<(string, string), string>)
    ensures var patched := (x - (x.Keys - y.Keys)) + (map e | e in y.Keys - x.Keys :: y[e]);
            && patched.Keys == y.Keys
            && (patched == y <==> forall e | e in x && e in y :: x[e] == y[e])
  {
    var patched := (x - (x.Keys - y.Keys)) + (map e | e in y.Keys - x.Keys :: y[e]);
    assert forall e :: e in patched.Keys <==> e in y.Keys;
    assert forall e | e in y :: patched[e] == if e in x then x[e] else y[e];
    if patched == y {
      forall e | e in x && e in y ensures x[e] == y[e] {
        assert patched[e] == x[e];
      }
    }
  }

  /**
   The relations patched by the difference have the new ends; they are the new relations exactly
   when no relation that stays changed its kind, which the difference does not show.
   */
  lemma RelationsExactly(a: Document, b: Document)
    ensures var d := DiffOf(a, b);
            var x, y := RelationsOf(a.relations, |a.relations|), RelationsOf(b.relations, |b.relations|);
            && d.relationsAdded == y.Keys - x.Keys
            && var patched := (x - d.relationsRemoved) + (map e | e in d.relationsAdded :: y[e]);
            && patched.Keys == y.Keys
            && (patched == y <==> forall e | e in x && e in y :: x[e] == y[e])
  {
    hide SortedOf;
    hide Listing;
    hide Versions;
    hide Licenses;
    hide RelationsOf;
    DiffParts(a, b);
    hide DiffOf;
    PatchedKinds(RelationsOf(a.relations, |a.relations|), RelationsOf(b.relations, |b.relations|));
  }
}
