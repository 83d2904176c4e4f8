/** drift.rs: comparing a manifest with its Dockerfile. */
module Drift {
  import opened Text
  import opened Patterns
  import opened Silence
  import opened Manifests
  import opened Generator
  import opened Sections
  import opened Extract
  import opened RoundTrip
  import opened RuntimeRoundTrip
  import opened EntrypointRoundTrip
  import opened PortsRoundTrip
  import opened LabelsRoundTrip

  /** The lines of the drift report. */
  datatype Difference =
    | VersionDiffers(manifest: string, found: Option<string>)
    | BaseDiffers(manifest: string, dockerfile: string)
    | UserDiffers(manifest: string, dockerfile: string)
    | StopDiffers(manifest: string, dockerfile: string)
    | EntrypointDiffers(manifest: string, dockerfile: string)
    | PortsMissing(ports: set<string>)
    | PortsExtra(ports: set<string>)
    | LabelDiffers(key: string, manifest: string, dockerfile: string)
    | LabelMissing(key: string, manifest: string)

  function Unless(same: bool, d: Difference): seq<Difference> {
    if same then [] else [d]
  }

  function ListText(parts: seq<string>): string {
    "[" + Join(QuotedAll(parts), ", ") + "]"
  }

  function FieldPart(m: Manifest, content: string): seq<Difference> {
    var version, base := ExtractVersion(content), ExtractBase(content);
    var user, stop := ExtractUser(content), ExtractStop(content);
    var list := ListText(ExtractEntrypoint(content));
    var d1 := Unless(version == Some(m.Version()), VersionDiffers(m.Version(), version));
    var d2 := d1 + Unless(base == m.BaseImage(), BaseDiffers(m.BaseImage(), base));
    var d3 := d2 + Unless(user == m.User(), UserDiffers(m.User(), user));
    var d4 := d3 + Unless(stop == m.StopSignal(), StopDiffers(m.StopSignal(), stop));
    d4 + Unless(list == ListText(m.entrypoint), EntrypointDiffers(ListText(m.entrypoint), list))
  }

  function PortPart(m: Manifest, content: string): seq<Difference> {
    var found, expected := SetOf(PortsOf(content)), SetOf(m.expose);
    Unless(expected - found == {}, PortsMissing(expected - found)) +
    Unless(found - expected == {}, PortsExtra(found - expected))
  }

  function ExpectedLabels(m: Manifest): seq<Pair> {
    [ Pair(OciKey(Title), m.Name()),
      Pair(OciKey(VersionName), m.Version()),
      Pair(OciKey(Description), m.metadata.description),
      Pair(OciKey(Vendor), m.metadata.vendor),
      Pair(EvergreenKey(ImageTier), m.metadata.tier) ]
  }

  function LabelDrift(labels: map<string, string>, l: Pair): seq<Difference> {
    if l.key !in labels then [LabelMissing(l.key, l.value)]
    else Unless(labels[l.key] == l.value, LabelDiffers(l.key, l.value, labels[l.key]))
  }

  function LabelPart(labels: map<string, string>, ls: seq<Pair>): seq<Difference> {
    if ls == [] then [] else LabelDrift(labels, ls[0]) + LabelPart(labels, ls[1..])
  }

  function Drifts(m: Manifest, content: string): seq<Difference> {
    FieldPart(m, content) + PortPart(m, content) + LabelPart(LabelsOf(content), ExpectedLabels(m))
  }

  method CompareFields(m: Manifest, content: string) returns (drifts: seq<Difference>)
    ensures drifts == FieldPart(m, content)
  {
    hide ExtractVersion;
    hide ExtractBase;
    hide ExtractUser;
    hide ExtractStop;
    hide ExtractEntrypoint;
    hide ListText;
    drifts := [];
    var version := ExtractVersion(content);
    match version {
      case Some(v) =>
        if v != m.Version() {
          drifts := drifts + [VersionDiffers(m.Version(), version)];
        }
      case None => drifts := drifts + [VersionDiffers(m.Version(), None)];
    }
    ghost var d1 := Unless(version == Some(m.Version()), VersionDiffers(m.Version(), version));
    assert drifts == d1;
    var base := ExtractBase(content);
    if base != m.BaseImage() {
      drifts := drifts + [BaseDiffers(m.BaseImage(), base)];
    }
    ghost var d2 := d1 + Unless(base == m.BaseImage(), BaseDiffers(m.BaseImage(), base));
    assert drifts == d2;
    var user := ExtractUser(content);
    if user != m.User() {
      drifts := drifts + [UserDiffers(m.User(), user)];
    }
    ghost var d3 := d2 + Unless(user == m.User(), UserDiffers(m.User(), user));
    assert drifts == d3;
    var stop := ExtractStop(content);
    if stop != m.StopSignal() {
      drifts := drifts + [StopDiffers(m.StopSignal(), stop)];
    }
    ghost var d4 := d3 + Unless(stop == m.StopSignal(), StopDiffers(m.StopSignal(), stop));
    assert drifts == d4;
    var expected, actual := ListText(m.entrypoint), ListText(ExtractEntrypoint(content));
    if actual != expected {
      drifts := drifts + [EntrypointDiffers(expected, actual)];
    }
  }

  method ComparePorts(m: Manifest, content: string) returns (drifts: seq<Difference>)
    ensures drifts == PortPart(m, content)
  {
    hide PortsOf;
    drifts := [];
    var sorted := ExtractPorts(content);
    var found, exposed := SetOf(sorted), SetOf(m.expose);
    assert found == SetOf(PortsOf(content));
    if exposed - found != {} {
      drifts := drifts + [PortsMissing(exposed - found)];
    }
    if found - exposed != {} {
      drifts := drifts + [PortsExtra(found - exposed)];
    }
  }

  /** One turn of the label loop. */
  method CompareLabel(labels: map<string, string>, key: string, value: string) returns (drifts: seq<Difference>)
    ensures drifts == LabelDrift(labels, Pair(key, value))
  {
    drifts := [];
    if key in labels {
      if labels[key] != value {
        drifts := [LabelDiffers(key, value, labels[key])];
      }
    } else {
      drifts := [LabelMissing(key, value)];
    }
  }

  method CompareLabels(labels: map<string, string>, expected: seq<Pair>) returns (drifts: seq<Difference>)
    ensures drifts == LabelPart(labels, expected)
  {
    hide LabelPart;
    hide LabelDrift;
    drifts := [];
    LabelPartEnd(labels, expected);
    for i := 0 to |expected|
      invariant drifts + LabelPart(labels, expected[i..]) == LabelPart(labels, expected)
    {
      LabelPartStep(labels, expected, i);
      ghost var before := drifts;
      var differs := CompareLabel(labels, expected[i].key, expected[i].value);
      drifts := drifts + differs;
      assert drifts + LabelPart(labels, expected[i + 1..]) == before + LabelPart(labels, expected[i..]);
    }
    LabelPartEnd(labels, expected);
  }

  lemma LabelPartEnd(labels: map<string, string>, ls: seq<Pair>)
    ensures LabelPart(labels, ls[|ls|..]) == [] && ls[0..] == ls
  {
  }

  lemma LabelPartStep(labels: map<string, string>, ls: seq<Pair>, i: nat)
    requires i < |ls|
    ensures LabelPart(labels, ls[i..]) == LabelDrift(labels, ls[i]) + LabelPart(labels, ls[i + 1..])
  {
    assert ls[i..][1..] == ls[i + 1..];
  }

  // --- What a report says, for every manifest and every text --------------------------------

  /** The five labels that are expected, with their values. */
  predicate Expected(m: Manifest, key: string, value: string) {
    || (key == OciKey(Title) && value == m.Name())
    || (key == OciKey(VersionName) && value == m.Version())
    || (key == OciKey(Description) && value == m.metadata.description)
    || (key == OciKey(Vendor) && value == m.metadata.vendor)
    || (key == EvergreenKey(ImageTier) && value == m.metadata.tier)
  }

  /** Manifest and file really differ as d says. */
  predicate Differs(m: Manifest, content: string, d: Difference) {
    match d
    case VersionDiffers(x, y) => x == m.Version() && y == ExtractVersion(content) && y != Some(x)
    case BaseDiffers(x, y) => x == m.BaseImage() && y == ExtractBase(content) && x != y
    case UserDiffers(x, y) => x == m.User() && y == ExtractUser(content) && x != y
    case StopDiffers(x, y) => x == m.StopSignal() && y == ExtractStop(content) && x != y
    case EntrypointDiffers(x, y) => x == ListText(m.entrypoint) && y == ListText(ExtractEntrypoint(content)) && x != y
    case PortsMissing(ports) => ports == SetOf(m.expose) - SetOf(PortsOf(content)) && ports != {}
    case PortsExtra(ports) => ports == SetOf(PortsOf(content)) - SetOf(m.expose) && ports != {}
    case LabelDiffers(key, x, y) =>
      Expected(m, key, x) && key in LabelsOf(content) && y == LabelsOf(content)[key] && x != y
    case LabelMissing(key, x) => Expected(m, key, x) && key !in LabelsOf(content)
  }

  /** All fields, ports and expected labels of the manifest are those of the file. */
  ghost predicate Agrees(m: Manifest, content: string) {
    && ExtractVersion(content) == Some(m.Version()) && ExtractBase(content) == m.BaseImage()
    && ExtractUser(content) == m.User() && ExtractStop(content) == m.StopSignal()
    && ListText(ExtractEntrypoint(content)) == ListText(m.entrypoint)
    && SetOf(PortsOf(content)) == SetOf(m.expose)
    && forall key, value | Expected(m, key, value) :: key in LabelsOf(content) && LabelsOf(content)[key] == value
  }

  lemma FieldsReport(m: Manifest, content: string, d: Difference)
    ensures d in FieldPart(m, content) <==>
            Differs(m, content, d) && (d.VersionDiffers? || d.BaseDiffers? || d.UserDiffers? || d.StopDiffers? || d.EntrypointDiffers?)
  {
    hide ExtractVersion;
    hide ExtractBase;
    hide ExtractUser;
    hide ExtractStop;
    hide ExtractEntrypoint;
    hide ListText;
  }

  lemma PortsReport(m: Manifest, content: string, d: Difference)
    ensures d in PortPart(m, content) <==> Differs(m, content, d) && (d.PortsMissing? || d.PortsExtra?)
  {
    hide PortsOf;
  }

  lemma LabelReport(labels: map<string, string>, l: Pair, d: Difference)
    ensures d in LabelDrift(labels, l) <==>
            || (d.LabelDiffers? && d.key == l.key && d.manifest == l.value && l.key in labels && d.dockerfile == labels[l.key] != l.value)
            || (d.LabelMissing? && d.key == l.key && d.manifest == l.value && l.key !in labels)
  {
  }

  lemma {:induction false} LabelPartReport(labels: map<string, string>, ls: seq<Pair>, d: Difference)
    ensures d in LabelPart(labels, ls) <==> exists l :: l in ls && d in LabelDrift(labels, l)
  {
    hide LabelDrift;
    if ls != [] {
      LabelPartReport(labels, ls[1..], d);
      assert forall l :: l in ls <==> l == ls[0] || l in ls[1..];
    }
  }

  lemma ExpectedExactly(m: Manifest, l: Pair)
    ensures l in ExpectedLabels(m) <==> Expected(m, l.key, l.value)
  {
    hide OciKey;
    hide EvergreenKey;
    var ls := ExpectedLabels(m);
    assert ls[0] in ls && ls[1] in ls && ls[2] in ls && ls[3] in ls && ls[4] in ls;
  }

  lemma LabelsReport(m: Manifest, content: string, d: Difference)
    ensures d in LabelPart(LabelsOf(content), ExpectedLabels(m)) <==>
            Differs(m, content, d) && (d.LabelDiffers? || d.LabelMissing?)
  {
    hide LabelsOf;
    hide ExpectedLabels;
    hide Expected;
    hide LabelDrift;
    hide LabelPart;
    var labels, ls := LabelsOf(content), ExpectedLabels(m);
    LabelPartReport(labels, ls, d);
    if l :| l in ls && d in LabelDrift(labels, l) {
      LabelReport(labels, l, d);
      ExpectedExactly(m, l);
    } else if (d.LabelDiffers? || d.LabelMissing?) && Differs(m, content, d) {
      var l := Pair(d.key, d.manifest);
      ExpectedExactly(m, l);
      LabelReport(labels, l, d);
    }
  }

  /** A report holds exactly the real differences, whatever manifest and text are. */
  lemma DriftExactly(m: Manifest, content: string, d: Difference)
    ensures d in Drifts(m, content) <==> Differs(m, content, d)
  {
    FieldsReport(m, content, d);
    PortsReport(m, content, d);
    LabelsReport(m, content, d);
    hide FieldPart;
    hide PortPart;
    hide LabelPart;
    hide ExpectedLabels;
    hide Differs;
  }

  /** It is empty exactly when manifest and text agree. */
  lemma NoDriftExactly(m: Manifest, content: string)
    ensures Drifts(m, content) == [] <==> Agrees(m, content)
  {
    hide Drifts;
    if Agrees(m, content) {
      forall d ensures !Differs(m, content, d) {
        AgreesMeans(m, content, d);
      }
    } else {
      var d := Disagreement(m, content);
      DriftExactly(m, content, d);
    }
    forall d ensures d in Drifts(m, content) <==> Differs(m, content, d) {
      DriftExactly(m, content, d);
    }
    hide Agrees;
    hide Differs;
    if Drifts(m, content) != [] {
      assert Drifts(m, content)[0] in Drifts(m, content);
    }
  }

  lemma AgreesMeans(m: Manifest, content: string, d: Difference)
    requires Agrees(m, content)
    ensures !Differs(m, content, d)
  {
    hide ExtractVersion;
    hide ExtractBase;
    hide ExtractUser;
    hide ExtractStop;
    hide ExtractEntrypoint;
    hide ListText;
    hide LabelsOf;
    hide PortsOf;
    hide Expected;
  }

  lemma Disagreement(m: Manifest, content: string) returns (d: Difference)
    requires !Agrees(m, content)
    ensures Differs(m, content, d)
  {
    hide ExtractVersion;
    hide ExtractBase;
    hide ExtractUser;
    hide ExtractStop;
    hide ExtractEntrypoint;
    hide ListText;
    hide LabelsOf;
    hide PortsOf;
    hide Expected;
    var expected, found := SetOf(m.expose), SetOf(PortsOf(content));
    var list := ListText(ExtractEntrypoint(content));
    if ExtractVersion(content) != Some(m.Version()) {
      d := VersionDiffers(m.Version(), ExtractVersion(content));
    } else if ExtractBase(content) != m.BaseImage() {
      d := BaseDiffers(m.BaseImage(), ExtractBase(content));
    } else if ExtractUser(content) != m.User() {
      d := UserDiffers(m.User(), ExtractUser(content));
    } else if ExtractStop(content) != m.StopSignal() {
      d := StopDiffers(m.StopSignal(), ExtractStop(content));
    } else if list != ListText(m.entrypoint) {
      d := EntrypointDiffers(ListText(m.entrypoint), list);
    } else if expected - found != {} {
      d := PortsMissing(expected - found);
    } else if found - expected != {} {
      d := PortsExtra(found - expected);
    } else {
      assert expected == found;
      var key, value :| Expected(m, key, value) && !(key in LabelsOf(content) && LabelsOf(content)[key] == value);
      d := if key in LabelsOf(content) then LabelDiffers(key, value, LabelsOf(content)[key]) else LabelMissing(key, value);
    }
  }

  // --- The order of a report -----------------------------------------------------------------

  /** The place of a difference in a report. */
  function Rank(d: Difference): nat {
    match d
    case VersionDiffers(_, _) => 0
    case BaseDiffers(_, _) => 1
    case UserDiffers(_, _) => 2
    case StopDiffers(_, _) => 3
    case EntrypointDiffers(_, _) => 4
    case PortsMissing(_) => 5
    case PortsExtra(_) => 6
    case LabelDiffers(key, _, _) => 7 + KeyRank(key)
    case LabelMissing(key, _) => 7 + KeyRank(key)
  }

  function KeyRank(key: string): nat {
    if key == OciKey(Title) then 0 else if key == OciKey(VersionName) then 1 else if key == OciKey(Description) then 2
    else if key == OciKey(Vendor) then 3 else 4
  }

  /** In the order of the checks, each at most once. */
  predicate InOrder(ds: seq<Difference>) {
    forall i, j | 0 <= i < j < |ds| :: Rank(ds[i]) < Rank(ds[j])
  }

  predicate Within(ds: seq<Difference>, lo: nat, hi: nat) {
    forall i | 0 <= i < |ds| :: lo <= Rank(ds[i]) < hi
  }

  lemma OrderAppend(a: seq<Difference>, b: seq<Difference>, lo: nat, mid: nat, hi: nat)
    requires InOrder(a) && InOrder(b) && Within(a, lo, mid) && Within(b, mid, hi) && lo <= mid <= hi
    ensures InOrder(a + b) && Within(a + b, lo, hi)
  {
    hide Rank;
  }

  lemma FieldsInOrder(m: Manifest, content: string)
    ensures InOrder(FieldPart(m, content)) && Within(FieldPart(m, content), 0, 5)
  {
    hide ExtractVersion;
    hide ExtractBase;
    hide ExtractUser;
    hide ExtractStop;
    hide ExtractEntrypoint;
    hide ListText;
    hide KeyRank;
  }

  lemma PortsInOrder(m: Manifest, content: string)
    ensures InOrder(PortPart(m, content)) && Within(PortPart(m, content), 5, 7)
  {
    hide PortsOf;
    hide KeyRank;
  }

  lemma ExpectedRanks(m: Manifest)
    ensures var ls := ExpectedLabels(m); |ls| == 5 && forall i | 0 <= i < 5 :: KeyRank(ls[i].key) == i
  {
    OciApart();
    TierApart();
    hide OciKey;
    hide EvergreenKey;
  }

  lemma {:induction false} LabelsInOrder(labels: map<string, string>, ls: seq<Pair>, n: nat)
    requires n + |ls| == 5 && forall i | 0 <= i < |ls| :: KeyRank(ls[i].key) == n + i
    ensures InOrder(LabelPart(labels, ls)) && Within(LabelPart(labels, ls), 7 + n, 12)
  {
    hide KeyRank;
    if ls != [] {
      LabelsInOrder(labels, ls[1..], n + 1);
      assert KeyRank(ls[0].key) == n;
      OrderAppend(LabelDrift(labels, ls[0]), LabelPart(labels, ls[1..]), 7 + n, 8 + n, 12);
    }
  }

  /** The differences of a report come in the order of the checks, none of them twice. */
  lemma DriftInOrder(m: Manifest, content: string)
    ensures InOrder(Drifts(m, content))
  {
    hide FieldPart;
    hide PortPart;
    hide LabelPart;
    hide ExpectedLabels;
    hide Rank;
    hide KeyRank;
    FieldsInOrder(m, content);
    PortsInOrder(m, content);
    ExpectedRanks(m);
    LabelsInOrder(LabelsOf(content), ExpectedLabels(m), 0);
    hide LabelsOf;
    OrderAppend(FieldPart(m, content), PortPart(m, content), 0, 5, 7);
    OrderAppend(FieldPart(m, content) + PortPart(m, content), LabelPart(LabelsOf(content), ExpectedLabels(m)), 0, 7, 12);
  }

  /** `cmd_drift`, up to the printing of the report. */
  method CmdDrift(m: Manifest, content: string) returns (drifts: seq<Difference>)
    ensures drifts == Drifts(m, content)
    ensures forall d :: d in drifts <==> Differs(m, content, d)
    ensures drifts == [] <==> Agrees(m, content)
  {
    hide Differs;
    hide Agrees;
    hide FieldPart;
    hide PortPart;
    hide LabelPart;
    hide ExpectedLabels;
    drifts := CompareFields(m, content);
    var ports := ComparePorts(m, content);
    var labels := ExtractAllLabels(content);
    var missing := CompareLabels(labels, ExpectedLabels(m));
    drifts := drifts + ports + missing;
    NoDriftExactly(m, content);
    forall d ensures d in drifts <==> Differs(m, content, d) {
      DriftExactly(m, content, d);
    }
  }

  // --- Drift of a freshly generated file --------------------------------------------------

  /** Free text without instruction keywords, and every field in the shape its line can carry. */
  ghost predicate Hygienic(m: Manifest, sh: Scripts) {
    && (forall p :: Clean(m, p) && CleanScripts(m, sh, p))
    && KeysOk(m)
    && Token(m.Version()) && Bare(FinalBase(m)) && Bare(m.User()) && Bare(m.StopSignal())
    && (Wrapped(m) ==> m.entrypoint != [] && forall a | a in m.entrypoint :: ArgOk(a))
    && (forall p | p in m.expose :: Canonical(p))
  }

  /** What a repacked image cannot carry. */
  function RecipePart(m: Manifest): seq<Difference> {
    Unless(Downloads(m), VersionDiffers(m.Version(), None)) +
    Unless(FinalBase(m) == m.BaseImage(), BaseDiffers(m.BaseImage(), FinalBase(m))) +
    Unless(Wrapped(m) || ListText(["/app/entrypoint"]) == ListText(m.entrypoint),
           EntrypointDiffers(ListText(m.entrypoint), ListText(["/app/entrypoint"])))
  }

  lemma FieldsDrift(m: Manifest, sh: Scripts, order: seq<string>)
    requires OrderOf(order, m.labels) && Hygienic(m, sh)
    ensures FieldPart(m, Generate(m, sh, order)) == RecipePart(m)
    ensures PortPart(m, Generate(m, sh, order)) == []
  {
    hide Generate;
    hide Clean;
    hide CleanScripts;
    hide ExtractVersion;
    hide ExtractBase;
    hide ExtractUser;
    hide ExtractStop;
    hide ExtractEntrypoint;
    hide ListText;
    hide PortsOf;
    assert forall p :: Clean(m, p) && CleanScripts(m, sh, p);
    if Downloads(m) {
      VersionRead(m, sh, order);
    } else {
      NoVersionRead(m, sh, order);
    }
    BaseRead(m, sh, order);
    UserRead(m, sh, order);
    StopRead(m, sh, order);
    PortsRead(m, sh, order);
    if Wrapped(m) {
      EntrypointRead(m, sh, order);
    } else {
      RepackRead(m, sh, order);
    }
  }

  /**
   The drift of a freshly generated Dockerfile, for every recipe: what the recipe cannot carry,
   and the expected labels that neither the standard block nor the custom labels show.
   */
  lemma FreshDrift(m: Manifest, sh: Scripts, order: seq<string>)
    requires OrderOf(order, m.labels) && Hygienic(m, sh)
    ensures Drifts(m, Generate(m, sh, order)) ==
            RecipePart(m) + LabelPart(StandardMap(m) + CustomMap(m), ExpectedLabels(m))
  {
    hide Generate;
    hide Clean;
    hide CleanScripts;
    hide FieldPart;
    hide PortPart;
    hide RecipePart;
    hide StandardMap;
    hide CustomMap;
    hide LabelPart;
    hide LabelsOf;
    assert Clean(m, Label) && CleanScripts(m, sh, Label);
    FieldsDrift(m, sh, order);
    LabelsRead(m, sh, order);
  }

  // --- The vendor label ----------------------------------------------------------------------

  /** The custom labels leave the standard ones alone. */
  predicate OverridesNothing(m: Manifest) {
    && OciKey(Title) !in m.labels && OciKey(VersionName) !in m.labels
    && OciKey(Description) !in m.labels && EvergreenKey(ImageTier) !in m.labels
  }

  predicate CarriesVendor(m: Manifest) {
    && m.metadata.vendor != "" && OciKey(Vendor) in m.labels
    && m.labels[OciKey(Vendor)] == m.metadata.vendor
  }

  lemma StandardLabelsHold(m: Manifest)
    requires OverridesNothing(m)
    requires m.Name() != "" && m.Version() != "" && m.metadata.description != "" && m.metadata.tier != ""
    ensures LabelPart(StandardMap(m) + CustomMap(m), ExpectedLabels(m)) ==
            LabelDrift(StandardMap(m) + CustomMap(m), Pair(OciKey(Vendor), m.metadata.vendor))
  {
    hide OciKey;
    hide EvergreenKey;
    hide StandardMap;
    hide Visible;
    StandardShown(m);
    var labels, ls := StandardMap(m) + CustomMap(m), ExpectedLabels(m);
    assert LabelDrift(labels, ls[0]) == [] && LabelDrift(labels, ls[1]) == [];
    assert LabelDrift(labels, ls[2]) == [] && LabelDrift(labels, ls[4]) == [];
    assert ls[1..][1..] == ls[2..] && ls[2..][1..] == ls[3..] && ls[3..][1..] == ls[4..] && ls[4..][1..] == [];
    assert LabelPart(labels, ls[4..]) == [];
    assert LabelPart(labels, ls[3..]) == LabelDrift(labels, ls[3]);
    assert LabelPart(labels, ls[2..]) == LabelDrift(labels, ls[3]);
    assert LabelPart(labels, ls[1..]) == LabelDrift(labels, ls[3]);
  }

  lemma VendorDrift(m: Manifest)
    ensures LabelDrift(StandardMap(m) + CustomMap(m), Pair(OciKey(Vendor), m.metadata.vendor)) == [] <==>
            if OciKey(Vendor) in m.labels then m.labels[OciKey(Vendor)] != "" && m.labels[OciKey(Vendor)] == m.metadata.vendor
            else false
  {
    hide OciKey;
    hide StandardMap;
    hide Kept;
    StandardShown(m);
    KeysKept(Vendor);
  }

  /**
   A downloaded or source-built image, freshly generated, drifts in at most two ways: its manifest
   names a base other than scratch, or its own labels do not carry its vendor.
   */
  lemma FreshDownloadDrift(m: Manifest, sh: Scripts, order: seq<string>)
    requires OrderOf(order, m.labels) && Hygienic(m, sh) && Downloads(m) && OverridesNothing(m)
    requires m.Name() != "" && m.metadata.description != "" && m.metadata.tier != ""
    ensures var drifts := Drifts(m, Generate(m, sh, order));
            var vendor := LabelDrift(StandardMap(m) + CustomMap(m), Pair(OciKey(Vendor), m.metadata.vendor));
            && drifts == Unless(m.BaseImage() == "scratch", BaseDiffers(m.BaseImage(), "scratch")) + vendor
            && (vendor == [] <==> CarriesVendor(m))
  {
    hide Generate;
    hide Clean;
    hide CleanScripts;
    hide LabelPart;
    hide OciKey;
    hide EvergreenKey;
    hide LabelDrift;
    hide StandardMap;
    hide CustomMap;
    hide Drifts;
    hide ListText;
    FreshDrift(m, sh, order);
    StandardLabelsHold(m);
    VendorDrift(m);
  }
}
