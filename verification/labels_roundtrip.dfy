/** The labels read back from a generated Dockerfile. */
module LabelsRoundTrip {
  import opened Text
  import opened Patterns
  import opened Silence
  import opened Manifests
  import opened Generator
  import opened Sections
  import opened Extract
  import opened RoundTrip

  /** A key that the label expression accepts as a whole. */
  predicate KeyOk(k: string) {
    k != "" && forall i | 0 <= i < |k| :: In(k[i], KeyChar)
  }

  predicate Printable(l: Pair) {
    KeyOk(l.key) && Without(l.value, '"')
  }

  /** What the scan finds of the printed pairs: all but those with an empty value. */
  function Shown(ls: seq<Pair>): seq<seq<string>> {
    if ls == [] then [] else
    (if ls[0].value == "" then [] else [[ls[0].key, ls[0].value]]) + Shown(ls[1..])
  }

  // --- One pair ----------------------------------------------------------------------------

  lemma PairMatch(l: Pair, rest: string)
    requires Printable(l) && l.value != ""
    ensures Match(PairText(l) + rest, Label) == Hit([l.key, l.value], |PairText(l)|)
  {
    hide Run;
    hide LabelPair;
    hide PairText;
    var after := l.value + ("\"" + rest);
    var s := l.key + ("=\"" + after);
    PairTextIs(l, rest);
    KeyRun(l.key, after);
    ValueRun(l.value, rest);
    PairSlices(l.key, l.value, rest);
    LabelPairIs(s, |l.key|, |l.value|);
  }

  lemma PairTextIs(l: Pair, rest: string)
    ensures PairText(l) + rest == l.key + ("=\"" + (l.value + ("\"" + rest)))
    ensures |PairText(l)| == |l.key| + |l.value| + 3
  {
  }

  lemma PairSlices(key: string, value: string, rest: string)
    ensures var s := key + ("=\"" + (value + ("\"" + rest)));
            && s[|key|..] == "=\"" + (value + ("\"" + rest)) && s[|key| + 2..] == value + ("\"" + rest)
            && s[..|key|] == key && s[|key| + 2..|key| + 2 + |value|] == value
  {
    var s := key + ("=\"" + (value + ("\"" + rest)));
    assert s[|key| + 2..] == value + ("\"" + rest);
  }

  lemma LabelPairIs(s: string, k: nat, n: nat)
    requires 0 < k && 0 < n && k + 2 + n < |s|
    requires Run(s, KeyChar) == k && "=\"" <= s[k..] && Run(s[k + 2..], InQuote) == n
    ensures LabelPair(s) == Hit([s[..k], s[k + 2..k + 2 + n]], k + n + 3)
  {
    hide Run;
  }

  lemma KeyRun(key: string, after: string)
    requires KeyOk(key)
    ensures Run(key + ("=\"" + after), KeyChar) == |key|
  {
    var s := key + ("=\"" + after);
    assert s[|key|] == '=' && !In('=', KeyChar);
    RunIs(s, |key|, KeyChar);
  }

  lemma ValueRun(value: string, rest: string)
    requires Without(value, '"')
    ensures Run(value + ("\"" + rest), InQuote) == |value|
  {
    RunIs(value + ("\"" + rest), |value|, InQuote);
  }

  lemma EmptyMiss(k: string, rest: string)
    requires forall i | 0 <= i < |k| :: In(k[i], KeyChar)
    ensures Match(k + ("=\"" + ("\"" + rest)), Label) == Miss
  {
    var tail := "=\"" + ("\"" + rest);
    var s := k + tail;
    assert tail[0] == '=' && !In('=', KeyChar);
    RunIs(s, |k|, KeyChar);
    assert s[|k|..] == tail;
    assert s[|k| + 2..] == "\"" + rest;
    RunIs("\"" + rest, 0, InQuote);
  }

  lemma QuoteMiss(c: char, rest: string)
    requires !In(c, KeyChar)
    ensures Match([c] + rest, Label) == Miss
  {
    RunIs([c] + rest, 0, KeyChar);
  }

  lemma {:induction false} EmptyScan(k: string, rest: string)
    requires forall i | 0 <= i < |k| :: In(k[i], KeyChar)
    ensures Captures(k + ("=\"" + ("\"" + rest)), Label) == Captures(rest, Label)
    decreases |k|
  {
    hide Captures;
    hide Match;
    var s := k + ("=\"" + ("\"" + rest));
    EmptyMiss(k, rest);
    CapturesStep(s, Label);
    if k == "" {
      assert s[1..] == ['"'] + (['"'] + rest);
      QuoteMiss('"', ['"'] + rest);
      CapturesStep(s[1..], Label);
      assert s[1..][1..] == ['"'] + rest;
      QuoteMiss('"', rest);
      CapturesStep(['"'] + rest, Label);
      assert (['"'] + rest)[1..] == rest;
    } else {
      assert s[1..] == k[1..] + ("=\"" + ("\"" + rest));
      EmptyScan(k[1..], rest);
    }
  }

  lemma PairScan(l: Pair, rest: string)
    requires Printable(l)
    ensures Captures(PairText(l) + rest, Label) == Shown([l]) + Captures(rest, Label)
  {
    hide Captures;
    hide Match;
    assert Shown([l][1..]) == [];
    if l.value == "" {
      EmptyScan(l.key, rest);
      assert PairText(l) + rest == l.key + ("=\"" + ("\"" + rest));
    } else {
      PairMatch(l, rest);
      CapturesStep(PairText(l) + rest, Label);
      assert (PairText(l) + rest)[|PairText(l)|..] == rest;
    }
  }

  // --- The block ----------------------------------------------------------------------------------

  lemma {:induction false} MorePairsScan(ls: seq<Pair>, rest: string)
    requires forall l | l in ls :: Printable(l)
    ensures Captures(MorePairs(ls) + rest, Label) == Shown(ls) + Captures(rest, Label)
  {
    hide Captures;
    hide Printable;
    hide PairText;
    if ls == [] {
      assert MorePairs(ls) + rest == rest;
    } else {
      var gap, more := " \\\n      ", MorePairs(ls[1..]) + rest;
      assert MorePairs(ls) + rest == gap + (PairText(ls[0]) + more);
      QuietFixed(gap, Label);
      CalmScan(gap, PairText(ls[0]) + more, Label);
      PairScan(ls[0], more);
      MorePairsScan(ls[1..], rest);
      assert Shown([ls[0]][1..]) == [];
    }
  }

  lemma LabelWordScan(rest: string)
    ensures Captures("LABEL " + rest, Label) == Captures(rest, Label)
  {
    hide Captures;
    QuietFixed("LABEL ", Label);
    CalmScan("LABEL ", rest, Label);
  }

  lemma LabelBlockText(ls: seq<Pair>, rest: string)
    requires ls != []
    ensures LabelBlock(ls) + rest == "LABEL " + (PairText(ls[0]) + (MorePairs(ls[1..]) + ("\n\n" + rest)))
  {
    hide PairText;
    hide MorePairs;
  }

  lemma LabelBlockScan(ls: seq<Pair>, rest: string)
    requires ls != [] && forall l | l in ls :: Printable(l)
    ensures Captures(LabelBlock(ls) + rest, Label) == Shown(ls) + Captures("\n\n" + rest, Label)
  {
    hide Captures;
    hide Printable;
    hide PairText;
    hide LabelBlock;
    hide MorePairs;
    var more := MorePairs(ls[1..]) + ("\n\n" + rest);
    LabelBlockText(ls, rest);
    LabelWordScan(PairText(ls[0]) + more);
    PairScan(ls[0], more);
    MorePairsScan(ls[1..], "\n\n" + rest);
    assert Shown([ls[0]][1..]) == [];
  }

  // --- The whole file --------------------------------------------------------------------------------

  const MetricsPair := Pair("SHIM_METRICS_ENABLED", "true")

  lemma MetricsPrintable()
    ensures Printable(MetricsPair) && Shown([MetricsPair]) == [["SHIM_METRICS_ENABLED", "true"]]
  {
    assert Shown([MetricsPair][1..]) == [];
  }

  lemma MetricsScan(rest: string)
    ensures Captures(MetricsLine + rest, Label) == [["SHIM_METRICS_ENABLED", "true"]] + Captures(rest, Label)
  {
    hide Captures;
    hide Printable;
    hide PairText;
    MetricsPrintable();
    var l := MetricsPair;
    assert MetricsLine + rest == "ENV " + (PairText(l) + (Newline + rest));
    QuietFixed("ENV ", Label);
    CalmScan("ENV ", PairText(l) + (Newline + rest), Label);
    PairScan(l, Newline + rest);
    Ends(Newline, Label);
    CalmScan(Newline, rest, Label);
  }

  lemma BelowMetricsScan(m: Manifest, order: seq<string>)
    requires forall k | k in order :: k in m.labels
    requires Clean(m, Label) && forall l | l in Labels(m, order) :: Printable(l)
    ensures Captures(FromExpose(m, order), Label) == Shown(Labels(m, order))
  {
    hide Captures;
    hide Calm;
    hide Clean;
    hide Printable;
    hide ExposeLine;
    hide Healthcheck;
    hide EntrypointLine;
    hide LabelBlock;
    hide StopLine;
    hide Labels;
    var p := Label;
    PortsCalm(m, p);
    var ports := ExposeLine(m) + Healthcheck(m, StartPeriod(m));
    IdleScan(ports, FromEntrypoint(m, order), p);
    EntrypointLineCalm(m, p);
    IdleScan(if Wrapped(m) then EntrypointLine(m) else "", FromLabels(m, order), p);
    LabelBlockScan(Labels(m, order), StopLine(m));
    StopLineCalm(m, p);
    Ends(BlankLine, p);
    TailCalm(BlankLine, p);
    IdleScan("\n\n", StopLine(m), p);
    CalmNothing(StopLine(m), p);
  }

  lemma LabelsFound(m: Manifest, sh: Scripts, order: seq<string>)
    requires forall k | k in order :: k in m.labels
    requires Clean(m, Label) && CleanScripts(m, sh, Label)
    requires forall l | l in Labels(m, order) :: Printable(l)
    ensures Captures(Generate(m, sh, order), Label) ==
            [["SHIM_METRICS_ENABLED", "true"]] + Shown(Labels(m, order))
  {
    hide Captures;
    hide Calm;
    hide Clean;
    hide CleanScripts;
    hide Printable;
    hide Above;
    hide FromLine;
    hide FinalBase;
    hide Below;
    hide UserLine;
    hide MetricsLine;
    hide FromExpose;
    hide Labels;
    var p := Label;
    AboveCalm(m, sh, p);
    FinalBaseCalm(m, p);
    BelowCalm(m, p);
    UserLineIdle(m, p);
    RuntimeIs(m, order);
    var from, end := FromLine(FinalBase(m), "\n"), FromMetrics(m, order);
    IdleScan(Above(m, sh), from + (Below(m) + (UserLine(m) + end)), p);
    IdleScan(from, Below(m) + (UserLine(m) + end), p);
    IdleScan(Below(m), UserLine(m) + end, p);
    IdleScan(UserLine(m), end, p);
    MetricsScan(FromExpose(m, order));
    BelowMetricsScan(m, order);
  }

  // --- From pairs to a map ------------------------------------------------------------------------------

  lemma {:induction false} FoldedAppend(labels: map<string, string>, a: seq<seq<string>>, b: seq<seq<string>>)
    ensures Folded(labels, a + b) == Folded(Folded(labels, a), b)
    decreases |a|
  {
    if a == [] {
      assert a + b == b;
    } else {
      assert (a + b)[1..] == a[1..] + b;
      FoldedAppend(Inserted(labels, a[0]), a[1..], b);
    }
  }

  lemma {:induction false} ShownAppend(a: seq<Pair>, b: seq<Pair>)
    ensures Shown(a + b) == Shown(a) + Shown(b)
  {
    if a == [] {
      assert a + b == b;
    } else {
      assert (a + b)[1..] == a[1..] + b;
      ShownAppend(a[1..], b);
    }
  }

  predicate Visible(l: Pair) {
    l.value != "" && Kept(l.key)
  }

  /** The map that a list of pairs stands for: a later pair wins. */
  function OfPairs(labels: map<string, string>, ls: seq<Pair>): map<string, string>
    decreases |ls|
  {
    if ls == [] then labels else
    var l := ls[|ls| - 1];
    var before := OfPairs(labels, ls[..|ls| - 1]);
    if Visible(l) then before[l.key := l.value] else before
  }

  lemma {:induction false} FoldedOfPairs(labels: map<string, string>, ls: seq<Pair>)
    ensures Folded(labels, Shown(ls)) == OfPairs(labels, ls)
    decreases |ls|
  {
    if ls != [] {
      var n := |ls| - 1;
      assert ls == ls[..n] + [ls[n]];
      ShownAppend(ls[..n], [ls[n]]);
      FoldedAppend(labels, Shown(ls[..n]), Shown([ls[n]]));
      FoldedOfPairs(labels, ls[..n]);
      assert Shown([ls[n]][1..]) == [];
      var now := Folded(labels, Shown(ls[..n]));
      if ls[n].value != "" {
        assert Shown([ls[n]])[1..] == [];
        assert Folded(now, Shown([ls[n]])) == Inserted(now, [ls[n].key, ls[n].value]);
      }
    }
  }

  /** The custom labels that are read back. */
  function CustomMap(m: Manifest): map<string, string> {
    map k | k in m.labels && Visible(Pair(k, m.labels[k])) :: m.labels[k]
  }

  function StandardMap(m: Manifest): map<string, string> {
    OfPairs(map[], StandardLabels(m, Exemption(RecipeOf(m))))
  }

  lemma {:induction false} CustomFolded(labels: map<string, string>, m: Manifest, order: seq<string>)
    requires forall k | k in order :: k in m.labels
    ensures OfPairs(labels, CustomLabels(m, order)) == labels + Listed(m, order)
    decreases |order|
  {
    hide Visible;
    hide Listed;
    if order == [] {
      ListedNone(m);
    } else {
      var n := |order| - 1;
      var ls := CustomLabels(m, order);
      assert ls[..n] == CustomLabels(m, order[..n]);
      CustomFolded(labels, m, order[..n]);
      ListedLast(m, order);
    }
  }

  /** The custom labels named in a list of keys. */
  function Listed(m: Manifest, order: seq<string>): map<string, string>
    requires forall k | k in order :: k in m.labels
  {
    map k | k in order && Visible(Pair(k, m.labels[k])) :: m.labels[k]
  }

  lemma ListedNone(m: Manifest)
    ensures Listed(m, []) == map[]
  {
  }

  lemma ListedLast(m: Manifest, order: seq<string>)
    requires order != [] && forall k | k in order :: k in m.labels
    ensures var last := order[|order| - 1];
            var before := Listed(m, order[..|order| - 1]);
            Listed(m, order) == if Visible(Pair(last, m.labels[last])) then before[last := m.labels[last]] else before
  {
    hide Visible;
    assert forall k :: k in order <==> k in order[..|order| - 1] || k == order[|order| - 1];
  }

  /** Keys that the label expression can print and read. */
  predicate KeysOk(m: Manifest) {
    forall k | k in m.labels :: KeyOk(k)
  }

  lemma KeyChars()
    ensures KeyOk(OciOrg) && KeyOk(Image) && KeyOk(Evergreen) && KeyOk(Security)
  {
  }

  lemma OciKeyChars()
    ensures KeyOk(Title) && KeyOk(VersionName) && KeyOk(Description)
  {
  }

  lemma MoreKeyChars()
    ensures KeyOk(ImageTier) && KeyOk(NonRootName) && KeyOk(CapDrop)
  {
  }

  lemma LastKeyChars()
    ensures KeyOk(NoNewPrivileges) && KeyOk(BaseName) && KeyOk(PatternName)
  {
  }

  lemma KeysPrintable(name: Fixed)
    requires KeyOk(name)
    ensures KeyOk(OciKey(name)) && KeyOk(EvergreenKey(name)) && KeyOk(SecurityKey(name))
  {
    KeyChars();
  }

  lemma FixedValues(m: Manifest)
    ensures Without(Yes, '"') && Without("ALL", '"') && Without(BaseKind(m.BaseImage()), '"')
    ensures Without(Exemption(RecipeOf(m)), '"')
  {
    assert Without(RepackPattern, '"');
    assert Without(UpstreamPattern, '"');
    assert Without(Scratch, '"') && Without(Wolfi, '"') && Without(Upstream, '"');
  }

  lemma PlainWithout(s: string)
    requires Plain(s, Label)
    ensures Without(s, '"')
  {
    forall i | 0 <= i < |s| ensures s[i] != '"' {
      assert s[i] in s;
    }
  }

  lemma StandardPrintable(m: Manifest)
    requires Clean(m, Label)
    ensures forall l | l in StandardLabels(m, Exemption(RecipeOf(m))) :: Printable(l)
  {
    hide KeyOk;
    hide Without;
    hide Plain;
    hide BaseKind;
    hide Exemption;
    hide OciKey;
    hide EvergreenKey;
    hide SecurityKey;
    OciKeyChars();
    MoreKeyChars();
    LastKeyChars();
    KeysPrintable(Title);
    KeysPrintable(VersionName);
    KeysPrintable(Description);
    KeysPrintable(ImageTier);
    KeysPrintable(NonRootName);
    KeysPrintable(CapDrop);
    KeysPrintable(NoNewPrivileges);
    KeysPrintable(BaseName);
    KeysPrintable(PatternName);
    FixedValues(m);
    PlainWithout(m.Name());
    PlainWithout(m.Version());
    PlainWithout(m.metadata.description);
    PlainWithout(m.metadata.tier);
  }

  lemma AllPrintable(m: Manifest, order: seq<string>)
    requires forall k | k in order :: k in m.labels
    requires Clean(m, Label) && KeysOk(m)
    ensures forall l | l in Labels(m, order) :: Printable(l)
  {
    hide StandardLabels;
    hide Plain;
    StandardPrintable(m);
    forall l | l in CustomLabels(m, order) ensures Printable(l) {
      PlainWithout(l.value);
    }
  }

  /**
   The printed labels come back as the standard ones overridden by the custom ones, whatever the
   order in which the custom ones are printed; only empty values and unkept keys are lost.
   */
  lemma LabelsRead(m: Manifest, sh: Scripts, order: seq<string>)
    requires OrderOf(order, m.labels)
    requires Clean(m, Label) && CleanScripts(m, sh, Label) && KeysOk(m)
    ensures LabelsOf(Generate(m, sh, order)) == StandardMap(m) + CustomMap(m)
  {
    hide Captures;
    hide Clean;
    hide CleanScripts;
    hide Generate;
    hide StandardLabels;
    hide Visible;
    hide OfPairs;
    AllPrintable(m, order);
    LabelsFound(m, sh, order);
    var standard, custom := StandardLabels(m, Exemption(RecipeOf(m))), CustomLabels(m, order);
    ShownAppend(standard, custom);
    FoldedAppend(map[], Shown(standard), Shown(custom));
    FoldedOfPairs(map[], standard);
    FoldedOfPairs(OfPairs(map[], standard), custom);
    CustomFolded(OfPairs(map[], standard), m, order);
    MetricsDropped(Shown(standard) + Shown(custom));
    assert Listed(m, order) == CustomMap(m);
  }

  lemma MetricsDropped(found: seq<seq<string>>)
    ensures Folded(map[], [["SHIM_METRICS_ENABLED", "true"]] + found) == Folded(map[], found)
  {
    var metrics := ["SHIM_METRICS_ENABLED", "true"];
    assert !Kept(metrics[0]);
    assert ([metrics] + found)[1..] == found;
  }

  // --- Looking a standard label up -----------------------------------------------------------------------

  lemma {:induction false} Lookup(ls: seq<Pair>, i: nat)
    requires i < |ls| && forall j | 0 <= j < |ls| && j != i :: ls[j].key != ls[i].key
    ensures var labels := OfPairs(map[], ls);
            if Visible(ls[i]) then ls[i].key in labels && labels[ls[i].key] == ls[i].value
            else ls[i].key !in labels
    decreases |ls|
  {
    hide Visible;
    var n := |ls| - 1;
    if i < n {
      Lookup(ls[..n], i);
    } else {
      NotListed(ls[..n], ls[n].key);
    }
  }

  lemma {:induction false} NotListed(ls: seq<Pair>, key: string)
    requires forall l | l in ls :: l.key != key
    ensures key !in OfPairs(map[], ls)
    decreases |ls|
  {
    hide Visible;
    if ls != [] {
      assert ls[|ls| - 1] in ls;
      NotListed(ls[..|ls| - 1], key);
    }
  }

  const Vendor: Fixed := "vendor"

  lemma OciDiffer(a: Fixed, b: Fixed)
    requires a[0] != b[0]
    ensures OciKey(a) != OciKey(b)
  {
    var n := |OciOrg| + |Image|;
    assert OciKey(a)[n] == a[0] && OciKey(b)[n] == b[0];
  }

  lemma FamiliesDiffer(a: Fixed, b: string)
    ensures OciKey(a) != Evergreen + b
  {
    assert OciKey(a)[0] == 'o';
    assert (Evergreen + b)[0] == 'e';
  }

  lemma TierDiffers(b: string)
    requires b != "" && b[0] != 'i'
    ensures EvergreenKey(ImageTier) != Evergreen + b
  {
    assert ImageTier[0] == 'i';
    assert (Evergreen + b)[|Evergreen|] == b[0];
    assert EvergreenKey(ImageTier)[|Evergreen|] == 'i';
  }

  lemma InitialsDiffer()
    ensures Title[0] == 't' && VersionName[0] == 'v' && Description[0] == 'd' && Vendor[0] == 'v'
    ensures NonRootName[0] != 'i' && Security[0] != 'i' && BaseName[0] != 'i' && PatternName[0] != 'i'
  {
  }

  lemma VendorNotVersion()
    ensures OciKey(Vendor) != OciKey(VersionName)
  {
    assert Vendor[2] == 'n' && VersionName[2] == 'r';
    var n := |OciOrg| + |Image|;
    assert OciKey(Vendor)[n + 2] == 'n' && OciKey(VersionName)[n + 2] == 'r';
  }

  predicate Shows(labels: map<string, string>, key: string, value: string) {
    if value == "" then key !in labels else key in labels && labels[key] == value
  }

  lemma KeysKept(name: Fixed)
    ensures Kept(OciKey(name)) && Kept(EvergreenKey(name))
  {
    assert OciOrg[0] == 'o' && OciOrg[|OciOrg| - 1] == '.';
    assert Evergreen[0] == 'e' && Evergreen[|Evergreen| - 1] == '.';
    assert OciKey(name)[|OciOrg| - 1] == '.' && OciKey(name)[0] == 'o';
    assert EvergreenKey(name)[0] == 'e' && "ARG"[0] == 'A';
    assert EvergreenKey(name)[|Evergreen| - 1] == '.';
  }

  /** The five labels that the drift check asks for, as the standard block shows them. */
  lemma StandardShown(m: Manifest)
    ensures Shows(StandardMap(m), OciKey(Title), m.Name())
    ensures Shows(StandardMap(m), OciKey(VersionName), m.Version())
    ensures Shows(StandardMap(m), OciKey(Description), m.metadata.description)
    ensures Shows(StandardMap(m), EvergreenKey(ImageTier), m.metadata.tier)
    ensures OciKey(Vendor) !in StandardMap(m)
  {
    hide Kept;
    hide OciKey;
    hide Exemption;
    hide BaseKind;
    hide OfPairs;
    var ls := StandardLabels(m, Exemption(RecipeOf(m)));
    InitialsDiffer();
    KeysKept(Title);
    KeysKept(VersionName);
    KeysKept(Description);
    KeysKept(ImageTier);
    StandardKeysApart(m);
    Lookup(ls, 0);
    Lookup(ls, 1);
    Lookup(ls, 2);
    Lookup(ls, 3);
    NotListed(ls, OciKey(Vendor));
  }

  /** The key Evergreen + b is none of the five, except perhaps the tier. */
  lemma OthersApart(b: string)
    requires b != ""
    ensures OciKey(Title) != Evergreen + b && OciKey(VersionName) != Evergreen + b
    ensures OciKey(Description) != Evergreen + b && OciKey(Vendor) != Evergreen + b
    ensures b[0] != 'i' ==> EvergreenKey(ImageTier) != Evergreen + b
  {
    hide OciKey;
    hide EvergreenKey;
    FamiliesDiffer(Title, b);
    FamiliesDiffer(VersionName, b);
    FamiliesDiffer(Description, b);
    FamiliesDiffer(Vendor, b);
    if b[0] != 'i' {
      TierDiffers(b);
    }
  }

  lemma OciApart()
    ensures OciKey(Title) != OciKey(VersionName) && OciKey(Title) != OciKey(Description)
    ensures OciKey(VersionName) != OciKey(Description)
    ensures OciKey(Vendor) != OciKey(Title) && OciKey(Vendor) != OciKey(VersionName) && OciKey(Vendor) != OciKey(Description)
  {
    hide OciKey;
    InitialsDiffer();
    VendorNotVersion();
    OciDiffer(Title, VersionName);
    OciDiffer(Title, Description);
    OciDiffer(VersionName, Description);
    OciDiffer(Title, Vendor);
    OciDiffer(Description, Vendor);
  }

  lemma EvergreenApart(name: Fixed)
    requires name[0] != 'i'
    ensures EvergreenKey(name) != OciKey(Title) && EvergreenKey(name) != OciKey(VersionName)
    ensures EvergreenKey(name) != OciKey(Description) && EvergreenKey(name) != OciKey(Vendor)
    ensures EvergreenKey(name) != EvergreenKey(ImageTier)
  {
    hide OciKey;
    OthersApart(name);
  }

  lemma SecurityApart(name: Fixed)
    ensures SecurityKey(name) != OciKey(Title) && SecurityKey(name) != OciKey(VersionName)
    ensures SecurityKey(name) != OciKey(Description) && SecurityKey(name) != OciKey(Vendor)
    ensures SecurityKey(name) != EvergreenKey(ImageTier)
  {
    hide OciKey;
    hide EvergreenKey;
    InitialsDiffer();
    assert (Security + name)[0] == Security[0];
    OthersApart(Security + name);
  }

  lemma TierApart()
    ensures EvergreenKey(ImageTier) != OciKey(Title) && EvergreenKey(ImageTier) != OciKey(VersionName)
    ensures EvergreenKey(ImageTier) != OciKey(Description) && EvergreenKey(ImageTier) != OciKey(Vendor)
  {
    hide OciKey;
    OthersApart(ImageTier);
  }

  lemma StandardKeysApart(m: Manifest)
    ensures var ls := StandardLabels(m, Exemption(RecipeOf(m)));
            && (forall i, j | 0 <= i < 4 && 0 <= j < |ls| && j != i :: ls[j].key != ls[i].key)
            && (forall l | l in ls :: l.key != OciKey(Vendor))
  {
    hide OciKey;
    hide EvergreenKey;
    hide SecurityKey;
    hide Exemption;
    hide BaseKind;
    InitialsDiffer();
    OciApart();
    TierApart();
    EvergreenApart(NonRootName);
    EvergreenApart(BaseName);
    EvergreenApart(PatternName);
    SecurityApart(CapDrop);
    SecurityApart(NoNewPrivileges);
  }
}
