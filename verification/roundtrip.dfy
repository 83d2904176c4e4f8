/** What the extractors of dockerfile_utils.rs read back from a generated Dockerfile. */
module RoundTrip {
  import opened Text
  import opened Patterns
  import opened Silence
  import opened Manifests
  import opened Generator
  import opened Sections
  import opened Extract

  // --- What a capture can be ------------------------------------------------------

  /** A version that `ARG VERSION=` carries through: `[^"\s]+`. */
  predicate Token(s: string) {
    Bare(s) && Without(s, '"')
  }

  predicate Captured(g: seq<string>, p: Pattern) {
    match p
    case Version => |g| == 1 && Token(g[0])
    case From | User | Stop => |g| == 1 && Bare(g[0])
    case Entrypoint => |g| == 1 && Without(g[0], ']')
    case Expose => |g| == 1
    case Label => |g| == 2
  }

  lemma MatchCaptured(s: string, p: Pattern)
    ensures match Match(s, p) case Miss => true case Hit(g, _) => Captured(g, p)
  {
    hide Keyword;
    hide LabelPair;
    hide Run;
    var w := Keyword(p);
    if !p.Label? && w <= s {
      var t := s[|w|..];
      var arg := t[Run(t, Blank)..];
      VersionCaptured(arg);
      WordCaptured(arg);
      BracketCaptured(arg);
    }
  }

  lemma VersionCaptured(s: string)
    ensures match VersionArg(s) case Miss => true case Hit(g, _) => Captured(g, Version)
  {
    hide White;
    var q := if |s| > 8 && s[8] == '"' then 9 else 8;
    if "VERSION=" <= s && Run(s[q..], Unquoted) > 0 {
      var v := s[q..q + Run(s[q..], Unquoted)];
      assert forall i | 0 <= i < |v| :: v[i] == s[q..][i] && In(s[q..][i], Unquoted);
    }
  }

  lemma WordCaptured(s: string)
    ensures match WordArg(s) case Miss => true case Hit(g, _) => Bare(g[0])
  {
    hide White;
    var v := s[..Run(s, NonBlank)];
    assert forall i | 0 <= i < |v| :: v[i] == s[i] && In(s[i], NonBlank);
  }

  lemma BracketCaptured(s: string)
    ensures match BracketArg(s) case Miss => true case Hit(g, _) => Captured(g, Entrypoint)
  {
    if s != "" {
      var v := s[1..Run(s[1..], InBracket) + 1];
      assert forall i | 0 <= i < |v| :: v[i] == s[1..][i] && In(s[1..][i], InBracket);
    }
  }

  lemma {:induction false} AllCaptured(s: string, p: Pattern)
    ensures forall g | g in Captures(s, p) :: Captured(g, p)
    decreases |s|
  {
    hide Match;
    hide Captured;
    hide Captures;
    if s == "" {
      assert Captures("", p) == [] by { NoCaptures(p); }
    } else {
      CapturesStep(s, p);
      MatchCaptured(s, p);
      AllCaptured(s[Stride(s, p)..], p);
    }
  }

  lemma NoCaptures(p: Pattern)
    ensures Captures("", p) == []
  {
  }

  // --- The calm tails ----------------------------------------------------------------

  function FromLabels(m: Manifest, order: seq<string>): string
    requires forall k | k in order :: k in m.labels
  {
    LabelBlock(Labels(m, order)) + StopLine(m)
  }

  function FromEntrypoint(m: Manifest, order: seq<string>): string
    requires forall k | k in order :: k in m.labels
  {
    (if Wrapped(m) then EntrypointLine(m) else "") + FromLabels(m, order)
  }

  function FromExpose(m: Manifest, order: seq<string>): string
    requires forall k | k in order :: k in m.labels
  {
    (ExposeLine(m) + Healthcheck(m, StartPeriod(m))) + FromEntrypoint(m, order)
  }

  function FromMetrics(m: Manifest, order: seq<string>): string
    requires forall k | k in order :: k in m.labels
  {
    MetricsLine + FromExpose(m, order)
  }

  lemma KeysQuiet(p: Pattern, name: Fixed)
    requires !p.Label?
    ensures Quiet(OciKey(name), p) && Quiet(EvergreenKey(name), p) && Quiet(SecurityKey(name), p)
  {
    hide Quiet;
    hide Dull;
    DullQuiet(name, p);
    DullQuiet(OciOrg, p);
    DullQuiet(Image, p);
    DullQuiet(Evergreen, p);
    DullQuiet(Security, p);
    QuietAppend(Image, name, p);
    QuietAppend(OciOrg, Image + name, p);
    QuietAppend(Evergreen, name, p);
    QuietAppend(Security, name, p);
    QuietAppend(Evergreen, Security + name, p);
  }

  lemma ExemptionQuiet(m: Manifest, p: Pattern)
    ensures Quiet(Exemption(RecipeOf(m)), p)
  {
    hide Quiet;
    hide Dull;
    QuietFixed("", p);
    DullQuiet(RepackPattern, p);
    DullQuiet(UpstreamPattern, p);
  }

  lemma StandardQuiet(m: Manifest, p: Pattern)
    requires Clean(m, p) && !p.Label?
    ensures forall l | l in StandardLabels(m, Exemption(RecipeOf(m))) :: QuietPair(l, p)
  {
    hide Quiet;
    hide Dull;
    hide BaseKind;
    hide Exemption;
    hide OciKey;
    hide EvergreenKey;
    hide SecurityKey;
    ExemptionQuiet(m, p);
    QuietFixed("ALL", p);
    DullQuiet(Yes, p);
    DullQuiet(BaseKind(m.BaseImage()), p);
    KeysQuiet(p, Title);
    KeysQuiet(p, VersionName);
    KeysQuiet(p, Description);
    KeysQuiet(p, ImageTier);
    KeysQuiet(p, NonRootName);
    KeysQuiet(p, CapDrop);
    KeysQuiet(p, NoNewPrivileges);
    KeysQuiet(p, BaseName);
    KeysQuiet(p, PatternName);
  }

  lemma LabelsQuiet(m: Manifest, order: seq<string>, p: Pattern)
    requires forall k | k in order :: k in m.labels
    requires Clean(m, p) && !p.Label?
    ensures forall l | l in Labels(m, order) :: QuietPair(l, p)
  {
    hide QuietPair;
    hide StandardLabels;
    hide Clean;
    StandardQuiet(m, p);
    var custom := CustomLabels(m, order);
    forall l | l in Labels(m, order) ensures QuietPair(l, p) {
      if l in custom {
        var i :| 0 <= i < |custom| && custom[i] == l;
        CustomQuiet(m, order[i], p);
      }
    }
  }

  lemma CustomQuiet(m: Manifest, k: string, p: Pattern)
    requires k in m.labels && Clean(m, p) && !p.Label?
    ensures QuietPair(Pair(k, m.labels[k]), p)
  {
    hide Quiet;
  }

  lemma FromLabelsCalm(m: Manifest, order: seq<string>, p: Pattern)
    requires forall k | k in order :: k in m.labels
    requires Clean(m, p) && !p.Label? && !p.Stop?
    ensures Calm(FromLabels(m, order), p)
  {
    hide Calm;
    hide Clean;
    hide LabelBlock;
    hide StopLine;
    LabelsQuiet(m, order, p);
    LabelBlockCalm(Labels(m, order), p);
    StopLineCalm(m, p);
    CalmAppend(LabelBlock(Labels(m, order)), StopLine(m), p);
  }

  lemma FromEntrypointCalm(m: Manifest, order: seq<string>, p: Pattern)
    requires forall k | k in order :: k in m.labels
    requires Clean(m, p) && !p.Label? && !p.Stop? && !p.Entrypoint?
    ensures Calm(FromEntrypoint(m, order), p)
  {
    hide Calm;
    hide Clean;
    hide EntrypointLine;
    hide FromLabels;
    FromLabelsCalm(m, order, p);
    EntrypointLineCalm(m, p);
    CalmAppend(EntrypointLine(m), FromLabels(m, order), p);
    assert "" + FromLabels(m, order) == FromLabels(m, order);
  }

  lemma PortsCalm(m: Manifest, p: Pattern)
    requires Clean(m, p) && !p.Expose?
    ensures Calm(ExposeLine(m) + Healthcheck(m, StartPeriod(m)), p)
  {
    hide Calm;
    hide Clean;
    hide ExposeLine;
    hide Healthcheck;
    ExposeLineCalm(m, p);
    HealthcheckCalm(m, p);
    CalmAppend(ExposeLine(m), Healthcheck(m, StartPeriod(m)), p);
  }

  lemma FromMetricsCalm(m: Manifest, order: seq<string>, p: Pattern)
    requires forall k | k in order :: k in m.labels
    requires Clean(m, p) && (p.Version? || p.From? || p.User?)
    ensures Calm(FromMetrics(m, order), p)
  {
    hide Calm;
    hide Clean;
    hide ExposeLine;
    hide Healthcheck;
    hide FromEntrypoint;
    hide MetricsLine;
    FromEntrypointCalm(m, order, p);
    PortsCalm(m, p);
    CalmAppend(ExposeLine(m) + Healthcheck(m, StartPeriod(m)), FromEntrypoint(m, order), p);
    MetricsLineCalm(p);
    CalmAppend(MetricsLine, FromExpose(m, order), p);
  }

  lemma RuntimeIs(m: Manifest, order: seq<string>)
    requires forall k | k in order :: k in m.labels
    ensures Runtime(m, order) == UserLine(m) + FromMetrics(m, order)
  {
  }

  // --- Version ------------------------------------------------------------------------

  lemma VersionArgIs(v: string, rest: string)
    requires Token(v) && rest != "" && rest[0] == '\n'
    ensures VersionArg("VERSION=" + (v + rest)) == Hit([v], 8 + |v|)
  {
    var s := "VERSION=" + (v + rest);
    assert s[8] == v[0] && s[8..] == v + rest;
    RunIs(s[8..], |v|, Unquoted);
    assert s[8..8 + |v|] == v && s[8 + |v|] == '\n';
  }

  lemma VersionScan(v: string, rest: string)
    requires Token(v) && rest != "" && rest[0] == '\n'
    ensures Captures("ARG" + (" " + ("VERSION=" + (v + rest))), Version) == [[v]] + Captures(rest, Version)
  {
    hide Captures;
    hide VersionArg;
    var tail := "VERSION=" + (v + rest);
    var arg := " " + tail;
    assert arg[1..] == tail;
    RunIs(arg, 1, Blank);
    VersionArgIs(v, rest);
    var s := "ARG" + arg;
    assert s[3..] == arg;
    assert Argument(arg, Version) == Skipping(1, VersionArg(tail));
    assert s[12 + |v|..] == rest;
    CapturesStep(s, Version);
  }

  predicate Downloads(m: Manifest) {
    RecipeOf(m).BinaryDownload? || RecipeOf(m).SourceBuild?
  }

  lemma AboveSplit(m: Manifest, sh: Scripts) returns (more: string)
    ensures Above(m, sh) == Header(m) + if Downloads(m) then VersionLine(m) + more else more
    ensures !Downloads(m) ==> more == ShimArg + (Newline + ShimStage)
  {
    hide Header;
    hide VersionLine;
    hide FromLine;
    more := match RecipeOf(m)
    case BinaryDownload =>
      ShimArg + ("ARG TARGETARCH\n\n" + (FromLine(BUILDER_BASE, " AS downloader\n") +
      ("ARG VERSION\n" + ("ARG TARGETARCH\n" + (sh.download + ShimStage)))))
    case SourceBuild =>
      ShimArg + (Newline + (FromLine(RUST_BASE, " AS builder\n") + ("ARG VERSION\n" + (sh.compile + ShimStage))))
    case _ => ShimArg + (Newline + ShimStage);
  }

  lemma OtherArgMiss(t: string)
    requires t != "" && t[0] == 'S'
    ensures Match("ARG " + t, Version) == Miss
  {
    var s := "ARG " + t;
    assert s[3..] == " " + t;
    RunIs(s[3..], 1, Blank);
    assert s[3..][1..] == t;
  }

  lemma ShimArgTailCalm()
    ensures Calm("RG " + ("SHIM_VERSION=" + (SHIM_VERSION + Newline)), Version)
  {
    hide Quiet;
    hide Dull;
    Ends(Newline, Version);
    Then(SHIM_VERSION, Newline, Version);
    QuietFixed("SHIM_VERSION=", Version);
    QuietAppend("SHIM_VERSION=", SHIM_VERSION + Newline, Version);
    WordThen("RG ", "SHIM_VERSION=" + (SHIM_VERSION + Newline), Version);
  }

  /** An argument that is not VERSION is passed over. */
  lemma ShimArgScan(rest: string)
    ensures Captures(ShimArg + rest, Version) == Captures(rest, Version)
  {
    hide Captures;
    hide Match;
    hide Quiet;
    var t := "SHIM_VERSION=" + (SHIM_VERSION + Newline);
    assert (t + rest)[0] == t[0] == 'S';
    OtherArgMiss(t + rest);
    assert ShimArg + rest == "ARG " + (t + rest);
    CapturesStep(ShimArg + rest, Version);
    assert (ShimArg + rest)[1..] == ("RG " + t) + rest;
    ShimArgTailCalm();
    CalmScan("RG " + t, rest, Version);
  }

  lemma VersionIsToken(content: string)
    ensures ExtractVersion(content).Some? ==> Token(ExtractVersion(content).value)
  {
    hide Captures;
    hide Token;
    AllCaptured(content, Version);
    var found := Captures(content, Version);
    assert found != [] ==> Captured(found[0], Version);
  }

  lemma VersionFirst(m: Manifest, rest: string)
    requires Clean(m, Version) && Token(m.Version())
    ensures ExtractVersion(Header(m) + (VersionLine(m) + rest)) == Some(m.Version())
  {
    hide Captures;
    hide Quiet;
    hide Header;
    HeaderCalm(m, Version);
    CalmScan(Header(m), VersionLine(m) + rest, Version);
    var line := "ARG" + (" " + ("VERSION=" + (m.Version() + (Newline + rest))));
    assert VersionLine(m) + rest == line;
    VersionScan(m.Version(), Newline + rest);
  }

  /** The version comes back exactly when it is one unquoted word. */
  lemma VersionRead(m: Manifest, sh: Scripts, order: seq<string>)
    requires forall k | k in order :: k in m.labels
    requires Clean(m, Version) && Downloads(m)
    ensures ExtractVersion(Generate(m, sh, order)) == Some(m.Version()) <==> Token(m.Version())
  {
    hide ExtractVersion;
    hide Generate;
    hide Clean;
    hide Above;
    hide Header;
    hide VersionLine;
    hide FromLine;
    hide Below;
    hide Runtime;
    VersionIsToken(Generate(m, sh, order));
    if Token(m.Version()) {
      var more := AboveSplit(m, sh);
      VersionTextIs(m, sh, order, more);
      VersionFirst(m, more + (FromLine(FinalBase(m), "\n") + (Below(m) + Runtime(m, order))));
    }
  }

  lemma VersionTextIs(m: Manifest, sh: Scripts, order: seq<string>, more: string)
    requires forall k | k in order :: k in m.labels
    requires Above(m, sh) == Header(m) + (VersionLine(m) + more)
    ensures Generate(m, sh, order) ==
            Header(m) + (VersionLine(m) + (more + (FromLine(FinalBase(m), "\n") + (Below(m) + Runtime(m, order)))))
  {
    hide Above;
    hide Header;
    hide VersionLine;
    hide FromLine;
    hide Below;
    hide Runtime;
  }

  /** The repacked and installed images carry no version argument at all. */
  lemma NoVersionRead(m: Manifest, sh: Scripts, order: seq<string>)
    requires forall k | k in order :: k in m.labels
    requires Clean(m, Version) && !Downloads(m)
    ensures ExtractVersion(Generate(m, sh, order)) == None
  {
    hide Captures;
    hide Calm;
    hide Clean;
    hide Header;
    hide ShimArg;
    hide ShimStage;
    hide FromLine;
    hide Below;
    hide Runtime;
    hide FinalBase;
    var p := Version;
    HeaderCalm(m, p);
    ShimStageCalm(p);
    Ends(Newline, p);
    TailCalm(Newline, p);
    CalmAppend(Newline, ShimStage, p);
    FinalBaseCalm(m, p);
    BelowCalm(m, p);
    RuntimeCalm(m, order, p);
    var r1 := Below(m) + Runtime(m, order);
    CalmAppend(Below(m), Runtime(m, order), p);
    CalmAppend(FromLine(FinalBase(m), "\n"), r1, p);
    var r2 := FromLine(FinalBase(m), "\n") + r1;
    CalmAppend(Newline + ShimStage, r2, p);
    CalmScan(Header(m), ShimArg + (Newline + ShimStage + r2), p) by { CalmIs(Header(m), p); }
    ShimArgScan(Newline + ShimStage + r2);
    CalmNothing(Newline + ShimStage + r2, p);
    assert Generate(m, sh, order) == Header(m) + (ShimArg + (Newline + ShimStage + r2));
  }

  lemma CalmIs(s: string, p: Pattern)
    requires Calm(s, p)
    ensures EndsBlank(s) && Quiet(s, p)
  {
  }

  lemma FinalBaseCalm(m: Manifest, p: Pattern)
    requires Clean(m, p) && !p.From?
    ensures Calm(FromLine(FinalBase(m), "\n"), p)
  {
    hide Quiet;
    hide Dull;
    assert Plain(FinalBase(m), p) by { FinalBasePlain(m, p); }
    Ends(Newline, p);
    FromLineCalm(FinalBase(m), Newline, p);
  }

  lemma FinalBasePlain(m: Manifest, p: Pattern)
    requires Clean(m, p)
    ensures Plain(FinalBase(m), p)
  {
    hide Quiet;
    hide Dull;
    QuietFixed("scratch", p);
    DullQuiet(ChainguardHost, p);
    DullQuiet(WolfiName, p);
    QuietAppend(ChainguardHost, WolfiName, p);
    WolfiPlain();
  }

  lemma WolfiPlain()
    ensures '"' !in WOLFI_BASE && '"' !in "scratch"
  {
  }

  lemma RuntimeCalm(m: Manifest, order: seq<string>, p: Pattern)
    requires forall k | k in order :: k in m.labels
    requires Clean(m, p) && (p.Version? || p.From?)
    ensures Calm(Runtime(m, order), p)
  {
    hide Calm;
    hide Clean;
    hide UserLine;
    hide FromMetrics;
    RuntimeIs(m, order);
    UserLineIdle(m, p);
    FromMetricsCalm(m, order, p);
    IdleAppend(UserLine(m), FromMetrics(m, order), p);
    assert FromMetrics(m, order) != "" by { CalmIs(FromMetrics(m, order), p); }
  }

  // --- Base image -----------------------------------------------------------------------

  lemma FromScan(base: string, end: string, rest: string)
    requires Bare(base) && Calm(end, From) && White(end[0])
    ensures Captures(FromLine(base, end) + rest, From) == [[base]] + Captures(rest, From)
  {
    hide Captures;
    hide Quiet;
    assert FromLine(base, end) + rest == "FROM" + (" " + (base + (end + rest)));
    WordScan(base, end + rest, From);
    CalmScan(end, rest, From);
  }

  lemma BareAppend(a: string, b: string)
    requires Bare(a) && Bare(b)
    ensures Bare(a + b)
  {
    hide White;
  }

  lemma StageBasesBare()
    ensures Bare(BUILDER_BASE) && Bare(RUST_BASE)
  {
  }

  lemma WolfiBare()
    ensures Bare(WOLFI_BASE) && Bare("scratch")
  {
    assert Bare(ChainguardHost);
    assert Bare(WolfiName);
    hide White;
    BareAppend(ChainguardHost, WolfiName);
  }

  lemma ShimRefBare()
    ensures Bare(SHIM_IMAGE + ShimTag)
  {
    assert Bare(ShimHost) && Bare(ShimOrg);
    assert Bare(ShimName) && Bare(":${");
    assert Bare("SHIM_VERSION}");
    hide Bare;
    BareAppend(ShimOrg, ShimName);
    BareAppend(ShimHost, ShimOrg + ShimName);
    BareAppend(":${", "SHIM_VERSION}");
    BareAppend(SHIM_IMAGE, ShimTag);
  }

  lemma StageScan(base: string, end: string, more: string, rest: string)
    requires Bare(base) && Calm(end, From) && White(end[0])
    ensures Captures((FromLine(base, end) + more) + rest, From) == [[base]] + Captures(more + rest, From)
  {
    hide Captures;
    hide Quiet;
    assert (FromLine(base, end) + more) + rest == FromLine(base, end) + (more + rest);
    FromScan(base, end, more + rest);
  }

  lemma CalmThrough(a: string, more: string, rest: string, p: Pattern)
    requires Calm(a, p)
    ensures Captures((a + more) + rest, p) == Captures(more + rest, p)
  {
    hide Captures;
    hide Quiet;
    assert (a + more) + rest == a + (more + rest);
    CalmScan(a, more + rest, p);
  }

  lemma ShimStageScan(rest: string)
    ensures Captures(ShimStage + rest, From) == [[SHIM_IMAGE + ShimTag]] + Captures(rest, From)
  {
    hide Captures;
    hide Quiet;
    ShimRefBare();
    QuietFixed(" AS shim\n\n", From);
    FromScan(SHIM_IMAGE + ShimTag, " AS shim\n\n", rest);
  }

  /** The stages above the final one. */
  function EarlierBases(m: Manifest): seq<seq<string>> {
    match RecipeOf(m)
    case BinaryDownload => [[BUILDER_BASE], [SHIM_IMAGE + ShimTag]]
    case SourceBuild => [[RUST_BASE], [SHIM_IMAGE + ShimTag]]
    case _ => [[SHIM_IMAGE + ShimTag]]
  }

  /** Two calm parts in front of the rest. */
  lemma CalmTwice(a: string, b: string, more: string, rest: string, p: Pattern)
    requires Calm(a, p) && Calm(b, p)
    ensures Captures((a + (b + more)) + rest, p) == Captures(more + rest, p)
  {
    hide Captures;
    hide Calm;
    CalmThrough(b, more, rest, p);
    CalmThrough(a, b + more, rest, p);
  }

  lemma DownloadScan(m: Manifest, sh: Scripts, rest: string)
    requires Clean(m, From) && CleanScripts(m, sh, From) && RecipeOf(m).BinaryDownload?
    ensures Captures(Above(m, sh) + rest, From) == EarlierBases(m) + Captures(rest, From)
  {
    hide Captures;
    hide Calm;
    hide Clean;
    hide Header;
    hide VersionLine;
    hide FromLine;
    hide ShimArg;
    hide ShimStage;
    var p := From;
    ArgLinesCalm(p);
    HeaderCalm(m, p);
    VersionLineCalm(m, p);
    ShimArgCalm(p);
    StageEnds(p);
    TailCalm(" AS downloader\n", p);
    StageBasesBare();
    hide Bare;
    ShimStageScan(rest);
    CalmThrough(sh.download, ShimStage, rest, p);
    var r1 := sh.download + ShimStage;
    CalmTwice("ARG VERSION\n", "ARG TARGETARCH\n", r1, rest, p);
    var r2 := "ARG VERSION\n" + ("ARG TARGETARCH\n" + r1);
    StageScan(BUILDER_BASE, " AS downloader\n", r2, rest);
    var r3 := FromLine(BUILDER_BASE, " AS downloader\n") + r2;
    CalmTwice(ShimArg, "ARG TARGETARCH\n\n", r3, rest, p);
    CalmTwice(Header(m), VersionLine(m), ShimArg + ("ARG TARGETARCH\n\n" + r3), rest, p);
  }

  lemma CompileScan(m: Manifest, sh: Scripts, rest: string)
    requires Clean(m, From) && CleanScripts(m, sh, From) && RecipeOf(m).SourceBuild?
    ensures Captures(Above(m, sh) + rest, From) == EarlierBases(m) + Captures(rest, From)
  {
    hide Captures;
    hide Calm;
    hide Clean;
    hide Header;
    hide VersionLine;
    hide FromLine;
    hide ShimArg;
    hide ShimStage;
    var p := From;
    ArgLinesCalm(p);
    HeaderCalm(m, p);
    VersionLineCalm(m, p);
    ShimArgCalm(p);
    Ends(Newline, p);
    TailCalm(Newline, p);
    StageEnds(p);
    TailCalm(" AS builder\n", p);
    StageBasesBare();
    hide Bare;
    ShimStageScan(rest);
    CalmTwice("ARG VERSION\n", sh.compile, ShimStage, rest, p);
    var r2 := "ARG VERSION\n" + (sh.compile + ShimStage);
    StageScan(RUST_BASE, " AS builder\n", r2, rest);
    var r3 := FromLine(RUST_BASE, " AS builder\n") + r2;
    CalmTwice(ShimArg, Newline, r3, rest, p);
    CalmTwice(Header(m), VersionLine(m), ShimArg + (Newline + r3), rest, p);
  }

  lemma AboveScan(m: Manifest, sh: Scripts, rest: string)
    requires Clean(m, From) && CleanScripts(m, sh, From)
    ensures Captures(Above(m, sh) + rest, From) == EarlierBases(m) + Captures(rest, From)
  {
    match RecipeOf(m)
    case BinaryDownload => DownloadScan(m, sh, rest);
    case SourceBuild => CompileScan(m, sh, rest);
    case _ => RepackScan(m, sh, rest);
  }

  lemma RepackScan(m: Manifest, sh: Scripts, rest: string)
    requires Clean(m, From) && !RecipeOf(m).BinaryDownload? && !RecipeOf(m).SourceBuild?
    ensures Captures(Above(m, sh) + rest, From) == EarlierBases(m) + Captures(rest, From)
  {
    hide Captures;
    hide Calm;
    hide Clean;
    hide Header;
    hide ShimArg;
    hide ShimStage;
    var p := From;
    HeaderCalm(m, p);
    ShimArgCalm(p);
    Ends(Newline, p);
    TailCalm(Newline, p);
    ShimStageScan(rest);
    CalmTwice(ShimArg, Newline, ShimStage, rest, p);
    CalmThrough(Header(m), ShimArg + (Newline + ShimStage), rest, p);
  }

  /** All the FROM lines of a generated file, in order. */
  lemma FromsRead(m: Manifest, sh: Scripts, order: seq<string>)
    requires forall k | k in order :: k in m.labels
    requires Clean(m, From) && CleanScripts(m, sh, From) && Bare(FinalBase(m))
    ensures Captures(Generate(m, sh, order), From) == EarlierBases(m) + [[FinalBase(m)]]
  {
    hide Captures;
    hide Clean;
    hide Quiet;
    hide Bare;
    hide Above;
    hide FromLine;
    hide FinalBase;
    hide Below;
    hide Runtime;
    hide EarlierBases;
    var rest := Below(m) + Runtime(m, order);
    AboveScan(m, sh, FromLine(FinalBase(m), "\n") + rest);
    QuietFixed("\n", From);
    FromScan(FinalBase(m), "\n", rest);
    BelowCalm(m, From);
    RuntimeCalm(m, order, From);
    CalmAppend(Below(m), Runtime(m, order), From);
    CalmNothing(rest, From);
  }

  lemma BaseIsBare(content: string)
    ensures Bare(ExtractBase(content))
  {
    hide Captures;
    WolfiBare();
    hide Bare;
    AllCaptured(content, From);
    var found := Captures(content, From);
    assert found != [] ==> Captured(found[|found| - 1], From);
  }

  /** The base of the final stage comes back exactly when it is one word. */
  lemma BaseRead(m: Manifest, sh: Scripts, order: seq<string>)
    requires forall k | k in order :: k in m.labels
    requires Clean(m, From) && CleanScripts(m, sh, From)
    ensures ExtractBase(Generate(m, sh, order)) == FinalBase(m) <==> Bare(FinalBase(m))
  {
    hide Generate;
    hide Captures;
    hide Bare;
    hide Clean;
    BaseIsBare(Generate(m, sh, order));
    if Bare(FinalBase(m)) {
      FromsRead(m, sh, order);
    }
  }
}
