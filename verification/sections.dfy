/** The lines of a generated Dockerfile in which a pattern finds nothing. */
module Sections {
  import opened Text
  import opened Patterns
  import opened Silence
  import opened Manifests
  import opened Generator

  /** No free text of the manifest contains what pattern p looks for. */
  predicate Clean(m: Manifest, p: Pattern) {
    && Plain(Upper(m.Name()), p) && Plain(m.Name(), p) && Plain(m.Version(), p)
    && Plain(m.metadata.description, p) && Plain(m.metadata.tier, p)
    && Plain(m.source.sourceType, p) && Plain(m.source.url, p) && Plain(m.BaseImage(), p)
    && Plain(m.User(), p) && Plain(Uid(m), p) && Plain(m.StopSignal(), p)
    && (forall s | s in m.expose :: Plain(s, p))
    && (forall s | s in m.entrypoint :: Plain(s, p))
    && (forall k | k in m.labels :: Plain(k, p) && Plain(m.labels[k], p))
  }


  // --- Quiet pieces ---------------------------------------------------------

  lemma HeaderWords(p: Pattern)
    ensures Quiet("# EVERGREEN ", p) && Quiet("HARDENED ", p)
  {
    hide Quiet;
    QuietFixed("# EVERGREEN ", p);
    QuietFixed("HARDENED ", p);
  }

  lemma HeaderTitles(p: Pattern)
    ensures Quiet("\n# Source Type: ", p) && Quiet("\n# Tier: ", p) && Quiet("\n# Auto-generated", p) && Quiet("\n# ", p)
  {
    hide Quiet;
    QuietFixed("\n# Source Type: ", p);
    QuietFixed("\n# Tier: ", p);
    QuietFixed("\n# Auto-generated", p);
    QuietFixed("\n# ", p);
  }

  lemma HeaderCalm(m: Manifest, p: Pattern)
    requires Clean(m, p)
    ensures Calm(Header(m), p)
  {
    hide Quiet;
    hide Dull;
    hide Lacks;
    HeaderWords(p);
    HeaderTitles(p);
    Ends(GeneratedEnd, p);
    Then(Generated, GeneratedEnd, p);
    var r3 := "\n# Auto-generated" + (Generated + GeneratedEnd);
    QuietThen("\n# Auto-generated", Generated + GeneratedEnd, p);
    FieldRest(m.metadata.tier, r3, p);
    var r2 := "\n# Tier: " + (m.metadata.tier + r3);
    QuietThen("\n# Tier: ", m.metadata.tier + r3, p);
    FieldRest(m.source.sourceType, r2, p);
    var r1 := "\n# Source Type: " + (m.source.sourceType + r2);
    QuietThen("\n# Source Type: ", m.source.sourceType + r2, p);
    FieldRest(m.metadata.description, r1, p);
    var r0 := "\n# " + (m.metadata.description + r1);
    QuietThen("\n# ", m.metadata.description + r1, p);
    FieldRest(Upper(m.Name()), r0, p);
    QuietThen("HARDENED ", Upper(m.Name()) + r0, p);
    QuietThen("# EVERGREEN ", "HARDENED " + (Upper(m.Name()) + r0), p);
  }

  lemma ArgWords(p: Pattern)
    requires !p.Version?
    ensures Quiet("ARG ", p) && Quiet("VERSION=", p)
  {
    hide Quiet;
    QuietFixed("ARG ", p);
    QuietFixed("VERSION=", p);
  }

  lemma VersionLineCalm(m: Manifest, p: Pattern)
    requires Clean(m, p) && !p.Version?
    ensures Calm(VersionLine(m), p)
  {
    hide Quiet;
    hide Dull;
    ArgWords(p);
    Ends(Newline, p);
    FieldRest(m.Version(), Newline, p);
    PlainSeam("VERSION=", m.Version(), Newline, p);
    QuietAppend("VERSION=", m.Version() + Newline, p);
    QuietThen("ARG ", "VERSION=" + (m.Version() + Newline), p);
    assert VersionLine(m) == "ARG " + ("VERSION=" + (m.Version() + Newline));
  }

  lemma PlainSeam(a: string, field: string, rest: string, p: Pattern)
    requires a != "" && !Capital(a[|a| - 1])
    requires Plain(field, p) && rest != "" && rest[0] != '"'
    ensures Seam(a, field + rest, p)
  {
    if field != "" {
      assert field[0] in field;
    }
  }

  lemma ShimArgCalm(p: Pattern)
    requires !p.Version?
    ensures Calm(ShimArg, p)
  {
    hide Quiet;
    hide Dull;
    Ends(Newline, p);
    Then(SHIM_VERSION, Newline, p);
    QuietFixed("SHIM_VERSION=", p);
    QuietAppend("SHIM_VERSION=", SHIM_VERSION + Newline, p);
    WordThen("ARG ", "SHIM_VERSION=" + (SHIM_VERSION + Newline), p);
  }

  function ShimTail(): string {
    ":${" + ("SHIM_VERSION}" + " AS shim\n\n")
  }

  lemma ShimTailTail(p: Pattern)
    ensures Tail(ShimTail(), p)
  {
    hide Quiet;
    QuietFixed(" AS shim\n\n", p);
    WordThen("SHIM_VERSION}", " AS shim\n\n", p);
    WordThen(":${", "SHIM_VERSION}" + " AS shim\n\n", p);
  }

  lemma ShimStageCalm(p: Pattern)
    requires !p.From?
    ensures Calm(ShimStage, p)
  {
    hide Quiet;
    hide Dull;
    ShimTailTail(p);
    Then(ShimName, ShimTail(), p);
    Then(ShimOrg, ShimName + ShimTail(), p);
    Then(ShimHost, ShimOrg + (ShimName + ShimTail()), p);
    var ref := ShimHost + (ShimOrg + (ShimName + ShimTail()));
    WordThen("FROM ", ref, p);
    assert SHIM_IMAGE + ShimTag + " AS shim\n\n" == ref;
    assert ShimStage == "FROM " + ref;
  }

  lemma CopyShimCalm(p: Pattern)
    ensures Calm(CopyShim, p)
  {
    hide Quiet;
    hide Dull;
    Ends(Newline, p);
    Then(ShimBin, Newline, p);
    Then(FromShim, ShimBin + Newline, p);
    CopyThen(FromShim + (ShimBin + Newline), p);
  }

  lemma CopyThen(rest: string, p: Pattern)
    requires Tail(rest, p)
    ensures Calm("COPY " + rest, p)
  {
    hide Quiet;
    WordThen("COPY ", rest, p);
  }

  lemma CopyBundleCalm(p: Pattern)
    ensures Calm("COPY " + (FromDownloader + (Slash + (Bundle + (BundleDir + (Bundle + BlankLine))))), p)
  {
    hide Calm;
    hide Dull;
    Ends(BlankLine, p);
    TailCalm(BlankLine, p);
    Then(Bundle, BlankLine, p);
    TailCalm(Bundle + BlankLine, p);
    Then(BundleDir, Bundle + BlankLine, p);
    var r1 := BundleDir + (Bundle + BlankLine);
    TailCalm(r1, p);
    Then(Bundle, r1, p);
    TailCalm(Bundle + r1, p);
    Then(Slash, Bundle + r1, p);
    TailCalm(Slash + (Bundle + r1), p);
    Then(FromDownloader, Slash + (Bundle + r1), p);
    CopyThen(FromDownloader + (Slash + (Bundle + r1)), p);
  }

  lemma CopyDownloadedCalm(m: Manifest, p: Pattern)
    requires Clean(m, p)
    ensures Calm(CopyDownloaded(m), p)
  {
    hide Calm;
    hide Dull;
    CopyBundleCalm(p);
    Ends(Newline, p);
    FieldThen(BinDir, m.Name(), Newline, p);
    var r1 := Put(BinDir, m.Name(), Newline);
    TailCalm(r1, p);
    Then(Download, r1, p);
    TailCalm(Download + r1, p);
    Then(FromDownloader, Download + r1, p);
    CopyThen(FromDownloader + (Download + r1), p);
    CalmAppend("COPY " + (FromDownloader + (Download + r1)),
               "COPY " + (FromDownloader + (Slash + (Bundle + (BundleDir + (Bundle + BlankLine))))), p);
  }

  lemma CopyBuiltCalm(m: Manifest, p: Pattern)
    requires Clean(m, p)
    ensures Calm(CopyBuilt(m), p)
  {
    hide Quiet;
    hide Dull;
    Ends(BlankLine, p);
    FieldThen(ToBin, m.Name(), BlankLine, p);
    var r := Put(ToBin, m.Name(), BlankLine);
    FieldThen(FromBuilder, m.Name(), r, p);
    CopyThen(Put(FromBuilder, m.Name(), r), p);
  }

  lemma PackageRunCalm(m: Manifest, p: Pattern)
    requires Clean(m, p)
    ensures Calm(PackageRun(m), p)
  {
    hide Quiet;
    hide Dull;
    hide Tail;
    hide Lacks;
    var name := m.Name();
    Ends(BlankLine, p);
    FieldThen(RunDir, name, BlankLine, p);
    var r1 := Put(RunDir, name, BlankLine);
    FieldThen(LogDir, name, r1, p);
    var r2 := Put(LogDir, name, r1);
    FieldThen(LibDir, name, r2, p);
    var r3 := Put(LibDir, name, r2);
    TailCalm(r3, p);
    Then(NonRoot, r3, p);
    ChownThen(NonRoot + r3, p);
    Then(AndThen, " chown -R " + (NonRoot + r3), p);
    var r4 := AndThen + (" chown -R " + (NonRoot + r3));
    FieldThen(RunDir, name, r4, p);
    var r5 := Put(RunDir, name, r4);
    FieldThen(LogDir, name, r5, p);
    var r6 := Put(LogDir, name, r5);
    FieldThen(MakeLib, name, r6, p);
    var r7 := Put(MakeLib, name, r6);
    TailCalm(r7, p);
    Then(Continued, r7, p);
    TailCalm(Continued + r7, p);
    Then(CertPackage, Continued + r7, p);
    FieldThen(ApkAdd, name, CertPackage + (Continued + r7), p);
    RunThen(Put(ApkAdd, name, CertPackage + (Continued + r7)), p);
  }

  lemma TailCalm(s: string, p: Pattern)
    requires Tail(s, p)
    ensures Calm(s, p)
  {
  }

  lemma ChownThen(rest: string, p: Pattern)
    requires Tail(rest, p)
    ensures Calm(" chown -R " + rest, p)
  {
    hide Quiet;
    WordThen(" chown -R ", rest, p);
  }

  lemma RunThen(rest: string, p: Pattern)
    requires Tail(rest, p)
    ensures Calm("RUN " + rest, p)
  {
    hide Quiet;
    WordThen("RUN ", rest, p);
  }

  lemma ChownCalm(m: Manifest, p: Pattern)
    requires Clean(m, p)
    ensures Calm(Chown(m), p)
  {
    hide Quiet;
    hide Dull;
    Ends(OrTrue, p);
    Then(Mute, OrTrue, p);
    FieldThen(LibDir, m.Name(), Mute + OrTrue, p);
    var r1 := Put(LibDir, m.Name(), Mute + OrTrue);
    FieldThen(Colon, Uid(m), r1, p);
    var r2 := Put(Colon, Uid(m), r1);
    FieldRest(Uid(m), r2, p);
    WordThen("RUN chown -R ", Uid(m) + r2, p);
  }

  lemma PortPlain(m: Manifest, p: Pattern)
    requires Clean(m, p)
    ensures Plain(PrimaryPort(m), p)
  {
    hide Plain;
    DefaultPortPlain(p);
  }

  lemma DefaultPortPlain(p: Pattern)
    ensures Plain("8080", p)
  {
    hide Quiet;
    QuietFixed("8080", p);
  }

  lemma HealthcheckCalm(m: Manifest, p: Pattern)
    requires Clean(m, p)
    ensures Calm(Healthcheck(m, StartPeriod(m)), p)
  {
    hide Quiet;
    hide Dull;
    hide Clean;
    hide Lacks;
    hide Tail;
    PortPlain(m, p);
    Ends(CallEnd, p);
    FieldThen(TcpArg, PrimaryPort(m), CallEnd, p);
    var r1 := Put(TcpArg, PrimaryPort(m), CallEnd);
    TailCalm(r1, p);
    Then(CheckArg, r1, p);
    var r2 := CheckArg + r1;
    TailCalm(r2, p);
    Then(NextArg, r2, p);
    TailCalm(NextArg + r2, p);
    Then(ShimBin, NextArg + r2, p);
    TailCalm(ShimBin + (NextArg + r2), p);
    Then(Quote, ShimBin + (NextArg + r2), p);
    var r3 := Quote + (ShimBin + (NextArg + r2));
    TailCalm(r3, p);
    assert ShimQuoted + r2 == r3;
    Then(Bracket, r3, p);
    CmdThen(Bracket + r3, p);
    var r4 := "CMD " + (Bracket + r3);
    Then(Retries, r4, p);
    TailCalm(Retries + r4, p);
    Then(StartPeriod(m), Retries + r4, p);
    var r5 := StartPeriod(m) + (Retries + r4);
    TailCalm(r5, p);
    Then(Timeout, r5, p);
    TailCalm(Timeout + r5, p);
    Then(Interval, Timeout + r5, p);
    HealthThen(Interval + (Timeout + r5), p);
  }

  lemma CmdThen(rest: string, p: Pattern)
    requires Tail(rest, p)
    ensures Calm("CMD " + rest, p)
  {
    hide Quiet;
    WordThen("CMD ", rest, p);
  }

  lemma HealthThen(rest: string, p: Pattern)
    requires Tail(rest, p)
    ensures Calm("HEALTHCHECK " + rest, p)
  {
    hide Quiet;
    WordThen("HEALTHCHECK ", rest, p);
  }

  /** The shell text that the recipe uses is made of lines in which p finds nothing. */
  predicate CleanScripts(m: Manifest, sh: Scripts, p: Pattern) {
    match RecipeOf(m)
    case BinaryDownload => Calm(sh.download, p)
    case SourceBuild => Calm(sh.compile, p)
    case _ => true
  }

  lemma ArgLinesCalm(p: Pattern)
    requires !p.Version?
    ensures Calm("ARG TARGETARCH\n\n", p) && Calm("ARG VERSION\n", p) && Calm("ARG TARGETARCH\n", p)
  {
    hide Quiet;
    QuietFixed("ARG TARGETARCH\n\n", p);
    QuietFixed("ARG VERSION\n", p);
    QuietFixed("ARG TARGETARCH\n", p);
  }

  lemma FromLineCalm(base: string, rest: string, p: Pattern)
    requires !p.From? && Plain(base, p) && Tail(rest, p)
    ensures Calm(FromLine(base, rest), p)
  {
    hide Quiet;
    FieldRest(base, rest, p);
    WordThen("FROM ", base + rest, p);
    assert FromLine(base, rest) == "FROM " + (base + rest);
  }

  lemma BuilderLinesCalm(p: Pattern)
    requires !p.From?
    ensures Calm(FromLine(BUILDER_BASE, " AS downloader\n"), p)
    ensures Calm(FromLine(RUST_BASE, " AS builder\n"), p)
  {
    hide Quiet;
    hide Dull;
    StageEnds(p);
    Then(BUILDER_BASE, " AS downloader\n", p);
    Then(RUST_BASE, " AS builder\n", p);
    FromThen(BUILDER_BASE + " AS downloader\n", p);
    FromThen(RUST_BASE + " AS builder\n", p);
    assert FromLine(BUILDER_BASE, " AS downloader\n") == "FROM " + (BUILDER_BASE + " AS downloader\n");
    assert FromLine(RUST_BASE, " AS builder\n") == "FROM " + (RUST_BASE + " AS builder\n");
  }

  lemma StageEnds(p: Pattern)
    ensures Tail(" AS downloader\n", p) && Tail(" AS builder\n", p)
  {
    hide Quiet;
    QuietFixed(" AS downloader\n", p);
    QuietFixed(" AS builder\n", p);
  }

  lemma FromThen(rest: string, p: Pattern)
    requires !p.From? && Tail(rest, p)
    ensures Calm("FROM " + rest, p)
  {
    hide Quiet;
    WordThen("FROM ", rest, p);
  }

  lemma AboveCalm(m: Manifest, sh: Scripts, p: Pattern)
    requires Clean(m, p) && CleanScripts(m, sh, p) && !p.Version? && !p.From?
    ensures Calm(Above(m, sh), p)
  {
    hide Calm;
    hide Clean;
    hide Header;
    hide VersionLine;
    hide FromLine;
    hide ShimArg;
    hide ShimStage;
    ArgLinesCalm(p);
    BuilderLinesCalm(p);
    ShimStageCalm(p);
    HeaderCalm(m, p);
    VersionLineCalm(m, p);
    ShimArgCalm(p);
    Ends(Newline, p);
    TailCalm(Newline, p);
    match RecipeOf(m)
    case BinaryDownload =>
      var r1 := sh.download + ShimStage;
      CalmAppend(sh.download, ShimStage, p);
      CalmAppend("ARG TARGETARCH\n", r1, p);
      var r2 := "ARG VERSION\n" + ("ARG TARGETARCH\n" + r1);
      CalmAppend("ARG VERSION\n", "ARG TARGETARCH\n" + r1, p);
      var from := FromLine(BUILDER_BASE, " AS downloader\n");
      CalmAppend(from, r2, p);
      CalmAppend("ARG TARGETARCH\n\n", from + r2, p);
      CalmAppend(ShimArg, "ARG TARGETARCH\n\n" + (from + r2), p);
      var r3 := ShimArg + ("ARG TARGETARCH\n\n" + (from + r2));
      CalmAppend(VersionLine(m), r3, p);
      CalmAppend(Header(m), VersionLine(m) + r3, p);
    case SourceBuild =>
      var r1 := "ARG VERSION\n" + (sh.compile + ShimStage);
      CalmAppend(sh.compile, ShimStage, p);
      CalmAppend("ARG VERSION\n", sh.compile + ShimStage, p);
      var from := FromLine(RUST_BASE, " AS builder\n");
      CalmAppend(from, r1, p);
      CalmAppend(Newline, from + r1, p);
      CalmAppend(ShimArg, Newline + (from + r1), p);
      var r3 := ShimArg + (Newline + (from + r1));
      CalmAppend(VersionLine(m), r3, p);
      CalmAppend(Header(m), VersionLine(m) + r3, p);
    case _ =>
      CalmAppend(Newline, ShimStage, p);
      CalmAppend(ShimArg, Newline + ShimStage, p);
      CalmAppend(Header(m), ShimArg + (Newline + ShimStage), p);
  }

  lemma BelowCalm(m: Manifest, p: Pattern)
    requires Clean(m, p)
    requires p.User? ==> Wrapped(m)
    ensures Calm(Below(m), p)
  {
    hide Calm;
    hide Clean;
    hide CopyShim;
    hide CopyDownloaded;
    hide CopyBuilt;
    hide PackageRun;
    hide Chown;
    CopyShimCalm(p);
    match RecipeOf(m)
    case BinaryDownload =>
      CopyDownloadedCalm(m, p);
      CalmAppend(CopyShim, CopyDownloaded(m), p);
    case SourceBuild =>
      CopyBuiltCalm(m, p);
      CalmAppend(CopyShim, CopyBuilt(m), p);
    case PkgInstall =>
      PackageRunCalm(m, p);
      CalmAppend(PackageRun(m), CopyShim, p);
    case ChainguardRepack =>
      ChownCalm(m, p);
      RootLineCalm(p);
      CalmAppend(CopyShim, Chown(m), p);
      CalmAppend("USER 0\n", CopyShim + Chown(m), p);
    case UpstreamRepack =>
      ChownCalm(m, p);
      RootLineCalm(p);
      CalmAppend(CopyShim, Chown(m), p);
      CalmAppend("USER 0\n", CopyShim + Chown(m), p);
      assert CopyShim + "" == CopyShim;
      CalmAppend("USER 0\n", CopyShim, p);
  }

  lemma RootLineCalm(p: Pattern)
    requires !p.User?
    ensures Calm("USER 0\n", p)
  {
    hide Quiet;
    QuietFixed("USER 0\n", p);
  }

  /** Empty, or calm lines. */
  predicate Idle(s: string, p: Pattern) {
    s == "" || Calm(s, p)
  }

  lemma IdleAppend(a: string, b: string, p: Pattern)
    requires Idle(a, p) && Idle(b, p)
    ensures Idle(a + b, p)
  {
    hide Calm;
    if a == "" {
      assert a + b == b;
    } else if b == "" {
      assert a + b == a;
    } else {
      CalmAppend(a, b, p);
    }
  }

  lemma IdleScan(a: string, rest: string, p: Pattern)
    requires Idle(a, p)
    ensures Captures(a + rest, p) == Captures(rest, p)
  {
    hide Quiet;
    hide Captures;
    if a == "" {
      assert a + rest == rest;
    } else {
      CalmScan(a, rest, p);
    }
  }

  lemma UserLineIdle(m: Manifest, p: Pattern)
    requires Clean(m, p) && !p.User?
    ensures Idle(UserLine(m), p)
  {
    hide Quiet;
    hide Dull;
    Ends(BlankLine, p);
    hide Lacks;
    FieldRest(m.User(), BlankLine, p);
    UserThen(m.User() + BlankLine, p);
    assert m.User() != "" ==> UserLine(m) == "USER " + (m.User() + BlankLine);
  }

  lemma UserThen(rest: string, p: Pattern)
    requires !p.User? && Calm(rest, p)
    ensures Calm("USER " + rest, p)
  {
    hide Quiet;
    WordThen("USER ", rest, p);
  }

  lemma MetricsLineCalm(p: Pattern)
    requires !p.Label?
    ensures Calm(MetricsLine, p)
  {
    hide Quiet;
    MetricsPairQuiet(p);
    var l := Pair("SHIM_METRICS_ENABLED", "true");
    hide Dull;
    Ends(Newline, p);
    PairThen(l, Newline, p);
    WordThen("ENV ", PairText(l) + Newline, p);
  }

  lemma MetricsPairQuiet(p: Pattern)
    requires !p.Label?
    ensures QuietPair(Pair("SHIM_METRICS_ENABLED", "true"), p)
  {
    hide Quiet;
    QuietFixed("SHIM_METRICS_ENABLED", p);
    QuietFixed("true", p);
  }

  lemma {:induction false} JoinCalm(parts: seq<string>, rest: string, p: Pattern)
    requires forall s | s in parts :: Plain(s, p)
    requires Tail(rest, p)
    ensures Calm(Join(parts, " ") + rest, p)
  {
    hide Quiet;
    if parts == [] {
      assert "" + rest == rest;
    } else if |parts| == 1 {
      FieldRest(parts[0], rest, p);
    } else {
      JoinCalm(parts[1..], rest, p);
      var more := Join(parts[1..], " ") + rest;
      WordThen(" ", more, p);
      FieldRest(parts[0], " " + more, p);
      assert Join(parts, " ") + rest == parts[0] + (" " + more);
    }
  }

  lemma ExposeLineCalm(m: Manifest, p: Pattern)
    requires Clean(m, p) && !p.Expose?
    ensures Calm(ExposeLine(m), p)
  {
    hide Quiet;
    hide Dull;
    Ends(BlankLine, p);
    Ends(Newline, p);
    JoinCalm(m.expose, BlankLine, p);
    WordThen("EXPOSE ", Join(m.expose, " ") + BlankLine, p);
    assert m.expose != [] ==> ExposeLine(m) == "EXPOSE " + (Join(m.expose, " ") + BlankLine);
  }

  const Comma: Fixed := ", "
  const Close: Fixed := "]\n\n"

  lemma {:induction false} QuotedTail(parts: seq<string>, p: Pattern)
    requires parts != [] && forall s | s in parts :: Plain(s, p)
    ensures Tail(Join(QuotedAll(parts), ", ") + Close, p)
  {
    hide Quiet;
    hide Dull;
    if |parts| == 1 {
      Ends(Close, p);
      Then(Quote, Close, p);
      FieldThen(Quote, parts[0], Quote + Close, p);
      assert Join(QuotedAll(parts), ", ") + Close == Quote + parts[0] + (Quote + Close);
    } else {
      QuotedTail(parts[1..], p);
      assert QuotedAll(parts)[1..] == QuotedAll(parts[1..]);
      var more := Join(QuotedAll(parts[1..]), ", ") + Close;
      Then(Comma, more, p);
      Then(Quote, Comma + more, p);
      FieldThen(Quote, parts[0], Quote + (Comma + more), p);
      assert Join(QuotedAll(parts), ", ") + Close == Quote + parts[0] + (Quote + (Comma + more));
    }
  }

  lemma EntrypointLineCalm(m: Manifest, p: Pattern)
    requires Clean(m, p) && !p.Entrypoint?
    ensures Calm(EntrypointLine(m), p)
  {
    hide Quiet;
    hide Dull;
    if m.entrypoint == [] {
      DefaultEntrypointCalm(m, p);
    } else {
      QuotedTail(m.entrypoint, p);
      BracketCalm(Join(QuotedAll(m.entrypoint), ", "), p);
    }
  }

  lemma BracketCalm(args: string, p: Pattern)
    requires !p.Entrypoint? && Tail(args + Close, p)
    ensures Calm(BracketLine(args), p)
  {
    hide Quiet;
    WordThen("ENTRYPOINT [", args + Close, p);
    assert BracketLine(args) == "ENTRYPOINT [" + (args + Close);
  }

  lemma DefaultEntrypointCalm(m: Manifest, p: Pattern)
    requires Clean(m, p) && !p.Entrypoint? && m.entrypoint == []
    ensures Calm(EntrypointLine(m), p)
  {
    hide Quiet;
    hide Dull;
    Ends(Close, p);
    Then(Quote, Close, p);
    FieldThen(BinDir, m.Name(), Quote + Close, p);
    var r1 := BinDir + m.Name() + (Quote + Close);
    hide Lacks;
    hide Clean;
    hide Tail;
    TailCalm(r1, p);
    Then(RunArgs, r1, p);
    TailCalm(RunArgs + r1, p);
    Then(NextArg, RunArgs + r1, p);
    TailCalm(NextArg + (RunArgs + r1), p);
    Then(ShimBin, NextArg + (RunArgs + r1), p);
    TailCalm(ShimBin + (NextArg + (RunArgs + r1)), p);
    Then(Quote, ShimBin + (NextArg + (RunArgs + r1)), p);
    var args := ShimQuoted + (RunArgs + Put(BinDir, m.Name(), Quote));
    Regroup(Quote, ShimBin, NextArg, RunArgs, BinDir + m.Name(), Quote, Close);
    BracketCalm(args, p);
  }

  lemma Regroup(a: string, b: string, c: string, d: string, e: string, f: string, g: string)
    ensures (a + (b + c)) + (d + (e + f)) + g == a + (b + (c + (d + (e + (f + g)))))
  {
  }

  predicate QuietPair(l: Pair, p: Pattern) {
    Quiet(l.key, p) && Quiet(l.value, p)
  }

  lemma PairThen(l: Pair, rest: string, p: Pattern)
    requires QuietPair(l, p) && !p.Label?
    requires Calm(rest, p)
    ensures Calm(PairText(l) + rest, p)
  {
    hide Quiet;
    QuietFixed("\"", p);
    QuietThen("\"", rest, p);
    QuietAppend(l.value, "\"" + rest, p);
    QuietFixed("=\"", p);
    QuietThen("=\"", l.value + ("\"" + rest), p);
    QuietAppend(l.key, "=\"" + (l.value + ("\"" + rest)), p);
    assert PairText(l) + rest == l.key + ("=\"" + (l.value + ("\"" + rest)));
  }

  lemma GapThen(rest: string, p: Pattern)
    requires Calm(rest, p)
    ensures Calm(" \\\n      " + rest, p)
  {
    hide Quiet;
    WordThen(" \\\n      ", rest, p);
  }

  lemma {:induction false} MorePairsCalm(ls: seq<Pair>, rest: string, p: Pattern)
    requires !p.Label? && forall l | l in ls :: QuietPair(l, p)
    requires Calm(rest, p)
    ensures Calm(MorePairs(ls) + rest, p)
  {
    hide Quiet;
    hide QuietPair;
    hide PairText;
    hide Calm;
    if ls == [] {
      assert MorePairs(ls) + rest == rest;
    } else {
      var gap, more := " \\\n      ", MorePairs(ls[1..]) + rest;
      MorePairsCalm(ls[1..], rest, p);
      PairThen(ls[0], more, p);
      GapThen(PairText(ls[0]) + more, p);
      assert MorePairs(ls) + rest == gap + (PairText(ls[0]) + more);
    }
  }

  lemma LabelBlockCalm(ls: seq<Pair>, p: Pattern)
    requires !p.Label? && ls != [] && forall l | l in ls :: QuietPair(l, p)
    ensures Calm(LabelBlock(ls), p)
  {
    hide Quiet;
    hide QuietPair;
    Ends(BlankLine, p);
    MorePairsCalm(ls[1..], BlankLine, p);
    var more := MorePairs(ls[1..]) + BlankLine;
    PairThen(ls[0], more, p);
    WordThen("LABEL ", PairText(ls[0]) + more, p);
    assert LabelBlock(ls) == "LABEL " + (PairText(ls[0]) + more);
  }

  lemma StopThen(rest: string, p: Pattern)
    requires !p.Stop? && Calm(rest, p)
    ensures Calm("STOPSIGNAL " + rest, p)
  {
    hide Quiet;
    WordThen("STOPSIGNAL ", rest, p);
  }

  lemma StopLineCalm(m: Manifest, p: Pattern)
    requires Clean(m, p) && !p.Stop?
    ensures Calm(StopLine(m), p)
  {
    hide Quiet;
    hide Dull;
    Ends(Newline, p);
    hide Lacks;
    FieldRest(m.StopSignal(), Newline, p);
    StopThen(m.StopSignal() + Newline, p);
    assert StopLine(m) == "STOPSIGNAL " + (m.StopSignal() + Newline);
  }
}
