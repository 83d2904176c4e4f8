/** manifest.rs: the manifest of one image, as read from its TOML file. */
module Manifests {
  datatype Metadata = Metadata(
    name: string, version: string, description: string, vendor: string, source: string,
    license: string, tier: string, deprecated: bool)

  datatype Build = Build(base: string, user: string, stopsignal: string, multiarch: bool)

  datatype SourceSection = SourceSection(sourceType: string, url: string)

  datatype Manifest = Manifest(
    metadata: Metadata, build: Build, source: SourceSection,
    entrypoint: seq<string>, expose: seq<string>, labels: map<string, string>)
  {
    function Name(): string { metadata.name }
    function Version(): string { metadata.version }
    function BaseImage(): string { build.base }
    function User(): string { build.user }
    function StopSignal(): string { build.stopsignal }
  }

  /** One of the orders in which a hash map may be iterated. */
  ghost predicate OrderOf(order: seq<string>, m: map<string, string>) {
    && (forall k :: k in order <==> k in m)
    && (forall i, j | 0 <= i < j < |order| :: order[i] != order[j])
  }
}

/** generate.rs: the Dockerfile generator. */
module Generator {
  import opened Text
  import opened Manifests

  const SHIM_VERSION: Fixed := "v2.0.0"
  const BUILDER_BASE: Fixed := "debian:bookworm-slim"
  const RUST_BASE: Fixed := "rust:bookworm"
  const WOLFI_BASE := ChainguardHost + WolfiName
  const ChainguardHost: Fixed := "cgr.dev/chainguard/"
  const WolfiName: Fixed := "wolfi-base:latest"
  const SHIM_IMAGE := ShimHost + (ShimOrg + ShimName)
  const ShimHost: Fixed := "ghcr.io/wyattau/"
  const ShimOrg: Fixed := "evergreenshim/"
  const ShimName: Fixed := "health-shim"

  /** The shell text of the long RUN commands, already filled in for the manifest. */
  datatype Scripts = Scripts(download: string, compile: string)

  datatype Recipe = BinaryDownload | ChainguardRepack | SourceBuild | PkgInstall | UpstreamRepack

  function RecipeOf(m: Manifest): Recipe {
    match m.source.sourceType
    case "binary-download" => BinaryDownload
    case "chainguard-repack" => ChainguardRepack
    case "source-build" => SourceBuild
    case "pkg-install" => PkgInstall
    case _ => UpstreamRepack
  }

  /** A fixed text, a field of the manifest, and what comes behind. */
  function Put(fixed: string, field: string, rest: string): string {
    fixed + field + rest
  }

  function Join(parts: seq<string>, sep: string): string {
    if |parts| == 0 then "" else
    if |parts| == 1 then parts[0] else parts[0] + sep + Join(parts[1..], sep)
  }

  function Quoted(s: string): string {
    "\"" + s + "\""
  }

  function QuotedAll(parts: seq<string>): (r: seq<string>)
    ensures |r| == |parts| && forall i | 0 <= i < |parts| :: r[i] == Quoted(parts[i])
  {
    seq(|parts|, i requires 0 <= i < |parts| => Quoted(parts[i]))
  }

  // --- The pieces of a Dockerfile ------------------------------------------

  const Generated: Fixed := " by evergreenctl "
  const GeneratedEnd: Fixed := "generate\n\n"
  const Newline: Fixed := "\n"
  const BlankLine: Fixed := "\n\n"

  function Header(m: Manifest): string {
    "# EVERGREEN " + ("HARDENED " + (Upper(m.Name()) +
    ("\n# " + (m.metadata.description +
    ("\n# Source Type: " + (m.source.sourceType +
    ("\n# Tier: " + (m.metadata.tier +
    ("\n# Auto-generated" + (Generated + GeneratedEnd))))))))))
  }

  function VersionLine(m: Manifest): string {
    "ARG" + (" " + ("VERSION=" + (m.Version() + Newline)))
  }

  const ShimArg := "ARG " + ("SHIM_VERSION=" + (SHIM_VERSION + Newline))
  const ShimTag := ":${" + "SHIM_VERSION}"
  const ShimStage := FromLine(SHIM_IMAGE + ShimTag, " AS shim\n\n")

  const FromShim: Fixed := "--from=shim /shim "
  const CopyShim := "COPY " + (FromShim + (ShimBin + Newline))

  function FromLine(base: string, rest: string): string {
    "FROM" + (" " + (base + rest))
  }

  const FromDownloader: Fixed := "--from=downloader "
  const Download: Fixed := "/tmp/download "
  const BinDir: Fixed := "/usr/local/bin/"
  const Slash: Fixed := "/"
  const Bundle: Fixed := "ca-certificates.crt"
  const BundleDir: Fixed := " /etc/ssl/certs/"

  function CopyDownloaded(m: Manifest): string {
    "COPY " + (FromDownloader + (Download + Put(BinDir, m.Name(), Newline))) +
    ("COPY " + (FromDownloader + (Slash + (Bundle + (BundleDir + (Bundle + BlankLine))))))
  }

  const FromBuilder: Fixed := "--from=builder /"
  const ToBin: Fixed := " /usr/local/bin/"

  function CopyBuilt(m: Manifest): string {
    "COPY " + Put(FromBuilder, m.Name(), Put(ToBin, m.Name(), BlankLine))
  }

  const ApkAdd: Fixed := "apk add --no-cache "
  const CertPackage: Fixed := " ca-certificates"
  const Continued: Fixed := " && \\\n"
  const MakeLib: Fixed := "    mkdir -p /var/lib/"
  const AndThen: Fixed := " && \\   "
  const NonRoot: Fixed := "65532:65532"
  const LibDir: Fixed := " /var/lib/"
  const LogDir: Fixed := " /var/log/"
  const RunDir: Fixed := " /var/run/"

  function PackageRun(m: Manifest): string {
    "RUN " +
    Put(ApkAdd, m.Name(),
    CertPackage + (Continued +
    Put(MakeLib, m.Name(), Put(LogDir, m.Name(), Put(RunDir, m.Name(),
    AndThen + (" chown -R " + (NonRoot +
    Put(LibDir, m.Name(), Put(LogDir, m.Name(), Put(RunDir, m.Name(), BlankLine))))))))))
  }

  /** The text before the first colon, or the default user when there is none. */
  function Uid(m: Manifest): string {
    if m.User() == "" then "65532" else UntilColon(m.User())
  }

  function UntilColon(s: string): string {
    if s == "" || s[0] == ':' then "" else [s[0]] + UntilColon(s[1..])
  }

  const Colon: Fixed := ":"
  const Mute: Fixed := " 2>/dev/null"
  const OrTrue: Fixed := " || true\n"

  function Chown(m: Manifest): string {
    "RUN chown -R " + (Uid(m) + Put(Colon, Uid(m), Put(LibDir, m.Name(), Mute + OrTrue)))
  }

  function UserLine(m: Manifest): string {
    if m.User() == "" then "" else "USER" + (" " + (m.User() + BlankLine))
  }

  const MetricsLine := "ENV " + (PairText(Pair("SHIM_METRICS_ENABLED", "true")) + Newline)

  function ExposeLine(m: Manifest): string {
    if m.expose == [] then Newline else "EXPOSE" + (" " + (Join(m.expose, " ") + BlankLine))
  }

  function PrimaryPort(m: Manifest): string {
    if m.expose == [] then "8080" else m.expose[0]
  }

  const Interval: Fixed := "--interval=30s "
  const Timeout: Fixed := "--timeout=5s "
  const FastStart: Fixed := "--start-period=30s "
  const SlowStart: Fixed := "--start-period=60s "
  const Retries: Fixed := "--retries=3 \\  "
  const Bracket: Fixed := "["
  const ShimBin: Fixed := "/usr/local/bin/shim"
  const ShimQuoted := Quote + (ShimBin + NextArg)
  const NextArg: Fixed := "\", "
  const Quote: Fixed := "\""
  const CheckArg: Fixed := "\"healthcheck\", "
  const TcpArg: Fixed := "\"--tcp\", \"127.0.0.1:"
  const CallEnd: Fixed := "\"]\n\n"

  /** Both healthchecks; the repacked images get the longer start period. */
  function Healthcheck(m: Manifest, start: Fixed): string {
    "HEALTHCHECK " + (Interval + (Timeout + (start + (Retries +
    ("CMD " + (Bracket + (ShimQuoted + (CheckArg + Put(TcpArg, PrimaryPort(m), CallEnd)))))))))
  }

  function BracketLine(args: string): string {
    "ENTRYPOINT" + (" " + ("[" + (args + "]\n\n")))
  }

  const RunArgs: Fixed := "\"run\", \"-c\", \""

  function EntrypointLine(m: Manifest): string {
    if m.entrypoint == [] then
      BracketLine(ShimQuoted + (RunArgs + Put(BinDir, m.Name(), Quote)))
    else
      BracketLine(Join(QuotedAll(m.entrypoint), ", "))
  }

  // --- Labels ---------------------------------------------------------------

  const OciOrg: Fixed := "org.opencontainers."
  const Image: Fixed := "image."
  const Evergreen: Fixed := "evergreen."
  const Security: Fixed := "security."
  const Title: Fixed := "title"
  const VersionName: Fixed := "version"
  const Description: Fixed := "description"
  const ImageTier: Fixed := "image.tier"
  const NonRootName: Fixed := "constraint.nonroot"
  const CapDrop: Fixed := "cap-drop"
  const NoNewPrivileges: Fixed := "no-new-privileges"
  const BaseName: Fixed := "base.image"
  const PatternName: Fixed := "entrypoint.pattern"
  const Yes: Fixed := "true"
  const Scratch: Fixed := "scratch"
  const Wolfi: Fixed := "wolfi"
  const Upstream: Fixed := "upstream"
  const RepackPattern: Fixed := "chainguard-repack"
  const UpstreamPattern: Fixed := "repack-upstream-init"

  function OciKey(name: Fixed): string { OciOrg + (Image + name) }
  function EvergreenKey(name: Fixed): string { Evergreen + name }
  function SecurityKey(name: Fixed): string { Evergreen + (Security + name) }

  datatype Pair = Pair(key: string, value: string)

  function BaseKind(base: string): Fixed {
    if Has(base, "scratch") then Scratch
    else if Has(base, "wolfi") || Has(base, "chainguard") then Wolfi
    else Upstream
  }

  function StandardLabels(m: Manifest, exemption: string): (r: seq<Pair>)
    ensures |r| == if exemption == "" then 8 else 9
  {
    [ Pair(OciKey(Title), m.Name()),
      Pair(OciKey(VersionName), m.Version()),
      Pair(OciKey(Description), m.metadata.description),
      Pair(EvergreenKey(ImageTier), m.metadata.tier),
      Pair(EvergreenKey(NonRootName), Yes),
      Pair(SecurityKey(CapDrop), "ALL"),
      Pair(SecurityKey(NoNewPrivileges), Yes),
      Pair(EvergreenKey(BaseName), BaseKind(m.BaseImage())) ] +
    if exemption == "" then [] else [Pair(EvergreenKey(PatternName), exemption)]
  }

  function CustomLabels(m: Manifest, order: seq<string>): (r: seq<Pair>)
    requires forall k | k in order :: k in m.labels
    ensures |r| == |order|
    ensures forall i | 0 <= i < |order| :: r[i] == Pair(order[i], m.labels[order[i]])
  {
    seq(|order|, i requires 0 <= i < |order| => Pair(order[i], m.labels[order[i]]))
  }

  function PairText(l: Pair): string {
    l.key + "=\"" + l.value + "\""
  }

  /** The pairs from the second on, each behind a line continuation. */
  function MorePairs(ls: seq<Pair>): string {
    if ls == [] then "" else " \\\n      " + PairText(ls[0]) + MorePairs(ls[1..])
  }

  function LabelBlock(ls: seq<Pair>): string
    requires ls != []
  {
    "LABEL " + (PairText(ls[0]) + MorePairs(ls[1..]) + "\n\n")
  }

  function StopLine(m: Manifest): string {
    "STOPSIGNAL" + (" " + (m.StopSignal() + Newline))
  }

  lemma {:induction false} MorePairsSnoc(ls: seq<Pair>, l: Pair)
    ensures MorePairs(ls + [l]) == MorePairs(ls) + (" \\\n      " + PairText(l))
  {
    if ls == [] {
      assert MorePairs([l][1..]) == "";
      assert ls + [l] == [l];
    } else {
      assert (ls + [l])[1..] == ls[1..] + [l];
      MorePairsSnoc(ls[1..], l);
      var gap := " \\\n      ";
      calc {
        MorePairs(ls + [l]);
        gap + PairText(ls[0]) + (MorePairs(ls[1..]) + (gap + PairText(l)));
        gap + PairText(ls[0]) + MorePairs(ls[1..]) + (gap + PairText(l));
      }
    }
  }

  /** The printing loop of `labels_with_exemption`. */
  method PrintLabels(labels: seq<Pair>) returns (s: string)
    requires labels != []
    ensures s == LabelBlock(labels)
  {
    hide PairText;
    s := "LABEL ";
    ghost var body := "";
    for i := 0 to |labels|
      invariant s == "LABEL " + body
      invariant body == if i == 0 then "" else PairText(labels[0]) + MorePairs(labels[1..i])
    {
      if i == 0 {
        body := PairText(labels[0]);
      } else {
        s := s + " \\\n      ";
        MorePairsSnoc(labels[1..i], labels[i]);
        assert labels[1..i] + [labels[i]] == labels[1..i + 1];
        body := body + (" \\\n      " + PairText(labels[i]));
      }
      s := s + PairText(labels[i]);
    }
    assert labels[1..|labels|] == labels[1..];
    s := s + "\n\n";
  }

  /** `labels_with_exemption`: the custom labels behind the standard ones, in iteration order. */
  method LabelsWithExemption(m: Manifest, exemption: string, order: seq<string>) returns (s: string)
    requires forall k | k in order :: k in m.labels
    ensures s == LabelBlock(StandardLabels(m, exemption) + CustomLabels(m, order)) + StopLine(m)
  {
    hide StandardLabels;
    hide LabelBlock;
    var standard := StandardLabels(m, exemption);
    var labels := standard;
    for i := 0 to |order|
      invariant labels == standard + CustomLabels(m, order)[..i]
    {
      labels := labels + [Pair(order[i], m.labels[order[i]])];
    }
    assert CustomLabels(m, order)[..|order|] == CustomLabels(m, order);
    s := PrintLabels(labels);
    s := s + "STOPSIGNAL" + " ";
    s := s + m.StopSignal();
    s := s + "\n";
  }

  // --- The five recipes -------------------------------------------------------

  function FinalBase(m: Manifest): string {
    match RecipeOf(m)
    case BinaryDownload | SourceBuild => "scratch"
    case ChainguardRepack => m.BaseImage()
    case PkgInstall => WOLFI_BASE
    case UpstreamRepack => if Has(m.source.url, "://") then m.BaseImage() else m.source.url
  }

  function Exemption(r: Recipe): string {
    match r
    case ChainguardRepack => RepackPattern
    case UpstreamRepack => UpstreamPattern
    case _ => ""
  }

  /** Everything above the final FROM. */
  function Above(m: Manifest, sh: Scripts): string {
    match RecipeOf(m)
    case BinaryDownload =>
      Header(m) + (VersionLine(m) + (ShimArg + ("ARG TARGETARCH\n\n" +
      (FromLine(BUILDER_BASE, " AS downloader\n") +
      ("ARG VERSION\n" + ("ARG TARGETARCH\n" + (sh.download + ShimStage)))))))
    case SourceBuild =>
      Header(m) + (VersionLine(m) + (ShimArg + (Newline +
      (FromLine(RUST_BASE, " AS builder\n") + ("ARG VERSION\n" + (sh.compile + ShimStage))))))
    case _ => Header(m) + (ShimArg + (Newline + ShimStage))
  }

  /** From behind the final FROM line to the USER line. */
  function Below(m: Manifest): string {
    match RecipeOf(m)
    case BinaryDownload => CopyShim + CopyDownloaded(m)
    case SourceBuild => CopyShim + CopyBuilt(m)
    case PkgInstall => PackageRun(m) + CopyShim
    case ChainguardRepack => "USER 0\n" + (CopyShim + Chown(m))
    case UpstreamRepack => "USER 0\n" + (CopyShim + if Uid(m) == "0" then "" else Chown(m))
  }

  function Wrapped(m: Manifest): bool {
    var r := RecipeOf(m);
    r.BinaryDownload? || r.SourceBuild? || r.PkgInstall?
  }

  function StartPeriod(m: Manifest): Fixed {
    if Wrapped(m) then FastStart else SlowStart
  }

  function Labels(m: Manifest, order: seq<string>): (r: seq<Pair>)
    requires forall k | k in order :: k in m.labels
    ensures r != []
  {
    StandardLabels(m, Exemption(RecipeOf(m))) + CustomLabels(m, order)
  }

  /** From the USER line to the end. */
  function Runtime(m: Manifest, order: seq<string>): string
    requires forall k | k in order :: k in m.labels
  {
    UserLine(m) + (MetricsLine + ((ExposeLine(m) + Healthcheck(m, StartPeriod(m))) +
    ((if Wrapped(m) then EntrypointLine(m) else "") + (LabelBlock(Labels(m, order)) + StopLine(m)))))
  }

  /** `DockerfileGenerator::generate`, for one iteration order of the custom labels. */
  function Generate(m: Manifest, sh: Scripts, order: seq<string>): string
    requires forall k | k in order :: k in m.labels
  {
    Above(m, sh) + (FromLine(FinalBase(m), "\n") + (Below(m) + Runtime(m, order)))
  }
}
