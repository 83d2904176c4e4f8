/**
 The kind of source that is read back from a generated file: which tell-tale commands it holds.

 `extract_source_type` looks for five words. The fixed text of the generator holds none of them
 except where a recipe runs a tool, so what is read depends on the recipe and on the printed fields.
 */
module SourceTypes {
  import opened Text
  import opened Manifests
  import opened Generator
  import opened Extract
  import Keys = LabelsRoundTrip

  predicate Telltale(w: string) {
    w == "apk add" || w == "apt-get install" || w == "git clone" || w == "curl " || w == "wget "
  }

  predicate Letter(c: char) {
    Small(c) || c == '-'
  }

  /** The letters in front of the blank of a tell-tale word. */
  predicate Marked(a: char, b: char) {
    (a == 'p' && b == 'k') || (a == 'e' && b == 't') || (a == 'i' && b == 't') || (a == 'r' && b == 'l')
  }

  /** No blank stands behind such letters. */
  predicate Loose(s: string) {
    forall i | 2 <= i < |s| && s[i] == ' ' :: !Marked(s[i - 2], s[i - 1])
  }

  lemma TelltaleShape(w: string) returns (k: nat)
    requires Telltale(w)
    ensures 2 <= k < |w| && w[k] == ' ' && Marked(w[k - 2], w[k - 1])
    ensures forall j | 0 <= j < |w| :: if j == k then w[j] == ' ' else Letter(w[j])
  {
    k := if w == "apk add" || w == "git clone" then 3 else if w == "apt-get install" then 7 else 4;
  }

  lemma LooseMute(s: string, w: string)
    requires Telltale(w)
    ensures Loose(s) ==> !Has(s, w)
  {
    if Has(s, w) {
      var i := HasWhere(s, w);
      var k := TelltaleShape(w);
      hide Telltale;
      assert s[i..][k] == s[i + k] && s[i..][k - 1] == s[i + k - 1] && s[i..][k - 2] == s[i + k - 2];
    }
  }

  /** What starts a text that cannot end a word begun before it. */
  predicate Fresh(s: string) {
    s != "" && !Letter(s[0]) && s[0] != ' '
  }

  /** A loose text that begins no word at its end, or is followed by nothing that could end one. */
  predicate Seam(a: string, rest: string) {
    a == "" || !Letter(a[|a| - 1]) || Fresh(rest)
  }

  /** Where a word in a + rest would have to be. */
  lemma Straddle(a: string, rest: string, w: string) returns (i: nat)
    requires Has(a + rest, w) && !Has(a, w) && !Has(rest, w) && w != ""
    ensures i < |a| < i + |w| && |a + rest| >= i + |w|
    ensures forall j | 0 <= j < |w| :: w[j] == (a + rest)[i + j]
  {
    i := HasWhere(a + rest, w);
    assert forall j | 0 <= j < |w| :: w[j] == (a + rest)[i..][j];
    if i >= |a| {
      assert (a + rest)[i..] == rest[i - |a|..];
      HasAt(rest, w, i - |a|);
    } else if i + |w| <= |a| {
      assert a[i..][..|w|] == w;
      HasAt(a, w, i);
    }
  }

  lemma FixedThen(a: string, rest: string, w: string)
    requires Telltale(w)
    ensures Loose(a) && !Has(rest, w) && Seam(a, rest) ==> !Has(a + rest, w)
  {
    LooseMute(a, w);
    if Has(a + rest, w) && !Has(a, w) && !Has(rest, w) {
      var k := TelltaleShape(w);
      hide Telltale;
      hide Has;
      var i := Straddle(a, rest, w);
      SeamBroken(a, rest, w, k, i);
    }
  }

  lemma SeamBroken(a: string, rest: string, w: string, k: nat, i: nat)
    requires 2 <= k < |w| && w[k] == ' ' && Marked(w[k - 2], w[k - 1])
    requires forall j | 0 <= j < |w| :: if j == k then w[j] == ' ' else Letter(w[j])
    requires i < |a| < i + |w| <= |a + rest| && forall j | 0 <= j < |w| :: w[j] == (a + rest)[i + j]
    ensures Loose(a) ==> !Seam(a, rest)
  {
    var n := |a| - i;
    assert w[n - 1] == a[|a| - 1] && w[n] == rest[0];
    hide Letter;
    hide Marked;
    if n - 1 == k {
      assert w[k - 1] == a[|a| - 2] && w[k - 2] == a[|a| - 3];
    }
  }

  /** A field that ends in no mark, in front of a blank. */
  lemma BlankThen(f: string, rest: string, w: string)
    requires Telltale(w) && |f| >= 2 && rest != "" && rest[0] == ' '
    ensures !Marked(f[|f| - 2], f[|f| - 1]) && !Has(f, w) && !Has(rest, w) ==> !Has(f + rest, w)
  {
    if Has(f + rest, w) && !Has(f, w) && !Has(rest, w) {
      var k := TelltaleShape(w);
      hide Telltale;
      hide Has;
      var i := Straddle(f, rest, w);
      assert w[|f| - i] == ' ' && |f| - i == k;
      assert w[k - 1] == f[|f| - 1] && w[k - 2] == f[|f| - 2];
    }
  }

  lemma FieldThen(f: string, rest: string, w: string)
    requires Telltale(w)
    ensures !Has(f, w) && !Has(rest, w) && Fresh(rest) ==> !Has(f + rest, w)
  {
    if Has(f + rest, w) && !Has(f, w) && !Has(rest, w) {
      var k := TelltaleShape(w);
      hide Telltale;
      hide Has;
      var i := Straddle(f, rest, w);
      assert w[|f| - i] == rest[0];
    }
  }

  /** A text that ends in no character of a word. */
  predicate Closed(a: string) {
    a == "" || (!Letter(a[|a| - 1]) && a[|a| - 1] != ' ')
  }

  lemma ClosedThen(a: string, rest: string, w: string)
    requires Telltale(w)
    ensures Closed(a) && !Has(a, w) && !Has(rest, w) ==> !Has(a + rest, w)
  {
    if Has(a + rest, w) && !Has(a, w) && !Has(rest, w) {
      var k := TelltaleShape(w);
      hide Telltale;
      hide Has;
      var i := Straddle(a, rest, w);
      assert w[|a| - 1 - i] == a[|a| - 1];
    }
  }

  /** A part of a file: whole lines without the word. */
  predicate Part(s: string, w: string) {
    Closed(s) && !Has(s, w)
  }

  lemma PartThen(a: string, b: string, w: string)
    requires Telltale(w) && Part(a, w) && Part(b, w)
    ensures Part(a + b, w)
  {
    hide Has;
    ClosedThen(a, b, w);
  }

  /** No blank stands behind the last letter of a mark. */
  predicate Airy(s: string) {
    forall i | 0 < i < |s| && s[i] == ' ' :: s[i - 1] != 'k' && s[i - 1] != 't' && s[i - 1] != 'l'
  }

  lemma AiryLoose(s: string)
    ensures Airy(s) ==> Loose(s)
  {
  }

  /** Fixed text in front of a part. */
  lemma FixedPart(a: string, rest: string, w: string)
    requires Telltale(w) && Airy(a) && Part(rest, w) && rest != "" && Seam(a, rest)
    ensures Part(a + rest, w)
  {
    hide Has;
    AiryLoose(a);
    hide Loose;
    FixedThen(a, rest, w);
  }

  /** A field in front of a part. */
  lemma FieldPart(f: string, rest: string, w: string)
    requires Telltale(w) && !Has(f, w) && Part(rest, w) && Fresh(rest)
    ensures Part(f + rest, w)
  {
    hide Has;
    FieldThen(f, rest, w);
  }

  lemma AiryPart(s: string, w: string)
    requires Telltale(w) && Airy(s) && Closed(s)
    ensures Part(s, w)
  {
    hide Has;
    AiryLoose(s);
    LooseMute(s, w);
  }

  /** A field between a fixed text and the rest. */
  lemma Between(a: string, f: string, rest: string, w: string)
    requires Telltale(w) && Airy(a) && Seam(a, "") && !Has(f, w) && Part(rest, w) && Fresh(rest)
    ensures Part(a + (f + rest), w)
  {
    hide Has;
    hide Airy;
    FieldPart(f, rest, w);
    FixedPart(a, f + rest, w);
  }

  lemma PutIs(fixed: string, field: string, rest: string)
    ensures Put(fixed, field, rest) == fixed + (field + rest)
  {
  }

  lemma LoneAiry(s: string)
    requires Without(s, ' ')
    ensures Airy(s)
  {
  }

  /** A text with at most two blanks, neither behind the last letter of a mark. */
  lemma BlanksAt(s: string, k: nat, l: nat)
    requires forall i | 0 <= i < |s| && s[i] == ' ' :: i == k || i == l
    requires 0 < k < |s| && 0 < l < |s| && s[k - 1] !in "ktl" && s[l - 1] !in "ktl"
    ensures Airy(s)
  {
    assert 'k' in "ktl" && 't' in "ktl" && 'l' in "ktl";
  }

  // --- The parts of a generated file ------------------------------------------------------------

  lemma UpperAiry(s: string)
    ensures Airy(Upper(s))
  {
  }

  lemma TitleAiry()
    ensures Airy("# EVERGREEN ") && Airy("HARDENED ")
  {
  }

  lemma NamesAiry()
    ensures Airy("\n# Source Type: ") && Airy("\n# Tier: ") && Airy("\n# ")
  {
  }

  lemma AutoAiry()
    ensures Airy("\n# Auto-generated")
  {
  }

  lemma GeneratedLoose()
    ensures Loose(Generated)
  {
    var s := Generated;
    assert |s| == 17 && s[2] == 'y' && s[14] == 't' && s[15] == 'l';
    assert forall i | 0 <= i < |s| && s[i] == ' ' :: i == 0 || i == 3 || i == 16;
  }

  lemma AutoPart(w: string)
    requires Telltale(w)
    ensures Part("\n# Auto-generated" + (Generated + GeneratedEnd), w)
  {
    hide Has;
    hide Telltale;
    AutoAiry();
    AiryLoose("\n# Auto-generated");
    LooseMute("\n# Auto-generated", w);
    GeneratedLoose();
    hide Loose;
    AiryPart(GeneratedEnd, w);
    FixedThen(Generated, GeneratedEnd, w);
    BlankThen("\n# Auto-generated", Generated + GeneratedEnd, w);
  }

  lemma HeaderPart(m: Manifest, w: string)
    requires Telltale(w) && !Has(m.metadata.description, w) && !Has(m.source.sourceType, w) && !Has(m.metadata.tier, w)
    ensures Part(Header(m), w)
  {
    hide Has;
    hide Telltale;
    hide Airy;
    TitleAiry();
    NamesAiry();
    UpperAiry(m.Name());
    AutoPart(w);
    var r1 := "\n# Auto-generated" + (Generated + GeneratedEnd);
    Between("\n# Tier: ", m.metadata.tier, r1, w);
    var r2 := "\n# Tier: " + (m.metadata.tier + r1);
    Between("\n# Source Type: ", m.source.sourceType, r2, w);
    var r3 := "\n# Source Type: " + (m.source.sourceType + r2);
    Between("\n# ", m.metadata.description, r3, w);
    var r4 := "\n# " + (m.metadata.description + r3);
    FixedPart(Upper(m.Name()), r4, w);
    FixedPart("HARDENED ", Upper(m.Name()) + r4, w);
    FixedPart("# EVERGREEN ", "HARDENED " + (Upper(m.Name()) + r4), w);
  }

  lemma VersionPart(m: Manifest, w: string)
    requires Telltale(w) && !Has(m.Version(), w)
    ensures Part(VersionLine(m), w)
  {
    hide Has;
    hide Telltale;
    AiryPart(Newline, w);
    Between("VERSION=", m.Version(), Newline, w);
    FixedPart(" ", "VERSION=" + (m.Version() + Newline), w);
    FixedPart("ARG", " " + ("VERSION=" + (m.Version() + Newline)), w);
  }

  lemma ShimArgPart(w: string)
    requires Telltale(w)
    ensures Part(ShimArg, w)
  {
    hide Has;
    hide Telltale;
    AiryPart(Newline, w);
    FixedPart(SHIM_VERSION, Newline, w);
    FixedPart("SHIM_VERSION=", SHIM_VERSION + Newline, w);
    FixedPart("ARG ", "SHIM_VERSION=" + (SHIM_VERSION + Newline), w);
  }

  /** A FROM line whose base holds no word, closed by a line end or a stage name. */
  lemma FromPart(base: string, end: string, w: string)
    requires Telltale(w) && !Has(base + end, w) && Closed(base + end) && base + end != ""
    ensures Part(FromLine(base, end), w)
  {
    hide Has;
    hide Telltale;
    FixedPart(" ", base + end, w);
    FixedPart("FROM", " " + (base + end), w);
  }

  lemma ShimHostAiry()
    ensures Airy(ShimHost)
  {
    LoneAiry(ShimHost);
  }

  lemma ShimOrgAiry()
    ensures Airy(ShimOrg)
  {
    LoneAiry(ShimOrg);
  }

  lemma ShimNameAiry()
    ensures Airy(ShimName)
  {
    LoneAiry(ShimName);
  }

  lemma TagAiry()
    ensures Airy(":${") && Airy("SHIM_VERSION}") && Airy(" AS shim\n\n")
  {
  }

  lemma ShimStagePart(w: string)
    requires Telltale(w)
    ensures Part(ShimStage, w)
  {
    hide Has;
    hide Telltale;
    hide Airy;
    ShimHostAiry();
    ShimOrgAiry();
    ShimNameAiry();
    TagAiry();
    AiryPart(" AS shim\n\n", w);
    FixedPart("SHIM_VERSION}", " AS shim\n\n", w);
    FixedPart(":${", "SHIM_VERSION}" + " AS shim\n\n", w);
    var r := ":${" + ("SHIM_VERSION}" + " AS shim\n\n");
    FixedPart(ShimName, r, w);
    FixedPart(ShimOrg, ShimName + r, w);
    FixedPart(ShimHost, ShimOrg + (ShimName + r), w);
    assert SHIM_IMAGE + ShimTag + " AS shim\n\n" == ShimHost + (ShimOrg + (ShimName + r));
    FromPart(SHIM_IMAGE + ShimTag, " AS shim\n\n", w);
  }

  lemma CopyShimPart(w: string)
    requires Telltale(w)
    ensures Part(CopyShim, w)
  {
    hide Has;
    hide Telltale;
    AiryPart(Newline, w);
    FixedPart(ShimBin, Newline, w);
    FixedPart(FromShim, ShimBin + Newline, w);
    FixedPart("COPY ", FromShim + (ShimBin + Newline), w);
  }

  // --- Owner and user ----------------------------------------------------------------------------

  lemma ChownAiry()
    ensures Airy("RUN chown -R ") && Airy("/var/lib/")
  {
  }

  lemma MuteAiry()
    ensures Airy("2>/dev/null") && Airy(OrTrue)
  {
  }

  lemma ChownText(m: Manifest)
    ensures Chown(m) == "RUN chown -R " + (Uid(m) + (":" + (Uid(m) + " " + ("/var/lib/" +
                        (m.Name() + " " + ("2>/dev/null" + OrTrue))))))
  {
    assert LibDir == " " + "/var/lib/" && Generator.Mute == " " + "2>/dev/null";
  }

  lemma ChownPart(m: Manifest, w: string)
    requires Telltale(w) && !Has(Uid(m), w) && !Has(Uid(m) + " ", w) && !Has(m.Name() + " ", w)
    ensures Part(Chown(m), w)
  {
    hide Has;
    hide Telltale;
    hide Uid;
    ChownText(m);
    ChownAiry();
    MuteAiry();
    hide Chown;
    hide Airy;
    AiryPart(OrTrue, w);
    OrTrueText();
    BlankPart("2>/dev/null", OrTrue, w);
    var r1 := "2>/dev/null" + OrTrue;
    Between("/var/lib/", m.Name() + " ", r1, w);
    var r2 := "/var/lib/" + (m.Name() + " " + r1);
    FieldPart(Uid(m) + " ", r2, w);
    LoneAiry(":");
    FixedPart(":", Uid(m) + " " + r2, w);
    FieldPart(Uid(m), ":" + (Uid(m) + " " + r2), w);
    FixedPart("RUN chown -R ", Uid(m) + (":" + (Uid(m) + " " + r2)), w);
  }

  lemma OrTrueText()
    ensures OrTrue != "" && OrTrue[0] == ' '
  {
  }

  /** Fixed text that ends in no mark, in front of a blank. */
  lemma BlankPart(a: string, rest: string, w: string)
    requires Telltale(w) && Airy(a) && |a| >= 2 && !Marked(a[|a| - 2], a[|a| - 1])
    requires Part(rest, w) && rest != "" && rest[0] == ' '
    ensures Part(a + rest, w)
  {
    hide Has;
    AiryLoose(a);
    LooseMute(a, w);
    BlankThen(a, rest, w);
  }

  lemma UserPart(m: Manifest, w: string)
    requires Telltale(w) && !Has(m.User(), w)
    ensures Part(UserLine(m), w)
  {
    hide Has;
    hide Telltale;
    AiryPart("", w);
    AiryPart(BlankLine, w);
    Between(" ", m.User(), BlankLine, w);
    FixedPart("USER", " " + (m.User() + BlankLine), w);
  }

  /** A pair, of which neither key nor value holds the word. */
  lemma PairPart(l: Pair, w: string)
    requires Telltale(w) && !Has(l.key, w) && !Has(l.value, w)
    ensures Part(PairText(l), w) && PairText(l) != ""
  {
    hide Has;
    hide Telltale;
    AiryPart("\"", w);
    Between("=\"", l.value, "\"", w);
    FieldPart(l.key, "=\"" + (l.value + "\""), w);
    assert PairText(l) == l.key + ("=\"" + (l.value + "\""));
  }

  lemma MetricsAiry()
    ensures Airy("SHIM_METRICS_ENABLED") && Airy("true")
  {
    LoneAiry("SHIM_METRICS_ENABLED");
  }

  lemma MetricsPart(w: string)
    requires Telltale(w)
    ensures Part(MetricsLine, w)
  {
    hide Has;
    hide Telltale;
    MetricsAiry();
    AiryMute("SHIM_METRICS_ENABLED", w);
    AiryMute("true", w);
    var pair := Pair("SHIM_METRICS_ENABLED", "true");
    PairPart(pair, w);
    hide PairText;
    AiryPart(Newline, w);
    PartThen(PairText(pair), Newline, w);
    FixedPart("ENV ", PairText(pair) + Newline, w);
  }

  lemma AiryMute(s: string, w: string)
    requires Telltale(w) && Airy(s)
    ensures !Has(s, w)
  {
    hide Has;
    AiryLoose(s);
    LooseMute(s, w);
  }

  lemma ExposePart(m: Manifest, w: string)
    requires Telltale(w) && !Has(Join(m.expose, " "), w)
    ensures Part(ExposeLine(m), w)
  {
    hide Has;
    hide Telltale;
    AiryPart(Newline, w);
    AiryPart(BlankLine, w);
    Between(" ", Join(m.expose, " "), BlankLine, w);
    FixedPart("EXPOSE", " " + (Join(m.expose, " ") + BlankLine), w);
  }

  lemma StopPart(m: Manifest, w: string)
    requires Telltale(w) && !Has(m.StopSignal(), w)
    ensures Part(StopLine(m), w)
  {
    hide Has;
    hide Telltale;
    AiryPart(Newline, w);
    Between(" ", m.StopSignal(), Newline, w);
    FixedPart("STOPSIGNAL", " " + (m.StopSignal() + Newline), w);
  }

  // --- The healthcheck -----------------------------------------------------------------------------

  lemma IntervalAiry()
    ensures Airy(Interval)
  {
    BlanksAt(Interval, 14, 14);
  }

  lemma TimeoutAiry()
    ensures Airy(Timeout)
  {
    BlanksAt(Timeout, 12, 12);
  }

  lemma FastAiry()
    ensures Airy(FastStart) && FastStart[|FastStart| - 1] == ' '
  {
    BlanksAt(FastStart, 18, 18);
  }

  lemma SlowAiry()
    ensures Airy(SlowStart) && SlowStart[|SlowStart| - 1] == ' '
  {
    BlanksAt(SlowStart, 18, 18);
  }

  lemma RetriesAiry()
    ensures Airy(Retries)
  {
    var s := Retries;
    assert |s| == 15 && s[10] == '3' && s[12] == '\\' && s[13] == ' ';
    assert forall i | 0 <= i < |s| && s[i] == ' ' :: i == 11 || i == 13 || i == 14;
  }

  lemma CheckArgAiry()
    ensures Airy(CheckArg)
  {
    BlanksAt(CheckArg, 14, 14);
  }

  lemma TcpAiry()
    ensures Airy(TcpArg) && Closed(TcpArg) && TcpArg != ""
  {
    BlanksAt(TcpArg, 8, 8);
  }

  lemma ShimQuotedPart(rest: string, w: string)
    requires Telltale(w) && Part(rest, w) && rest != ""
    ensures Part(ShimQuoted + rest, w)
  {
    hide Has;
    hide Telltale;
    hide Part;
    NextPart(rest, w);
    assert ShimQuoted + rest == Quote + (ShimBin + (NextArg + rest));
  }

  lemma NextPart(rest: string, w: string)
    requires Telltale(w) && Part(rest, w) && rest != ""
    ensures Part(Quote + (ShimBin + (NextArg + rest)), w)
  {
    hide Has;
    hide Telltale;
    FixedPart(NextArg, rest, w);
    FixedPart(ShimBin, NextArg + rest, w);
    FixedPart(Quote, ShimBin + (NextArg + rest), w);
  }

  lemma CheckPart(m: Manifest, start: Fixed, w: string)
    requires Telltale(w) && Airy(start) && start != "" && start[|start| - 1] == ' ' && !Has(PrimaryPort(m), w)
    ensures Part(Healthcheck(m, start), w)
  {
    hide Has;
    hide Telltale;
    hide PrimaryPort;
    IntervalAiry();
    TimeoutAiry();
    RetriesAiry();
    CheckArgAiry();
    TcpAiry();
    AiryPart(CallEnd, w);
    hide Airy;
    hide TcpArg;
    Between(TcpArg, PrimaryPort(m), CallEnd, w);
    PutIs(TcpArg, PrimaryPort(m), CallEnd);
    var r1 := TcpArg + (PrimaryPort(m) + CallEnd);
    FixedPart(CheckArg, r1, w);
    ShimQuotedPart(CheckArg + r1, w);
    hide ShimQuoted;
    var r2 := ShimQuoted + (CheckArg + r1);
    WordsAiry();
    FixedPart(Bracket, r2, w);
    FixedPart("CMD ", Bracket + r2, w);
    var r3 := "CMD " + (Bracket + r2);
    FixedPart(Retries, r3, w);
    FixedPart(start, Retries + r3, w);
    FixedPart(Timeout, start + (Retries + r3), w);
    FixedPart(Interval, Timeout + (start + (Retries + r3)), w);
    FixedPart("HEALTHCHECK ", Interval + (Timeout + (start + (Retries + r3))), w);
  }

  lemma WordsAiry()
    ensures Airy(Bracket) && Airy("CMD ") && Airy("HEALTHCHECK ")
  {
  }

  // --- The entrypoint --------------------------------------------------------------------------------

  lemma {:induction false} ArgsPart(args: seq<string>, w: string)
    requires Telltale(w) && args != [] && forall a | a in args :: !Has(a, w)
    ensures Part(Join(QuotedAll(args), ", "), w) && Join(QuotedAll(args), ", ") != ""
    ensures Join(QuotedAll(args), ", ")[0] == '"'
  {
    hide Has;
    hide Telltale;
    QuotedPart(args[0], w);
    assert args[0] in args;
    if |args| > 1 {
      ArgsPart(args[1..], w);
      assert QuotedAll(args)[1..] == QuotedAll(args[1..]);
      var rest := Join(QuotedAll(args[1..]), ", ");
      FixedPart(", ", rest, w);
      PartThen(Quoted(args[0]), ", " + rest, w);
      assert Quoted(args[0]) + ", " + rest == Quoted(args[0]) + (", " + rest);
    }
  }

  lemma QuotedPart(arg: string, w: string)
    requires Telltale(w) && !Has(arg, w)
    ensures Part(Quoted(arg), w) && Quoted(arg)[0] == '"'
  {
    hide Has;
    hide Telltale;
    AiryPart("\"", w);
    Between("\"", arg, "\"", w);
    assert Quoted(arg) == "\"" + (arg + "\"");
  }

  lemma BracketPart(args: string, w: string)
    requires Telltale(w) && Part(args, w)
    ensures Part(BracketLine(args), w)
  {
    hide Has;
    hide Telltale;
    AiryPart("]\n\n", w);
    PartThen(args, "]\n\n", w);
    FixedPart("[", args + "]\n\n", w);
    FixedPart(" ", "[" + (args + "]\n\n"), w);
    FixedPart("ENTRYPOINT", " " + ("[" + (args + "]\n\n")), w);
  }

  lemma RunAiry()
    ensures Airy(RunArgs)
  {
    BlanksAt(RunArgs, 6, 12);
  }

  lemma BinAiry()
    ensures Airy(BinDir)
  {
    LoneAiry(BinDir);
  }

  lemma EntrypointPart(m: Manifest, w: string)
    requires Telltale(w) && !Has(m.Name(), w) && forall a | a in m.entrypoint :: !Has(a, w)
    ensures Part(EntrypointLine(m), w)
  {
    hide Has;
    hide Telltale;
    hide BracketLine;
    if m.entrypoint == [] {
      AiryPart(Quote, w);
      RunAiry();
    BinAiry();
      Between(BinDir, m.Name(), Quote, w);
      PutIs(BinDir, m.Name(), Quote);
      var r := BinDir + (m.Name() + Quote);
      FixedPart(RunArgs, r, w);
      hide Airy;
      ShimQuotedPart(RunArgs + r, w);
      BracketPart(ShimQuoted + (RunArgs + r), w);
    } else {
      ArgsPart(m.entrypoint, w);
      BracketPart(Join(QuotedAll(m.entrypoint), ", "), w);
    }
  }

  // --- The copied binary -------------------------------------------------------------------------------

  lemma BuiltAiry()
    ensures Airy("COPY ") && Airy(FromBuilder)
  {
  }

  lemma BuiltText(m: Manifest)
    ensures CopyBuilt(m) == "COPY " + (FromBuilder + (m.Name() + " " + (BinDir + (m.Name() + BlankLine))))
  {
    assert ToBin == " " + BinDir;
  }

  lemma BuiltPart(m: Manifest, w: string)
    requires Telltale(w) && !Has(m.Name(), w) && !Has(m.Name() + " ", w)
    ensures Part(CopyBuilt(m), w)
  {
    hide Has;
    hide Telltale;
    BuiltText(m);
    hide CopyBuilt;
    BuiltAiry();
    RunAiry();
    BinAiry();
    AiryPart(BlankLine, w);
    Between(BinDir, m.Name(), BlankLine, w);
    var r := BinDir + (m.Name() + BlankLine);
    Between(FromBuilder, m.Name() + " ", r, w);
    FixedPart("COPY ", FromBuilder + (m.Name() + " " + r), w);
  }

  // --- The labels ----------------------------------------------------------------------------------------

  lemma {:induction false} PairsPart(ls: seq<Pair>, w: string)
    requires Telltale(w) && forall l | l in ls :: !Has(l.key, w) && !Has(l.value, w)
    ensures Part(MorePairs(ls), w)
  {
    hide Has;
    hide Telltale;
    AiryPart("", w);
    if ls != [] {
      assert ls[0] in ls;
      PairPart(ls[0], w);
      PairsPart(ls[1..], w);
      hide PairText;
      var gap, rest := " \\\n      ", MorePairs(ls[1..]);
      PartThen(PairText(ls[0]), rest, w);
      FixedPart(gap, PairText(ls[0]) + rest, w);
      assert gap + PairText(ls[0]) + rest == gap + (PairText(ls[0]) + rest);
    }
  }

  lemma BlockPart(ls: seq<Pair>, w: string)
    requires Telltale(w) && ls != [] && forall l | l in ls :: !Has(l.key, w) && !Has(l.value, w)
    ensures Part(LabelBlock(ls), w)
  {
    hide Has;
    hide Telltale;
    assert ls[0] in ls;
    PairPart(ls[0], w);
    hide PairText;
    PairsPart(ls[1..], w);
    hide MorePairs;
    AiryPart("\n\n", w);
    PartThen(PairText(ls[0]), MorePairs(ls[1..]), w);
    PartThen(PairText(ls[0]) + MorePairs(ls[1..]), "\n\n", w);
    FixedPart("LABEL ", PairText(ls[0]) + MorePairs(ls[1..]) + "\n\n", w);
  }

  /** Neither the keys nor the values of the pairs hold the word. */
  predicate NotIn(ls: seq<Pair>, w: string) {
    forall l | l in ls :: !Has(l.key, w) && !Has(l.value, w)
  }

  lemma KeyAiry(key: string)
    requires Keys.KeyOk(key)
    ensures Airy(key)
  {
  }

  lemma KeysMute(name: Fixed, w: string)
    requires Telltale(w) && Keys.KeyOk(name)
    ensures !Has(OciKey(name), w) && !Has(EvergreenKey(name), w) && !Has(SecurityKey(name), w)
  {
    hide Has;
    hide Telltale;
    Keys.KeysPrintable(name);
    hide OciKey;
    hide EvergreenKey;
    hide SecurityKey;
    hide Keys.KeyOk;
    hide Airy;
    KeyAiry(OciKey(name));
    KeyAiry(EvergreenKey(name));
    KeyAiry(SecurityKey(name));
    AiryMute(OciKey(name), w);
    AiryMute(EvergreenKey(name), w);
    AiryMute(SecurityKey(name), w);
  }

  lemma PatternsAiry()
    ensures Airy("") && Airy(RepackPattern) && Airy(UpstreamPattern)
  {
    LoneAiry(RepackPattern);
    LoneAiry(UpstreamPattern);
  }

  lemma ValuesAiry()
    ensures Airy(Yes) && Airy("ALL")
  {
  }

  lemma BasesAiry()
    ensures Airy(Scratch) && Airy(Wolfi) && Airy(Upstream)
  {
  }

  lemma ValuesMute(m: Manifest, w: string)
    requires Telltale(w)
    ensures !Has(Yes, w) && !Has("ALL", w) && !Has(BaseKind(m.BaseImage()), w) && !Has(Exemption(RecipeOf(m)), w)
  {
    hide Telltale;
    ValuesAiry();
    BasesAiry();
    PatternsAiry();
    hide Airy;
    hide Has;
    AiryMute(Yes, w);
    AiryMute("ALL", w);
    AiryMute(BaseKind(m.BaseImage()), w);
    AiryMute(Exemption(RecipeOf(m)), w);
  }

  lemma StandardMute(m: Manifest, w: string)
    requires Telltale(w)
    requires !Has(m.Name(), w) && !Has(m.Version(), w) && !Has(m.metadata.description, w) && !Has(m.metadata.tier, w)
    ensures NotIn(StandardLabels(m, Exemption(RecipeOf(m))), w)
  {
    hide Has;
    hide Telltale;
    hide BaseKind;
    hide Exemption;
    hide Keys.KeyOk;
    hide OciKey;
    hide EvergreenKey;
    hide SecurityKey;
    Keys.OciKeyChars();
    Keys.MoreKeyChars();
    Keys.LastKeyChars();
    KeysMute(Title, w);
    KeysMute(VersionName, w);
    KeysMute(Description, w);
    KeysMute(ImageTier, w);
    KeysMute(NonRootName, w);
    KeysMute(CapDrop, w);
    KeysMute(NoNewPrivileges, w);
    KeysMute(BaseName, w);
    KeysMute(PatternName, w);
    ValuesMute(m, w);
  }

  // --- The whole file --------------------------------------------------------------------------------------

  /** No printed field holds the word. */
  predicate Unsaid(m: Manifest, w: string) {
    && !Has(m.Name(), w) && !Has(m.Version(), w) && !Has(m.metadata.description, w) && !Has(m.metadata.tier, w)
    && !Has(m.source.sourceType, w) && !Has(FinalBase(m), w) && !Has(m.User(), w) && !Has(m.StopSignal(), w)
    && !Has(Join(m.expose, " "), w) && !Has(PrimaryPort(m), w)
    && (forall a | a in m.entrypoint :: !Has(a, w))
    && (forall k | k in m.labels :: !Has(k, w) && !Has(m.labels[k], w))
  }

  lemma LabelsMute(m: Manifest, order: seq<string>, w: string)
    requires Telltale(w) && Unsaid(m, w) && forall k | k in order :: k in m.labels
    ensures NotIn(Labels(m, order), w)
  {
    StandardMute(m, w);
    hide Has;
    hide Telltale;
    hide StandardLabels;
    hide FinalBase;
  }

  lemma RuntimePart(m: Manifest, order: seq<string>, w: string)
    requires Telltale(w) && Unsaid(m, w) && forall k | k in order :: k in m.labels
    ensures Part(Runtime(m, order), w)
  {
    hide Has;
    hide Telltale;
    hide FinalBase;
    hide RecipeOf;
    hide Labels;
    hide Airy;
    LabelsMute(m, order, w);
    BlockPart(Labels(m, order), w);
    hide NotIn;
    StopPart(m, w);
    EntrypointPart(m, w);
    FastAiry();
    SlowAiry();
    CheckPart(m, StartPeriod(m), w);
    ExposePart(m, w);
    MetricsPart(w);
    UserPart(m, w);
    RuntimeJoined(m, order, w);
  }

  lemma RuntimeJoined(m: Manifest, order: seq<string>, w: string)
    requires Telltale(w) && forall k | k in order :: k in m.labels
    requires Part(LabelBlock(Labels(m, order)), w) && Part(StopLine(m), w) && Part(EntrypointLine(m), w)
    requires Part(Healthcheck(m, StartPeriod(m)), w) && Part(ExposeLine(m), w) && Part(MetricsLine, w) && Part(UserLine(m), w)
    ensures Part(Runtime(m, order), w)
  {
    hide Telltale;
    hide Labels;
    hide LabelBlock;
    hide StopLine;
    hide EntrypointLine;
    hide Healthcheck;
    hide ExposeLine;
    hide UserLine;
    hide MetricsLine;
    hide RecipeOf;
    assert Part("", w);
    hide Part;
    var entry := if Wrapped(m) then EntrypointLine(m) else "";
    var r1 := LabelBlock(Labels(m, order)) + StopLine(m);
    PartThen(LabelBlock(Labels(m, order)), StopLine(m), w);
    PartThen(entry, r1, w);
    PartThen(ExposeLine(m), Healthcheck(m, StartPeriod(m)), w);
    var r2 := ExposeLine(m) + Healthcheck(m, StartPeriod(m));
    PartThen(r2, entry + r1, w);
    PartThen(MetricsLine, r2 + (entry + r1), w);
    PartThen(UserLine(m), MetricsLine + (r2 + (entry + r1)), w);
  }

  /** The final FROM line, what is copied below it, and the rest. */
  lemma LowerPart(m: Manifest, order: seq<string>, w: string)
    requires Telltale(w) && Unsaid(m, w) && Part(Below(m), w) && forall k | k in order :: k in m.labels
    ensures Part(FromLine(FinalBase(m), "\n") + (Below(m) + Runtime(m, order)), w)
  {
    RuntimePart(m, order, w);
    FinalPart(m, w);
    hide Telltale;
    hide Part;
    hide Unsaid;
    hide FinalBase;
    hide Below;
    hide Runtime;
    hide FromLine;
    PartThen(Below(m), Runtime(m, order), w);
    PartThen(FromLine(FinalBase(m), "\n"), Below(m) + Runtime(m, order), w);
  }

  lemma FinalPart(m: Manifest, w: string)
    requires Telltale(w) && Unsaid(m, w)
    ensures Part(FromLine(FinalBase(m), "\n"), w)
  {
    hide Has;
    hide Telltale;
    hide FinalBase;
    AiryPart("\n", w);
    FieldPart(FinalBase(m), "\n", w);
    FromPart(FinalBase(m), "\n", w);
  }

  lemma UserZero(w: string)
    requires Telltale(w)
    ensures Part("USER 0\n", w)
  {
    hide Has;
    AiryPart("USER 0\n", w);
  }

  /** A repacked image whose ownership is changed. */
  predicate Chowns(m: Manifest) {
    RecipeOf(m).ChainguardRepack? || (RecipeOf(m).UpstreamRepack? && Uid(m) != "0")
  }

  lemma {:induction false} UntilColonPrefix(s: string)
    ensures UntilColon(s) <= s
  {
    if s != "" && s[0] != ':' {
      UntilColonPrefix(s[1..]);
    }
  }

  lemma UidMute(m: Manifest, w: string)
    requires Telltale(w) && !Has(m.User(), w)
    ensures !Has(Uid(m), w)
  {
    if m.User() == "" {
      hide Has;
      assert Airy("65532");
      AiryMute("65532", w);
    } else {
      UntilColonPrefix(m.User());
      var rest := m.User()[|Uid(m)|..];
      assert m.User() == "" + (Uid(m) + rest);
      hide Has;
      if Has(Uid(m), w) {
        HasPart("", Uid(m), rest, w);
      }
    }
  }

  lemma Parts3(a: string, b: string, c: string, w: string)
    requires Telltale(w) && Part(a, w) && Part(b, w) && Part(c, w)
    ensures Part(a + (b + c), w)
  {
    hide Telltale;
    hide Part;
    PartThen(b, c, w);
    PartThen(a, b + c, w);
  }

  lemma Parts4(a: string, b: string, c: string, d: string, w: string)
    requires Telltale(w) && Part(a, w) && Part(b, w) && Part(c, w) && Part(d, w)
    ensures Part(a + (b + (c + d)), w)
  {
    hide Telltale;
    hide Part;
    PartThen(c, d, w);
    Parts3(a, b, c + d, w);
  }

  /** What stands above the final FROM line, and what follows it. */
  lemma WholePart(m: Manifest, sh: Scripts, order: seq<string>, w: string)
    requires Telltale(w) && Unsaid(m, w) && forall k | k in order :: k in m.labels
    requires Part(Above(m, sh), w) && Part(Below(m), w)
    ensures Part(Generate(m, sh, order), w)
  {
    hide Telltale;
    hide Part;
    hide Unsaid;
    hide Above;
    hide Below;
    hide Runtime;
    hide FromLine;
    hide FinalBase;
    LowerPart(m, order, w);
    PartThen(Above(m, sh), FromLine(FinalBase(m), "\n") + (Below(m) + Runtime(m, order)), w);
  }

  lemma RepackAbove(m: Manifest, sh: Scripts, w: string)
    requires Telltale(w) && Unsaid(m, w) && (RecipeOf(m).ChainguardRepack? || RecipeOf(m).UpstreamRepack?)
    ensures Part(Above(m, sh), w)
  {
    hide Telltale;
    hide Header;
    hide ShimArg;
    hide ShimStage;
    hide RecipeOf;
    HeaderPart(m, w);
    ShimArgPart(w);
    NewlinePart(w);
    ShimStagePart(w);
    hide Unsaid;
    hide Part;
    Parts4(Header(m), ShimArg, Newline, ShimStage, w);
  }

  lemma NewlinePart(w: string)
    requires Telltale(w)
    ensures Part(Newline, w) && Part("", w)
  {
    hide Has;
    AiryPart(Newline, w);
    AiryPart("", w);
  }

  lemma RepackBelow(m: Manifest, w: string)
    requires Telltale(w) && Unsaid(m, w) && (RecipeOf(m).ChainguardRepack? || RecipeOf(m).UpstreamRepack?)
    requires Chowns(m) ==> !Has(m.Name() + " ", w) && !Has(Uid(m) + " ", w)
    ensures Part(Below(m), w)
  {
    hide Telltale;
    hide Has;
    UserZero(w);
    CopyShimPart(w);
    NewlinePart(w);
    UidMute(m, w);
    if Chowns(m) {
      ChownPart(m, w);
    }
    hide Part;
    hide Chown;
    hide Uid;
    hide CopyShim;
    hide RecipeOf;
    hide Unsaid;
    Parts3("USER 0\n", CopyShim, if Chowns(m) then Chown(m) else "", w);
  }

  lemma RustAiry()
    ensures Airy(RUST_BASE)
  {
    LoneAiry(RUST_BASE);
  }

  lemma BuilderAiry()
    ensures Airy(" AS builder\n") && Airy("ARG VERSION\n")
  {
  }

  lemma BuilderPart(w: string)
    requires Telltale(w)
    ensures Part(FromLine(RUST_BASE, " AS builder\n"), w)
  {
    hide Has;
    hide Telltale;
    RustAiry();
    BuilderAiry();
    AiryPart(" AS builder\n", w);
    RustEnds();
    BlankPart(RUST_BASE, " AS builder\n", w);
    FromPart(RUST_BASE, " AS builder\n", w);
  }

  lemma RustEnds()
    ensures |RUST_BASE| >= 2 && !Marked(RUST_BASE[|RUST_BASE| - 2], RUST_BASE[|RUST_BASE| - 1])
  {
  }

  lemma CompilePart(sh: Scripts, w: string)
    requires Telltale(w) && !Has(sh.compile, w)
    ensures Part("ARG VERSION\n" + (sh.compile + ShimStage), w)
  {
    hide Telltale;
    hide Has;
    ShimStagePart(w);
    ShimStageFresh();
    hide ShimStage;
    RustAiry();
    BuilderAiry();
    hide Airy;
    FieldPart(sh.compile, ShimStage, w);
    FixedPart("ARG VERSION\n", sh.compile + ShimStage, w);
  }

  lemma BuildAbove(m: Manifest, sh: Scripts, w: string)
    requires Telltale(w) && Unsaid(m, w) && RecipeOf(m).SourceBuild? && !Has(sh.compile, w)
    ensures Part(Above(m, sh), w)
  {
    hide Telltale;
    hide Has;
    HeaderPart(m, w);
    VersionPart(m, w);
    ShimArgPart(w);
    NewlinePart(w);
    BuilderPart(w);
    CompilePart(sh, w);
    hide Part;
    hide Unsaid;
    hide RecipeOf;
    hide Header;
    hide VersionLine;
    hide FromLine;
    hide ShimArg;
    hide ShimStage;
    var builder, compile := FromLine(RUST_BASE, " AS builder\n"), "ARG VERSION\n" + (sh.compile + ShimStage);
    Parts3(Newline, builder, compile, w);
    PartThen(ShimArg, Newline + (builder + compile), w);
    Parts3(Header(m), VersionLine(m), ShimArg + (Newline + (builder + compile)), w);
  }

  lemma BuildBelow(m: Manifest, w: string)
    requires Telltale(w) && Unsaid(m, w) && RecipeOf(m).SourceBuild? && !Has(m.Name() + " ", w)
    ensures Part(Below(m), w)
  {
    hide Telltale;
    hide Has;
    CopyShimPart(w);
    BuiltPart(m, w);
    hide Part;
    hide Unsaid;
    hide CopyShim;
    hide CopyBuilt;
    hide RecipeOf;
    PartThen(CopyShim, CopyBuilt(m), w);
  }

  lemma ShimStageFresh()
    ensures Fresh(ShimStage)
  {
  }

  // --- What a blank adds --------------------------------------------------------------------------------------

  predicate EndsIn(s: string, t: string) {
    |s| >= |t| && s[|s| - |t|..] == t
  }

  /** A blank behind a text completes exactly a word that ends in a blank, and of which the text ends in the rest. */
  lemma BlankBehind(s: string, w: string)
    requires Telltale(w) && !Has(s, w)
    ensures Has(s + " ", w) <==> w[|w| - 1] == ' ' && EndsIn(s, w[..|w| - 1])
  {
    hide Telltale;
    if Has(s + " ", w) {
      LongWord(w);
      NotInBlank(w);
      WordCompleted(s, w);
    }
    CompletedWord(s, w);
  }

  lemma LongWord(w: string)
    requires Telltale(w)
    ensures |w| > 1
  {
    var k := TelltaleShape(w);
  }

  lemma WordCompleted(s: string, w: string)
    requires Has(s + " ", w) && !Has(s, w) && !Has(" ", w) && w != ""
    ensures w[|w| - 1] == ' ' && EndsIn(s, w[..|w| - 1])
  {
    hide Has;
    var i := Straddle(s, " ", w);
    assert |s| - i == |w| - 1 && w[|w| - 1] == ' ';
    assert s[i..] == w[..|w| - 1];
  }

  lemma CompletedWord(s: string, w: string)
    requires w != ""
    ensures w[|w| - 1] == ' ' && EndsIn(s, w[..|w| - 1]) ==> Has(s + " ", w)
  {
    if w[|w| - 1] == ' ' && EndsIn(s, w[..|w| - 1]) {
      var i := |s| - (|w| - 1);
      assert s + " " == s[..i] + (w[..|w| - 1] + " ");
      assert w == w[..|w| - 1] + " ";
      HasInside(s[..i], w, "");
      assert s[..i] + (w + "") == s + " ";
    }
  }

  lemma NotInBlank(w: string)
    requires |w| > 1
    ensures !Has(" ", w)
  {
    assert " "[1..] == "";
  }

  // --- What is read -------------------------------------------------------------------------------------------

  lemma PutHas(pre: string, fixed: string, field: string, rest: string, w: string)
    requires Has(fixed, w)
    ensures Has(pre + Put(fixed, field, rest), w)
  {
    hide Has;
    assert pre + Put(fixed, field, rest) == pre + (fixed + (field + rest));
    HasPart(pre, fixed, field + rest, w);
  }

  lemma PackageRunAdds(m: Manifest)
    ensures Has(PackageRun(m), "apk add")
  {
    assert ApkAdd[0..] == ApkAdd && ApkAdd[..7] == "apk add";
    HasAt(ApkAdd, "apk add", 0);
    hide Has;
    hide Put;
    hide ApkAdd;
    var rest := CertPackage + (Continued +
      Put(MakeLib, m.Name(), Put(LogDir, m.Name(), Put(RunDir, m.Name(),
      AndThen + (" chown -R " + (NonRoot +
      Put(LibDir, m.Name(), Put(LogDir, m.Name(), Put(RunDir, m.Name(), BlankLine)))))))));
    PutHas("RUN ", ApkAdd, m.Name(), rest, "apk add");
  }

  lemma PackagesAdded(m: Manifest)
    requires RecipeOf(m).PkgInstall?
    ensures Has(Below(m), "apk add")
  {
    hide Has;
    hide PackageRun;
    PackageRunAdds(m);
    assert Below(m) == "" + (PackageRun(m) + CopyShim);
    HasPart("", PackageRun(m), CopyShim, "apk add");
  }

  lemma AboveHeld(m: Manifest, sh: Scripts, order: seq<string>, w: string)
    requires Has(Above(m, sh), w) && forall k | k in order :: k in m.labels
    ensures Has(Generate(m, sh, order), w)
  {
    hide Has;
    hide Above;
    hide Below;
    hide Runtime;
    hide FromLine;
    hide FinalBase;
    var rest := FromLine(FinalBase(m), "\n") + (Below(m) + Runtime(m, order));
    assert Generate(m, sh, order) == "" + (Above(m, sh) + rest);
    HasPart("", Above(m, sh), rest, w);
  }

  lemma BelowHeld(m: Manifest, sh: Scripts, order: seq<string>, w: string)
    requires Has(Below(m), w) && forall k | k in order :: k in m.labels
    ensures Has(Generate(m, sh, order), w)
  {
    hide Has;
    hide Above;
    hide Below;
    hide Runtime;
    hide FromLine;
    hide FinalBase;
    var front := Above(m, sh) + FromLine(FinalBase(m), "\n");
    assert Generate(m, sh, order) == front + (Below(m) + Runtime(m, order));
    HasPart(front, Below(m), Runtime(m, order), w);
  }

  lemma DownloadHeld(m: Manifest, sh: Scripts, w: string)
    requires RecipeOf(m).BinaryDownload? && Has(sh.download, w)
    ensures Has(Above(m, sh), w)
  {
    hide Has;
    hide Header;
    hide VersionLine;
    hide FromLine;
    hide ShimArg;
    hide ShimStage;
    var front := Header(m) + (VersionLine(m) + (ShimArg + ("ARG TARGETARCH\n\n" +
                 (FromLine(BUILDER_BASE, " AS downloader\n") + ("ARG VERSION\n" + "ARG TARGETARCH\n")))));
    assert Above(m, sh) == front + (sh.download + ShimStage);
    HasPart(front, sh.download, ShimStage, w);
  }

  lemma CompileHeld(m: Manifest, sh: Scripts, w: string)
    requires RecipeOf(m).SourceBuild? && Has(sh.compile, w)
    ensures Has(Above(m, sh), w)
  {
    hide Has;
    hide Header;
    hide VersionLine;
    hide FromLine;
    hide ShimArg;
    hide ShimStage;
    var front := Header(m) + (VersionLine(m) + (ShimArg + (Newline +
                 (FromLine(RUST_BASE, " AS builder\n") + "ARG VERSION\n"))));
    assert Above(m, sh) == front + (sh.compile + ShimStage);
    HasPart(front, sh.compile, ShimStage, w);
  }

  /** The name or the user of the changed ownership, with the blank behind it, is in the file. */
  lemma OwnerHeld(m: Manifest, w: string)
    requires Chowns(m) && (Has(m.Name() + " ", w) || Has(Uid(m) + " ", w))
    ensures Has(Below(m), w)
  {
    hide Has;
    hide Uid;
    OwnerInChown(m, w);
    hide Chown;
    hide CopyShim;
    hide RecipeOf;
    assert Below(m) == "USER 0\n" + CopyShim + (Chown(m) + "");
    HasPart("USER 0\n" + CopyShim, Chown(m), "", w);
  }

  lemma OwnerInChown(m: Manifest, w: string)
    requires Has(m.Name() + " ", w) || Has(Uid(m) + " ", w)
    ensures Has(Chown(m), w)
  {
    hide Has;
    hide Uid;
    ChownText(m);
    hide Chown;
    var end := "2>/dev/null" + OrTrue;
    if Has(Uid(m) + " ", w) {
      var front, rest := "RUN chown -R " + (Uid(m) + ":"), "/var/lib/" + (m.Name() + " " + end);
      assert Chown(m) == front + (Uid(m) + " " + rest);
      HasPart(front, Uid(m) + " ", rest, w);
    } else {
      var front := "RUN chown -R " + (Uid(m) + (":" + (Uid(m) + " " + "/var/lib/")));
      assert Chown(m) == front + (m.Name() + " " + end);
      HasPart(front, m.Name() + " ", end, w);
    }
  }

  /** No printed field holds a tell-tale word. */
  ghost predicate AllUnsaid(m: Manifest) {
    forall w | Telltale(w) :: Unsaid(m, w)
  }

  /** The commands of the generator: downloads install their tools, source builds fetch with curl alone. */
  predicate ToolScripts(m: Manifest, sh: Scripts) {
    && (RecipeOf(m).BinaryDownload? ==> Has(sh.download, "apt-get install"))
    && (RecipeOf(m).SourceBuild? ==>
        Has(sh.compile, "curl ") && !Has(sh.compile, "apk add") && !Has(sh.compile, "apt-get install") &&
        !Has(sh.compile, "git clone"))
  }

  predicate ToolName(s: string) {
    EndsIn(s, "curl") || EndsIn(s, "wget")
  }

  /** The printed change of ownership names a tool in front of a blank. */
  predicate ToolOwned(m: Manifest) {
    Chowns(m) && (ToolName(m.Name()) || ToolName(Uid(m)))
  }

  /** What completes a word in a repacked image: a name or user in front of a blank, if ownership is changed. */
  predicate OwnerTells(m: Manifest, w: string) {
    Chowns(m) && (Has(m.Name() + " ", w) || Has(Uid(m) + " ", w))
  }

  lemma RepackHolds(m: Manifest, sh: Scripts, order: seq<string>, w: string)
    requires Telltale(w) && Unsaid(m, w) && (RecipeOf(m).ChainguardRepack? || RecipeOf(m).UpstreamRepack?)
    requires forall k | k in order :: k in m.labels
    ensures Has(Generate(m, sh, order), w) <==> OwnerTells(m, w)
  {
    hide Has;
    hide Generate;
    hide Chowns;
    if OwnerTells(m, w) {
      OwnerHeld(m, w);
      BelowHeld(m, sh, order, w);
    } else {
      RepackMute(m, sh, order, w);
    }
  }

  /** Only a word that ends in a blank can be completed. */
  lemma OwnerTellsWhen(m: Manifest, w: string)
    requires Telltale(w) && Unsaid(m, w)
    ensures OwnerTells(m, w) <==>
            Chowns(m) && w[|w| - 1] == ' ' && (EndsIn(m.Name(), w[..|w| - 1]) || EndsIn(Uid(m), w[..|w| - 1]))
  {
    hide Has;
    hide Telltale;
    hide Chowns;
    hide EndsIn;
    hide FinalBase;
    UidMute(m, w);
    hide Uid;
    BlankBehind(m.Name(), w);
    BlankBehind(Uid(m), w);
  }

  lemma OwnerTellsTool(m: Manifest)
    requires AllUnsaid(m)
    ensures !OwnerTells(m, "apk add") && !OwnerTells(m, "apt-get install") && !OwnerTells(m, "git clone")
    ensures OwnerTells(m, "curl ") || OwnerTells(m, "wget ") <==> ToolOwned(m)
  {
    hide Unsaid;
    hide OwnerTells;
    hide Chowns;
    hide EndsIn;
    hide Uid;
    OwnerTellsWhen(m, "apk add");
    OwnerTellsWhen(m, "apt-get install");
    OwnerTellsWhen(m, "git clone");
    OwnerTellsWhen(m, "curl ");
    OwnerTellsWhen(m, "wget ");
    assert "curl "[..4] == "curl" && "wget "[..4] == "wget";
  }

  /** What is read of a repacked image. */
  lemma RepackRead(m: Manifest, sh: Scripts, order: seq<string>)
    requires AllUnsaid(m) && (RecipeOf(m).ChainguardRepack? || RecipeOf(m).UpstreamRepack?)
    requires forall k | k in order :: k in m.labels
    ensures ExtractSourceType(Generate(m, sh, order)) == if ToolOwned(m) then "binary-download" else "copy-from"
  {
    hide Has;
    hide Generate;
    hide Chowns;
    hide ToolOwned;
    hide Unsaid;
    hide OwnerTells;
    hide RecipeOf;
    OwnerTellsTool(m);
    RepackHolds(m, sh, order, "apk add");
    RepackHolds(m, sh, order, "apt-get install");
    RepackHolds(m, sh, order, "git clone");
    RepackHolds(m, sh, order, "curl ");
    RepackHolds(m, sh, order, "wget ");
  }

  lemma RepackMute(m: Manifest, sh: Scripts, order: seq<string>, w: string)
    requires Telltale(w) && Unsaid(m, w) && forall k | k in order :: k in m.labels
    requires RecipeOf(m).ChainguardRepack? || RecipeOf(m).UpstreamRepack?
    requires Chowns(m) ==> !Has(m.Name() + " ", w) && !Has(Uid(m) + " ", w)
    ensures !Has(Generate(m, sh, order), w)
  {
    RepackAbove(m, sh, w);
    RepackBelow(m, w);
    WholePart(m, sh, order, w);
    hide Has;
  }

  lemma BuildMute(m: Manifest, sh: Scripts, order: seq<string>, w: string)
    requires Telltale(w) && w[|w| - 1] != ' ' && Unsaid(m, w) && forall k | k in order :: k in m.labels
    requires RecipeOf(m).SourceBuild? && !Has(sh.compile, w)
    ensures !Has(Generate(m, sh, order), w)
  {
    hide Has;
    hide Telltale;
    hide Generate;
    BlankBehind(m.Name(), w);
    BuildAbove(m, sh, w);
    BuildBelow(m, w);
    WholePart(m, sh, order, w);
  }

  /** The kind that is read back from a file of each recipe. */
  function KindRead(m: Manifest): string {
    match RecipeOf(m)
    case BinaryDownload | PkgInstall => "package-manager"
    case SourceBuild => "binary-download"
    case ChainguardRepack | UpstreamRepack => if ToolOwned(m) then "binary-download" else "copy-from"
  }

  lemma BuildRead(m: Manifest, sh: Scripts, order: seq<string>)
    requires AllUnsaid(m) && ToolScripts(m, sh) && RecipeOf(m).SourceBuild? && forall k | k in order :: k in m.labels
    ensures ExtractSourceType(Generate(m, sh, order)) == "binary-download"
  {
    hide Has;
    hide Generate;
    hide Unsaid;
    hide RecipeOf;
    CompileHeld(m, sh, "curl ");
    AboveHeld(m, sh, order, "curl ");
    BuildMute(m, sh, order, "apk add");
    BuildMute(m, sh, order, "apt-get install");
    BuildMute(m, sh, order, "git clone");
  }

  /**
   What is read when no printed field holds a tell-tale word of its own: the tools of the recipe
   decide, and for repacked images a name that ends in the name of a tool.
   */
  lemma SourceTypeRead(m: Manifest, sh: Scripts, order: seq<string>)
    requires AllUnsaid(m) && ToolScripts(m, sh) && forall k | k in order :: k in m.labels
    ensures ExtractSourceType(Generate(m, sh, order)) == KindRead(m)
  {
    hide Has;
    hide Generate;
    hide ToolOwned;
    match RecipeOf(m)
    case BinaryDownload =>
      DownloadHeld(m, sh, "apt-get install");
      AboveHeld(m, sh, order, "apt-get install");
    case PkgInstall =>
      PackagesAdded(m);
      BelowHeld(m, sh, order, "apk add");
    case SourceBuild => BuildRead(m, sh, order);
    case ChainguardRepack | UpstreamRepack => RepackRead(m, sh, order);
  }

  /** So the kind is recovered only for "copy-from", and not even then for a tool. */
  lemma SourceTypeRecovered(m: Manifest, sh: Scripts, order: seq<string>)
    requires AllUnsaid(m) && ToolScripts(m, sh) && forall k | k in order :: k in m.labels
    ensures ExtractSourceType(Generate(m, sh, order)) == m.source.sourceType <==>
            m.source.sourceType == "copy-from" && !ToolOwned(m)
  {
    SourceTypeRead(m, sh, order);
    KindsDiffer(m);
    hide *;
  }

  lemma KindsDiffer(m: Manifest)
    ensures KindRead(m) == m.source.sourceType <==> m.source.sourceType == "copy-from" && !ToolOwned(m)
  {
    hide Chowns;
    hide ToolOwned;
  }

  // --- Images whose kind is lost --------------------------------------------------------------------------------

  function Sample(name: string, kind: string): Manifest {
    Manifest(Metadata(name, "", "", "", "", "", "", false), Build("", "", "", false), SourceSection(kind, ""), [], [], map[])
  }

  lemma SampleUnsaid(name: string, kind: string)
    requires Airy(name) && Airy(kind)
    ensures AllUnsaid(Sample(name, kind))
  {
    forall w | Telltale(w) ensures Unsaid(Sample(name, kind), w) {
      hide Has;
      hide Telltale;
      AiryMute(name, w);
      AiryMute(kind, w);
      assert Airy("") && Airy("scratch") && Airy("8080");
      AiryMute("", w);
      AiryMute("scratch", w);
      AiryMute("8080", w);
      WolfiAiry();
      AiryMute(WOLFI_BASE, w);
    }
  }

  lemma SampleKinds()
    ensures KindRead(Sample("redis", "source-build")) == KindRead(Sample("curl", "copy-from")) == "binary-download"
  {
    hide Uid;
    SampleUid("curl", "copy-from");
    assert EndsIn("curl", "curl");
  }

  lemma SampleUid(name: string, kind: string)
    ensures Uid(Sample(name, kind)) == "65532" != "0"
  {
  }

  /** A source build is taken for a downloaded binary, and so is an image named curl that is only copied. */
  lemma SourceTypeLost(sh: Scripts)
    requires ToolScripts(Sample("redis", "source-build"), sh)
    ensures ExtractSourceType(Generate(Sample("redis", "source-build"), sh, [])) == "binary-download"
    ensures ExtractSourceType(Generate(Sample("curl", "copy-from"), sh, [])) == "binary-download"
  {
    SamplesUnsaid();
    SampleKinds();
    CopiedScripts(sh);
    hide *;
    SourceTypeRead(Sample("redis", "source-build"), sh, []);
    SourceTypeRead(Sample("curl", "copy-from"), sh, []);
  }

  lemma CopiedScripts(sh: Scripts)
    ensures ToolScripts(Sample("curl", "copy-from"), sh)
  {
    hide Has;
  }

  lemma SamplesUnsaid()
    ensures AllUnsaid(Sample("redis", "source-build")) && AllUnsaid(Sample("curl", "copy-from"))
  {
    assert Airy("redis") && Airy("source-build") && Airy("curl") && Airy("copy-from");
    hide Airy;
    hide AllUnsaid;
    SampleUnsaid("redis", "source-build");
    SampleUnsaid("curl", "copy-from");
  }

  lemma WolfiAiry()
    ensures Airy(WOLFI_BASE)
  {
    assert Without(ChainguardHost, ' ') && Without(WolfiName, ' ');
  }
}
