/** The wiring checker on generated Dockerfiles: what one tool prints, the other finds. */
module GeneratedWiring {
  import opened Text
  import opened Lines
  import opened Manifests
  import opened Generator
  import Wiring
  import opened WiringVerdict

  // --- Pieces of the text --------------------------------------------------------------------

  /** part stands in text at place i. */
  predicate StandsAt(text: string, part: string, i: nat) {
    i <= |text| && part <= text[i..]
  }

  lemma Behind(a: string, b: string, part: string, i: nat)
    requires StandsAt(b, part, i)
    ensures StandsAt(a + b, part, |a| + i)
  {
    assert (a + b)[|a| + i..] == b[i..];
  }

  lemma Around(a: string, part: string, b: string)
    ensures StandsAt(a + (part + b), part, |a|)
  {
    assert (a + (part + b))[|a|..] == part + b;
  }

  lemma Further(text: string, b: string, part: string, i: nat)
    requires StandsAt(text, part, i)
    ensures StandsAt(text + b, part, i)
  {
    assert (text + b)[i..] == text[i..] + b;
  }

  lemma AboveDownload(m: Manifest, sh: Scripts) returns (arg: nat, stage: nat)
    requires RecipeOf(m).BinaryDownload?
    ensures StandsAt(Above(m, sh), ShimArg, arg) && StandsAt(Above(m, sh), ShimStage, stage)
  {
    var h, v := Header(m), VersionLine(m);
    var from := FromLine(BUILDER_BASE, " AS downloader\n");
    hide Header;
    hide VersionLine;
    hide RecipeOf;
    hide ShimArg;
    hide ShimStage;
    hide FromLine;
    var front := h + v;
    var between := "ARG TARGETARCH\n\n" + (from + ("ARG VERSION\n" + ("ARG TARGETARCH\n" + sh.download)));
    var above := h + (v + (ShimArg + ("ARG TARGETARCH\n\n" + (from + ("ARG VERSION\n" + ("ARG TARGETARCH\n" + (sh.download + ShimStage)))))));
    assert Above(m, sh) == above;
    hide Above;
    assert above == front + (ShimArg + (between + ShimStage));
    Around(front, ShimArg, between + ShimStage);
    assert above == front + (ShimArg + between) + (ShimStage + "");
    Around(front + (ShimArg + between), ShimStage, "");
    arg, stage := |front|, |front + (ShimArg + between)|;
  }

  lemma AboveBuild(m: Manifest, sh: Scripts) returns (arg: nat, stage: nat)
    requires RecipeOf(m).SourceBuild?
    ensures StandsAt(Above(m, sh), ShimArg, arg) && StandsAt(Above(m, sh), ShimStage, stage)
  {
    var h, v := Header(m), VersionLine(m);
    var from := FromLine(RUST_BASE, " AS builder\n");
    hide Header;
    hide VersionLine;
    hide RecipeOf;
    hide ShimArg;
    hide ShimStage;
    hide FromLine;
    var front := h + v;
    var between := Newline + (from + ("ARG VERSION\n" + sh.compile));
    var above := h + (v + (ShimArg + (Newline + (from + ("ARG VERSION\n" + (sh.compile + ShimStage))))));
    assert Above(m, sh) == above;
    hide Above;
    assert above == front + (ShimArg + (between + ShimStage));
    Around(front, ShimArg, between + ShimStage);
    assert above == front + (ShimArg + between) + (ShimStage + "");
    Around(front + (ShimArg + between), ShimStage, "");
    arg, stage := |front|, |front + (ShimArg + between)|;
  }

  lemma AboveOther(m: Manifest, sh: Scripts) returns (arg: nat, stage: nat)
    requires !RecipeOf(m).BinaryDownload? && !RecipeOf(m).SourceBuild?
    ensures StandsAt(Above(m, sh), ShimArg, arg) && StandsAt(Above(m, sh), ShimStage, stage)
  {
    var h := Header(m);
    hide Header;
    hide ShimArg;
    hide ShimStage;
    hide RecipeOf;
    var above := h + (ShimArg + (Newline + ShimStage));
    assert Above(m, sh) == above;
    hide Above;
    Around(h, ShimArg, Newline + ShimStage);
    assert above == h + (ShimArg + Newline) + (ShimStage + "");
    Around(h + (ShimArg + Newline), ShimStage, "");
    arg, stage := |h|, |h + (ShimArg + Newline)|;
  }

  /** The shim's argument and stage are above the final FROM of every recipe. */
  lemma ShimAbove(m: Manifest, sh: Scripts) returns (arg: nat, stage: nat)
    ensures StandsAt(Above(m, sh), ShimArg, arg) && StandsAt(Above(m, sh), ShimStage, stage)
  {
    hide Above;
    hide StandsAt;
    hide RecipeOf;
    if RecipeOf(m).BinaryDownload? {
      arg, stage := AboveDownload(m, sh);
    } else if RecipeOf(m).SourceBuild? {
      arg, stage := AboveBuild(m, sh);
    } else {
      arg, stage := AboveOther(m, sh);
    }
  }

  lemma CopyBelow(m: Manifest) returns (i: nat)
    ensures StandsAt(Below(m), CopyShim, i)
  {
    hide CopyDownloaded;
    hide CopyBuilt;
    hide PackageRun;
    hide Chown;
    hide Uid;
    hide CopyShim;
    match RecipeOf(m)
    case BinaryDownload => assert "" + Below(m) == Below(m); Around("", CopyShim, CopyDownloaded(m)); i := 0;
    case SourceBuild => assert "" + Below(m) == Below(m); Around("", CopyShim, CopyBuilt(m)); i := 0;
    case PkgInstall => assert CopyShim + "" == CopyShim; Around(PackageRun(m), CopyShim, ""); i := |PackageRun(m)|;
    case ChainguardRepack => Around("USER 0\n", CopyShim, Chown(m)); i := |"USER 0\n"|;
    case UpstreamRepack => Around("USER 0\n", CopyShim, if Uid(m) == "0" then "" else Chown(m)); i := |"USER 0\n"|;
  }

  lemma CheckInRuntime(m: Manifest, order: seq<string>) returns (i: nat)
    requires forall k | k in order :: k in m.labels
    ensures StandsAt(Runtime(m, order), Healthcheck(m, StartPeriod(m)), i)
  {
    hide Healthcheck;
    hide UserLine;
    hide ExposeLine;
    hide EntrypointLine;
    hide LabelBlock;
    hide StopLine;
    hide Labels;
    hide StartPeriod;
    var check := Healthcheck(m, StartPeriod(m));
    var before := UserLine(m) + (MetricsLine + ExposeLine(m));
    var rest := (if Wrapped(m) then EntrypointLine(m) else "") + (LabelBlock(Labels(m, order)) + StopLine(m));
    hide MetricsLine;
    assert Runtime(m, order) == before + (check + rest);
    Around(before, check, rest);
    i := |before|;
  }

  lemma EntryInRuntime(m: Manifest, order: seq<string>) returns (i: nat)
    requires Wrapped(m) && forall k | k in order :: k in m.labels
    ensures StandsAt(Runtime(m, order), EntrypointLine(m), i)
  {
    hide Healthcheck;
    hide UserLine;
    hide ExposeLine;
    hide EntrypointLine;
    hide LabelBlock;
    hide StopLine;
    hide Labels;
    hide StartPeriod;
    hide Wrapped;
    var before := UserLine(m) + (MetricsLine + (ExposeLine(m) + Healthcheck(m, StartPeriod(m))));
    var rest := LabelBlock(Labels(m, order)) + StopLine(m);
    hide MetricsLine;
    assert Runtime(m, order) == before + (EntrypointLine(m) + rest);
    Around(before, EntrypointLine(m), rest);
    i := |before|;
  }

  // --- What the checker finds ------------------------------------------------------------------

  lemma ArgFound(rest: string)
    ensures ArgHere(ShimArg + rest)
  {
    ArgLineHere(SHIM_VERSION, Newline + rest);
    hide ArgHere;
    assert ShimArg + rest == Wiring.ArgLine(SHIM_VERSION) + (Newline + rest);
  }

  const StageBase := ShimName + ShimTag

  lemma StageFound(rest: string)
    ensures FromHere(ShimStage + rest)
  {
    var end := "\n\n" + rest;
    var tail := " AS shim" + end;
    StageTailHere(end);
    StageIs(rest);
    hide StageHere;
    var t := Wiring.Registry + (StageBase + tail);
    assert Wiring.Registry[0] == 'g';
    AfterWordIs("FROM", t);
    hide AfterWord;
    var n := |Wiring.Registry| + |StageBase|;
    BasePlain();
    hide StageBase;
    assert t[n..] == tail && t[|Wiring.Registry|..n] == StageBase;
  }

  lemma BasePlain()
    ensures Without(StageBase, '\n')
  {
  }

  lemma StageIs(rest: string)
    ensures ShimStage + rest == "FROM" + (" " + (Wiring.Registry + (StageBase + (" AS shim" + ("\n\n" + rest)))))
  {
    assert ShimHost + ShimOrg == Wiring.Registry;
    assert " AS shim\n\n" == " AS shim" + "\n\n";
    var base := SHIM_IMAGE + ShimTag;
    assert base == Wiring.Registry + StageBase;
    hide Wiring.Registry;
    hide StageBase;
    hide SHIM_IMAGE;
    hide ShimTag;
  }

  /** What stands behind the CMD of the healthcheck. */
  function CallTail(port: string): string {
    ", \"--tcp\", \"127.0.0.1:" + (port + "\"]\n\n")
  }

  lemma CheckIs(m: Manifest, start: Fixed, rest: string)
    ensures var front := "HEALTHCHECK " + (Interval + (Timeout + (start + Retries)));
            Generator.Healthcheck(m, start) + rest ==
            front + ("CMD" + (" " + WiringVerdict.Quoted("\"healthcheck\"", CallTail(PrimaryPort(m)) + rest)))
  {
    var port := PrimaryPort(m);
    hide PrimaryPort;
    CallIs(port, rest);
    var call := Bracket + (ShimQuoted + (CheckArg + Put(TcpArg, port, CallEnd)));
    hide Bracket;
    hide ShimQuoted;
    hide CheckArg;
    hide Put;
    hide TcpArg;
    hide CallTail;
    hide WiringVerdict.Quoted;
    hide Interval;
    hide Timeout;
    hide Retries;
    var a, b := Interval + (Timeout + (start + Retries)), call + rest;
    assert "CMD " == "CMD" + " ";
    assert Generator.Healthcheck(m, start) == "HEALTHCHECK " + (Interval + (Timeout + (start + (Retries + ("CMD " + call)))));
    assert "HEALTHCHECK " + (Interval + (Timeout + (start + (Retries + ("CMD " + call))))) + rest ==
           "HEALTHCHECK " + a + ("CMD" + (" " + b));
  }

  lemma CallIs(port: string, rest: string)
    ensures Bracket + (ShimQuoted + (CheckArg + Put(TcpArg, port, CallEnd))) + rest ==
            WiringVerdict.Quoted("\"healthcheck\"", CallTail(port) + rest)
  {
    CallRegrouped(Bracket, Quote, ShimBin, NextArg, "\"healthcheck\"", ", ", TcpArg, port, CallEnd, rest);
    CallWords();
  }

  lemma CallWords()
    ensures CheckArg == "\"healthcheck\"" + ", " && Bracket + Quote == "[\"" && ShimBin == Wiring.ShimBin && NextArg == "\", "
    ensures ", " + TcpArg == ", \"--tcp\", \"127.0.0.1:" && CallEnd == "\"]\n\n"
  {
  }

  lemma CallRegrouped(b: string, q: string, s: string, n: string, w: string, c: string, t: string, p: string, e: string, rest: string)
    ensures b + ((q + (s + n)) + ((w + c) + (t + p + e))) + rest == (b + q) + (s + (n + (w + ((c + t) + (p + e) + rest))))
  {
  }

  lemma CallFound(tail: string)
    ensures CallHere("CMD" + (" " + WiringVerdict.Quoted("\"healthcheck\"", tail)), Wiring.ShimBin)
  {
    QuotedIs("\"healthcheck\"", tail);
    hide ListHead;
    hide WiringVerdict.Quoted;
    AfterWordIs("CMD", WiringVerdict.Quoted("\"healthcheck\"", tail));
    hide AfterWord;
  }

  lemma CheckFound(m: Manifest, start: Fixed, rest: string)
    ensures CheckHere(Generator.Healthcheck(m, start) + rest, Wiring.ShimBin)
  {
    var tail := CallTail(PrimaryPort(m)) + rest;
    CheckIs(m, start, rest);
    CallFound(tail);
    hide *;
    CheckStarts(Interval + (Timeout + (start + Retries)), "CMD" + (" " + WiringVerdict.Quoted("\"healthcheck\"", tail)));
  }

  lemma CheckStarts(a: string, call: string)
    requires CallHere(call, Wiring.ShimBin)
    ensures CheckHere("HEALTHCHECK " + a + call, Wiring.ShimBin)
  {
    hide CallHere;
    var s := "HEALTHCHECK " + a + call;
    assert s[..11] == "HEALTHCHECK";
    assert s[|"HEALTHCHECK " + a|..] == call;
  }

  lemma CopyFound(text: string, i: nat)
    requires StandsAt(text, CopyShim, i)
    ensures Wiring.HasWiring(text)
  {
    var rest := text[i..][|CopyShim|..];
    CopyText(rest);
    hide CopyShim;
    assert text == text[..i] + (CopyShim + rest);
    hide Has;
    HasPart(text[..i], CopyShim + rest, "", "COPY --from=shim");
    HasPart(text[..i], CopyShim + rest, "", "/shim");
    assert text[..i] + (CopyShim + rest + "") == text;
  }

  lemma CopyText(rest: string)
    ensures Has(CopyShim + rest, "COPY --from=shim") && Has(CopyShim + rest, "/shim")
  {
    var b := " /shim " + (ShimBin + Newline) + rest;
    HasInside("", "COPY --from=shim", b);
    HasInside("COPY --from=shim ", "/shim", " " + (ShimBin + Newline) + rest);
    CopyTexts(rest);
    hide Has;
  }

  lemma CopyTexts(rest: string)
    ensures CopyShim + rest == "" + ("COPY --from=shim" + (" /shim " + (ShimBin + Newline) + rest))
    ensures CopyShim + rest == "COPY --from=shim " + ("/shim" + (" " + (ShimBin + Newline) + rest))
  {
    CopyWords();
    var file := ShimBin + Newline;
    Regrouped("COPY ", FromShim, file, rest, "COPY --from=shim", " /shim ");
    Regrouped("COPY ", FromShim, file, rest, "COPY --from=shim ", "/shim ");
    hide *;
    var end := file + rest;
    assert " " + file + rest == " " + end && " /shim " + file + rest == " /shim " + end;
    assert "/shim " + end == "/shim" + (" " + end);
    assert "COPY --from=shim" + (" /shim " + end) == "" + ("COPY --from=shim" + (" /shim " + end));
  }

  lemma CopyWords()
    ensures "COPY " + FromShim == "COPY --from=shim" + " /shim " == "COPY --from=shim " + "/shim "
    ensures CopyShim == "COPY " + (FromShim + (ShimBin + Newline))
  {
  }

  lemma Regrouped(a: string, b: string, c: string, d: string, x: string, y: string)
    requires a + b == x + y
    ensures a + (b + c) + d == x + (y + (c + d))
  {
    assert a + (b + c) + d == (a + b) + (c + d);
  }

  // --- The theorem -----------------------------------------------------------------------------

  /** The first four checks pass, with the shim at the path of the generator. */
  ghost predicate Wired(text: string) {
    HasArg(text) && HasFrom(text) && Wiring.HasWiring(text) && HasCheck(text, Wiring.ShimBin)
  }

  lemma InFront(a: string, b: string, c: string, d: string, part: string, i: nat)
    requires StandsAt(a, part, i)
    ensures StandsAt(a + (b + (c + d)), part, i)
  {
    hide StandsAt;
    Further(a, b + (c + d), part, i);
  }

  lemma InThird(a: string, b: string, c: string, d: string, part: string, i: nat)
    requires StandsAt(c, part, i)
    ensures StandsAt(a + (b + (c + d)), part, |a| + (|b| + i))
  {
    hide StandsAt;
    Further(c, d, part, i);
    Behind(b, c + d, part, i);
    Behind(a, b + (c + d), part, |b| + i);
  }

  lemma InLast(a: string, b: string, c: string, d: string, part: string, i: nat)
    requires StandsAt(d, part, i)
    ensures StandsAt(a + (b + (c + d)), part, |a| + (|b| + (|c| + i)))
  {
    hide StandsAt;
    Behind(c, d, part, i);
    Behind(b, c + d, part, |c| + i);
    Behind(a, b + (c + d), part, |b| + (|c| + i));
  }

  /**
   Whatever the manifest and its recipe: the checker finds the shim's argument, stage, copy and
   healthcheck in the generated text.
   */
  lemma GeneratedIsWired(m: Manifest, sh: Scripts, order: seq<string>)
    requires forall k | k in order :: k in m.labels
    ensures Wired(Generate(m, sh, order))
  {
    hide *;
    var above, from, below, runtime := Above(m, sh), FromLine(FinalBase(m), "\n"), Below(m), Runtime(m, order);
    var text := Generate(m, sh, order);
    GenerateIs(m, sh, order);
    var arg, stage := ShimAbove(m, sh);
    var copy := CopyBelow(m);
    var at := CheckInRuntime(m, order);
    var check := Generator.Healthcheck(m, StartPeriod(m));
    InFront(above, from, below, runtime, ShimArg, arg);
    InFront(above, from, below, runtime, ShimStage, stage);
    InThird(above, from, below, runtime, CopyShim, copy);
    InLast(above, from, below, runtime, check, at);
    ArgIn(text, arg);
    StageIn(text, stage);
    CopyFound(text, |above| + (|from| + copy));
    CheckIn(text, m, StartPeriod(m), |above| + (|from| + (|below| + at)));
    AllFound(text);
  }

  lemma GenerateIs(m: Manifest, sh: Scripts, order: seq<string>)
    requires forall k | k in order :: k in m.labels
    ensures Generate(m, sh, order) == Above(m, sh) + (FromLine(FinalBase(m), "\n") + (Below(m) + Runtime(m, order)))
  {
    hide Above;
    hide FromLine;
    hide FinalBase;
    hide Below;
    hide Runtime;
  }

  lemma AllFound(text: string)
    requires HasArg(text) && HasFrom(text) && Wiring.HasWiring(text) && HasCheck(text, Wiring.ShimBin)
    ensures Wired(text)
  {
    hide HasArg;
    hide HasFrom;
    hide HasCheck;
    hide Wiring.HasWiring;
  }

  lemma ArgIn(text: string, i: nat)
    requires StandsAt(text, ShimArg, i)
    ensures HasArg(text)
  {
    ArgFound(text[i..][|ShimArg|..]);
    hide ArgHere;
    hide ShimArg;
    assert text[i..] == ShimArg + text[i..][|ShimArg|..];
  }

  lemma StageIn(text: string, i: nat)
    requires StandsAt(text, ShimStage, i)
    ensures HasFrom(text)
  {
    StageFound(text[i..][|ShimStage|..]);
    hide FromHere;
    hide ShimStage;
    assert text[i..] == ShimStage + text[i..][|ShimStage|..];
  }

  lemma CheckIn(text: string, m: Manifest, start: Fixed, i: nat)
    requires StandsAt(text, Generator.Healthcheck(m, start), i)
    ensures HasCheck(text, Wiring.ShimBin)
  {
    hide *;
    var rest := Rest(text, Generator.Healthcheck(m, start), i);
    CheckFound(m, start, rest);
    ChecksAt(text, i);
  }

  lemma ChecksAt(text: string, i: nat)
    requires i <= |text| && CheckHere(text[i..], Wiring.ShimBin)
    ensures HasCheck(text, Wiring.ShimBin)
  {
    hide CheckHere;
  }

  // --- The entrypoint --------------------------------------------------------------------------

  /** Where the wrapped image's own program is. */
  function BinaryPath(m: Manifest): string {
    BinDir + m.Name()
  }

  /** What stands behind the word run of the entrypoint. */
  function ProgramTail(path: string, rest: string): string {
    ", " + ("\"-c\"" + (", " + ("\"" + (path + ("\"" + ("]" + rest))))))
  }

  lemma ProgramEnds(path: string, rest: string)
    requires path != "" && Without(path, '"')
    ensures ListEnd(ProgramTail(path, rest))
  {
    var q := "\"" + (path + ("\"" + ("]" + rest)));
    var second := ", " + q;
    CommaIs("\"-c\"", second);
    CommaIs("\"", path + ("\"" + ("]" + rest)));
    assert ProgramTail(path, rest)[0] == ',';
    var n := |path| + 1;
    assert q[1..n] == path && q[n] == '"' && q[n + 1] == ']' && q[0] == '"';
    hide Unspaced;
  }

  lemma EntryIs(m: Manifest, rest: string)
    requires m.entrypoint == []
    ensures EntrypointLine(m) + rest ==
            "ENTRYPOINT" + (" " + WiringVerdict.Quoted("\"run\"", ProgramTail(BinaryPath(m), "\n\n" + rest)))
  {
    EntryWords();
    var name := m.Name();
    assert EntrypointLine(m) ==
           "ENTRYPOINT" + (" " + ("[" + (Quote + (ShimBin + NextArg) + (RunArgs + (BinDir + name + Quote)) + "]\n\n")));
    EntryRegrouped("[", Quote, ShimBin, NextArg, "\"run\"", ", ", "\"-c\"", BinDir + name, "]", "\n\n", rest);
    hide *;
  }

  lemma EntryWords()
    ensures RunArgs == "\"run\"" + (", " + ("\"-c\"" + (", " + Quote)))
    ensures "[" + Quote == "[\"" && Quote == "\"" && NextArg == "\", " && ShimBin == Wiring.ShimBin && "]" + "\n\n" == "]\n\n"
  {
  }

  lemma EntryRegrouped(b: string, q: string, s: string, n: string, w: string, c: string, o: string, p: string, e: string, l: string, rest: string)
    ensures "ENTRYPOINT" + (" " + (b + (q + (s + n) + (w + (c + (o + (c + q))) + (p + q)) + (e + l)))) + rest ==
            "ENTRYPOINT" + (" " + ((b + q) + (s + (n + (w + (c + (o + (c + (q + (p + (q + (e + (l + rest)))))))))))))
  {
  }

  lemma EntryStarts(tail: string)
    requires ListEnd(tail)
    ensures EntryHere("ENTRYPOINT" + (" " + WiringVerdict.Quoted("\"run\"", tail)), Wiring.ShimBin)
  {
    QuotedIs("\"run\"", tail);
    hide ListHead;
    hide ListEnd;
    var list := WiringVerdict.Quoted("\"run\"", tail);
    hide WiringVerdict.Quoted;
    AfterWordIs("ENTRYPOINT", list);
    hide AfterWord;
    EntryListed("ENTRYPOINT" + (" " + list), list, tail);
  }

  lemma EntryListed(s: string, list: string, tail: string)
    requires AfterWord(s, "ENTRYPOINT") == Some(list) && ListHead(list, Wiring.ShimBin, "\"run\"") == Some(tail) && ListEnd(tail)
    ensures EntryHere(s, Wiring.ShimBin)
  {
    hide ListHead;
    hide ListEnd;
    hide AfterWord;
  }

  lemma PathUnquoted(m: Manifest)
    requires Without(m.Name(), '"')
    ensures BinaryPath(m) != "" && Without(BinaryPath(m), '"')
  {
    assert Without(BinDir, '"') && BinDir != "";
  }

  lemma EntryAt(m: Manifest, text: string, i: nat)
    requires m.entrypoint == [] && Without(m.Name(), '"') && StandsAt(text, EntrypointLine(m), i)
    ensures HasEntry(text, Wiring.ShimBin)
  {
    hide *;
    var rest := Rest(text, EntrypointLine(m), i);
    EntryIs(m, rest);
    PathUnquoted(m);
    ProgramEnds(BinaryPath(m), "\n\n" + rest);
    EntryStarts(ProgramTail(BinaryPath(m), "\n\n" + rest));
    EntriesAt(text, i);
  }

  lemma EntriesAt(text: string, i: nat)
    requires i <= |text| && EntryHere(text[i..], Wiring.ShimBin)
    ensures HasEntry(text, Wiring.ShimBin)
  {
    hide EntryHere;
  }

  /**
   The fifth check passes exactly when the first bracketed entrypoint names the shim, or some
   entrypoint calls it at its root path.
   */
  ghost predicate FifthExactly(text: string) {
    HasEntry(text, ShimPath(text)) <==>
    (FirstBracket(text).Some? && Has(FirstBracket(text).value, Wiring.ShimBin)) || HasEntry(text, "/shim")
  }

  lemma FifthCheck(text: string)
    requires HasEntry(text, Wiring.ShimBin)
    ensures FifthExactly(text)
  {
    hide HasEntry;
    hide FirstBracket;
    hide Has;
    assert |Wiring.ShimBin| > 5;
  }

  /** The shim is put in front of the image's own program. */
  predicate ShimInFront(m: Manifest) {
    Wrapped(m) && m.entrypoint == [] && Without(m.Name(), '"')
  }

  /** The entrypoint of a wrapped image is found, and decides the fifth check as it should. */
  lemma EntrypointIsWired(m: Manifest, sh: Scripts, order: seq<string>)
    requires ShimInFront(m) && forall k | k in order :: k in m.labels
    ensures HasEntry(Generate(m, sh, order), Wiring.ShimBin) && FifthExactly(Generate(m, sh, order))
  {
    InFrontIs(m);
    hide *;
    var text := Generate(m, sh, order);
    var above, from, below, runtime := Above(m, sh), FromLine(FinalBase(m), "\n"), Below(m), Runtime(m, order);
    GenerateIs(m, sh, order);
    var i := EntryInRuntime(m, order);
    InLast(above, from, below, runtime, EntrypointLine(m), i);
    EntryAt(m, text, |above| + (|from| + (|below| + i)));
    FifthCheck(text);
  }

  lemma InFrontIs(m: Manifest)
    ensures ShimInFront(m) ==> Wrapped(m) && m.entrypoint == [] && Without(m.Name(), '"')
  {
    hide Wrapped;
  }

  // --- What the entrypoint runs ------------------------------------------------------------------

  /** The line that copies a file into the image, to the path. */
  function CopyTo(source: string, path: string): string {
    "COPY --from=" + source + (" " + (path + "\n"))
  }

  lemma BinaryCopied(m: Manifest) returns (i: nat, source: string)
    requires RecipeOf(m).BinaryDownload? || RecipeOf(m).SourceBuild?
    ensures StandsAt(Below(m), CopyTo(source, BinaryPath(m)), i)
  {
    var name := m.Name();
    i := |CopyShim|;
    CopySources(name);
    if RecipeOf(m).BinaryDownload? {
      source := "downloader /tmp/download";
      var certs := "COPY " + (FromDownloader + (Slash + (Bundle + (BundleDir + (Bundle + BlankLine)))));
      assert CopyDownloaded(m) == "COPY " + (FromDownloader + (Download + Put(BinDir, name, Newline))) + certs;
      assert CopyDownloaded(m) == CopyTo(source, BinaryPath(m)) + certs;
      hide CopyTo;
      Around(CopyShim, CopyTo(source, BinaryPath(m)), certs);
      hide CopyDownloaded;
      hide CopyShim;
    } else {
      source := "builder /" + name;
      assert CopyBuilt(m) == "COPY " + Put(FromBuilder, name, Put(ToBin, name, BlankLine));
      assert CopyBuilt(m) == CopyTo(source, BinaryPath(m)) + Newline;
      hide CopyTo;
      Around(CopyShim, CopyTo(source, BinaryPath(m)), Newline);
      hide CopyBuilt;
      hide CopyShim;
    }
  }

  lemma CopySources(name: string)
    ensures "COPY " + (FromDownloader + (Download + Put(BinDir, name, Newline))) == CopyTo("downloader /tmp/download", BinDir + name)
    ensures "COPY " + Put(FromBuilder, name, Put(ToBin, name, BlankLine)) == CopyTo("builder /" + name, BinDir + name) + Newline
  {
    DownloadWords();
    BuilderWords();
    CopyOf("COPY ", FromDownloader, Download, BinDir + name + Newline, "COPY --from=", "downloader /tmp/download", " ");
    BuiltOf("COPY ", FromBuilder, name, " ", BinDir, "\n", Newline, "COPY --from=", "builder /");
    hide *;
    assert BinDir + name + Newline == BinDir + name + "\n";
    PutIs(BinDir, name, Newline);
    PutIs(ToBin, name, BlankLine);
    PutIs(FromBuilder, name, ToBin + name + BlankLine);
    CopyToIs("downloader /tmp/download", BinDir + name);
    CopyToIs("builder /" + name, BinDir + name);
  }

  lemma PutIs(a: string, b: string, c: string)
    ensures Put(a, b, c) == a + b + c
  {
  }

  lemma CopyToIs(source: string, path: string)
    ensures CopyTo(source, path) == "COPY --from=" + source + (" " + (path + "\n"))
  {
  }

  lemma CopyOf(a: string, b: string, c: string, d: string, x: string, y: string, z: string)
    requires a + (b + c) == x + y + z
    ensures a + (b + (c + d)) == x + y + (z + d)
  {
    assert a + (b + (c + d)) == (a + (b + c)) + d;
  }

  lemma BuiltOf(a: string, b: string, n: string, c: string, d: string, e: string, f: string, x: string, y: string)
    requires a + b == x + y
    ensures a + (b + n + ((c + d) + n + (e + f))) == x + (y + n) + (c + ((d + n) + e)) + f
  {
    assert a + (b + n + ((c + d) + n + (e + f))) == (a + b) + (n + (c + (d + (n + (e + f)))));
    assert x + (y + n) + (c + ((d + n) + e)) + f == (x + y) + (n + (c + (d + (n + (e + f)))));
  }

  lemma DownloadWords()
    ensures "COPY " + (FromDownloader + Download) == "COPY --from=" + "downloader /tmp/download" + " " && Newline == "\n"
  {
    FromWords();
    hide *;
    assert "COPY " + (("--from=" + "downloader ") + Download) == ("COPY " + "--from=") + ("downloader " + Download);
  }

  lemma FromWords()
    ensures FromDownloader == "--from=" + "downloader " && "COPY " + "--from=" == "COPY --from=" && Newline == "\n"
    ensures "downloader " + Download == "downloader /tmp/download" + " "
  {
  }

  lemma BuilderWords()
    ensures "COPY " + FromBuilder == "COPY --from=" + "builder /" && ToBin == " " + BinDir && BlankLine == "\n" + Newline
  {
  }

  /** A line copies a file to the path, and a later entrypoint has the shim run that path. */
  predicate CopiedAndRun(text: string, path: string, i: nat, source: string, j: nat, rest: string) {
    && i < j <= |text| && StandsAt(text, CopyTo(source, path), i)
    && text[j..] == "ENTRYPOINT" + (" " + WiringVerdict.Quoted("\"run\"", ProgramTail(path, rest)))
  }

  lemma CopiedAndRunIs(text: string, path: string, i: nat, source: string, j: nat, rest: string)
    requires i < j <= |text| && StandsAt(text, CopyTo(source, path), i)
    requires text[j..] == "ENTRYPOINT" + (" " + WiringVerdict.Quoted("\"run\"", ProgramTail(path, rest)))
    ensures CopiedAndRun(text, path, i, source, j, rest)
  {
    hide StandsAt;
    hide WiringVerdict.Quoted;
    hide ProgramTail;
  }

  /**
   What the entrypoint hands to the shim is what an earlier line copies into the image: the program
   is where it is called.
   */
  lemma ProgramIsInstalled(m: Manifest, sh: Scripts, order: seq<string>) returns (i: nat, source: string, j: nat, rest: string)
    requires Fetched(m) && ShimInFront(m) && forall k | k in order :: k in m.labels
    ensures CopiedAndRun(Generate(m, sh, order), BinaryPath(m), i, source, j, rest)
  {
    InFrontIs(m);
    FetchedIs(m);
    hide *;
    var text := Generate(m, sh, order);
    var above, from, below, runtime := Above(m, sh), FromLine(FinalBase(m), "\n"), Below(m), Runtime(m, order);
    GenerateIs(m, sh, order);
    i, source := BinaryCopied(m);
    InThird(above, from, below, runtime, CopyTo(source, BinaryPath(m)), i);
    StandsInside(below, CopyTo(source, BinaryPath(m)), i);
    CopyToLong(source, BinaryPath(m));
    i := |above| + (|from| + i);
    var e := EntryInRuntime(m, order);
    InLast(above, from, below, runtime, EntrypointLine(m), e);
    j := |above| + (|from| + (|below| + e));
    rest := Rest(text, EntrypointLine(m), j);
    EntryIs(m, rest);
    rest := "\n\n" + rest;
    CopiedAndRunIs(text, BinaryPath(m), i, source, j, rest);
  }

  /** The program is fetched or built in a stage of its own. */
  predicate Fetched(m: Manifest) {
    RecipeOf(m).BinaryDownload? || RecipeOf(m).SourceBuild?
  }

  lemma FetchedIs(m: Manifest)
    ensures Fetched(m) ==> RecipeOf(m).BinaryDownload? || RecipeOf(m).SourceBuild?
  {
    hide RecipeOf;
  }

  lemma StandsInside(text: string, part: string, i: nat)
    requires StandsAt(text, part, i)
    ensures i + |part| <= |text|
  {
  }

  lemma CopyToLong(source: string, path: string)
    ensures |CopyTo(source, path)| > 0
  {
  }

  lemma Rest(text: string, part: string, i: nat) returns (rest: string)
    requires StandsAt(text, part, i)
    ensures i <= |text| && text[i..] == part + rest
  {
    rest := text[i..][|part|..];
  }

  // --- What the healthcheck dials ----------------------------------------------------------------

  /** A healthcheck with these options, which calls the shim with the port. */
  predicate Dials(text: string, port: string, i: nat, options: string, rest: string) {
    && i <= |text|
    && text[i..] == "HEALTHCHECK " + options + ("CMD" + (" " + WiringVerdict.Quoted("\"healthcheck\"", CallTail(port) + rest)))
  }

  /** One line whose last backslash is followed by blanks. */
  predicate BackslashInside(options: string) {
    OneLine(options) && |options| > 3 && options[|options| - 3..] == "\\  "
  }

  lemma DialsIs(text: string, port: string, i: nat, options: string, rest: string)
    requires i <= |text|
    requires text[i..] == "HEALTHCHECK " + options + ("CMD" + (" " + WiringVerdict.Quoted("\"healthcheck\"", CallTail(port) + rest)))
    ensures Dials(text, port, i, options, rest)
  {
    hide WiringVerdict.Quoted;
    hide CallTail;
  }

  /**
   The healthcheck dials the first exposed port, or 8080, and stands in one line: the backslash in
   front of its command is followed by blanks, so it continues nothing.
   */
  lemma GeneratedDials(m: Manifest, sh: Scripts, order: seq<string>) returns (i: nat, options: string, rest: string)
    requires forall k | k in order :: k in m.labels
    ensures Dials(Generate(m, sh, order), if m.expose == [] then "8080" else m.expose[0], i, options, rest)
    ensures BackslashInside(options)
  {
    PortIs(m);
    hide *;
    var text := Generate(m, sh, order);
    var above, from, below, runtime := Above(m, sh), FromLine(FinalBase(m), "\n"), Below(m), Runtime(m, order);
    GenerateIs(m, sh, order);
    var start := StartPeriod(m);
    var at := CheckInRuntime(m, order);
    var check := Generator.Healthcheck(m, start);
    InLast(above, from, below, runtime, check, at);
    i := |above| + (|from| + (|below| + at));
    rest := Rest(text, check, i);
    CheckIs(m, start, rest);
    options := Interval + (Timeout + (start + Retries));
    OptionsIs(m);
    DialsIs(text, PrimaryPort(m), i, options, rest);
  }

  lemma PortIs(m: Manifest)
    ensures PrimaryPort(m) == if m.expose == [] then "8080" else m.expose[0]
  {
  }

  lemma OptionsIs(m: Manifest)
    ensures BackslashInside(Interval + (Timeout + (StartPeriod(m) + Retries)))
  {
    OptionWords();
    hide Wrapped;
    assert StartPeriod(m) == FastStart || StartPeriod(m) == SlowStart;
    hide StartPeriod;
    hide FastStart;
    hide SlowStart;
    hide Interval;
    hide Timeout;
    hide Retries;
    var options := Interval + (Timeout + (StartPeriod(m) + Retries));
    assert options[|options| - 3..] == Retries[|Retries| - 3..];
  }

  lemma OptionWords()
    ensures OneLine(Interval) && OneLine(Timeout) && OneLine(FastStart) && OneLine(SlowStart) && OneLine(Retries)
    ensures |Retries| > 3 && Retries[|Retries| - 3..] == "\\  "
  {
  }
}
