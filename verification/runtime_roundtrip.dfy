/** User, stop signal and entrypoint read back from a generated Dockerfile. */
module RuntimeRoundTrip {
  import opened Text
  import opened Patterns
  import opened Silence
  import opened Manifests
  import opened Generator
  import opened Sections
  import opened Extract
  import opened RoundTrip

  // --- User ---------------------------------------------------------------------------

  lemma UserIsBare(content: string)
    ensures Bare(ExtractUser(content))
  {
    hide Captures;
    assert Bare("65532:65532");
    hide Bare;
    AllCaptured(content, User);
    var found := Captures(content, User);
    assert found != [] ==> Captured(found[|found| - 1], User);
  }

  /** The root user of the repacked images, for the time of the set-up. */
  function EarlierUsers(m: Manifest): seq<seq<string>> {
    if Wrapped(m) then [] else [["0"]]
  }

  lemma BelowUsers(m: Manifest, rest: string)
    requires Clean(m, User)
    ensures Captures(Below(m) + rest, User) == EarlierUsers(m) + Captures(rest, User)
  {
    hide Captures;
    hide Calm;
    hide CopyShim;
    hide Chown;
    hide Clean;
    hide CopyDownloaded;
    hide CopyBuilt;
    hide PackageRun;
    if Wrapped(m) {
      BelowCalm(m, User);
      IdleScan(Below(m), rest, User);
    } else {
      PlainBelowUsers(m, rest);
    }
  }

  lemma SetupIdle(m: Manifest, chown: string)
    requires Clean(m, User) && (chown == "" || chown == Chown(m))
    ensures Idle(CopyShim + chown, User)
  {
    hide CopyShim;
    hide Chown;
    hide Clean;
    hide Calm;
    CopyShimCalm(User);
    ChownCalm(m, User);
    IdleAppend(CopyShim, chown, User);
  }

  lemma PlainBelowUsers(m: Manifest, rest: string)
    requires Clean(m, User) && !Wrapped(m)
    ensures Captures(Below(m) + rest, User) == EarlierUsers(m) + Captures(rest, User)
  {
    hide Captures;
    hide CopyShim;
    hide Chown;
    hide Clean;
    hide Calm;
    hide CopyDownloaded;
    hide CopyBuilt;
    hide PackageRun;
    var chown := if RecipeOf(m).UpstreamRepack? && Uid(m) == "0" then "" else Chown(m);
    assert Below(m) == "USER 0\n" + (CopyShim + chown);
    SetupIdle(m, chown);
    var setup := CopyShim + chown;
    assert Below(m) + rest == "USER" + (" " + ("0" + ("\n" + (setup + rest))));
    WordScan("0", "\n" + (setup + rest), User);
    assert Calm("\n", User) by { Ends(Newline, User); TailCalm(Newline, User); }
    IdleScan("\n", setup + rest, User);
    IdleScan(setup, rest, User);
  }

  lemma UserLineScan(m: Manifest, order: seq<string>)
    requires forall k | k in order :: k in m.labels
    requires Clean(m, User) && Bare(m.User())
    ensures Captures(Runtime(m, order), User) == [[m.User()]]
  {
    hide Captures;
    hide Clean;
    hide Quiet;
    hide FromMetrics;
    hide Runtime;
    var end := FromMetrics(m, order);
    RuntimeIs(m, order);
    FromMetricsCalm(m, order, User);
    assert Runtime(m, order) == "USER" + (" " + (m.User() + (BlankLine + end)));
    WordScan(m.User(), BlankLine + end, User);
    Ends(BlankLine, User);
    CalmScan(BlankLine, end, User);
    CalmNothing(end, User);
  }

  lemma UsersRead(m: Manifest, sh: Scripts, order: seq<string>)
    requires forall k | k in order :: k in m.labels
    requires Clean(m, User) && CleanScripts(m, sh, User)
    ensures Bare(m.User()) ==>
      Captures(Generate(m, sh, order), User) == EarlierUsers(m) + [[m.User()]]
  {
    hide Captures;
    hide Clean;
    hide Calm;
    hide Bare;
    hide Above;
    hide FromLine;
    hide FinalBase;
    hide Below;
    hide Runtime;
    hide EarlierUsers;
    hide CleanScripts;
    if Bare(m.User()) {
      AboveCalm(m, sh, User);
      FinalBaseCalm(m, User);
      UserLineScan(m, order);
      var from, rest := FromLine(FinalBase(m), "\n"), Runtime(m, order);
      IdleScan(Above(m, sh), from + (Below(m) + rest), User);
      IdleScan(from, Below(m) + rest, User);
      BelowUsers(m, rest);
    }
  }

  /** The user comes back exactly when it is one word; an empty one never does. */
  lemma UserRead(m: Manifest, sh: Scripts, order: seq<string>)
    requires forall k | k in order :: k in m.labels
    requires Clean(m, User) && CleanScripts(m, sh, User)
    ensures ExtractUser(Generate(m, sh, order)) == m.User() <==> Bare(m.User())
  {
    hide Captures;
    hide Generate;
    hide Clean;
    hide CleanScripts;
    UserIsBare(Generate(m, sh, order));
    UsersRead(m, sh, order);
    hide Bare;
  }

  // --- The text above the labels ------------------------------------------------------------

  lemma UpToExposeCalm(m: Manifest, sh: Scripts, p: Pattern)
    requires Clean(m, p) && CleanScripts(m, sh, p)
    requires p.Expose? || p.Entrypoint? || p.Stop?
    ensures Calm(Above(m, sh) + (FromLine(FinalBase(m), "\n") + (Below(m) + (UserLine(m) + MetricsLine))), p)
  {
    hide Calm;
    hide Clean;
    hide CleanScripts;
    hide Above;
    hide FromLine;
    hide FinalBase;
    hide Below;
    hide UserLine;
    hide MetricsLine;
    AboveCalm(m, sh, p);
    FinalBaseCalm(m, p);
    BelowCalm(m, p);
    UserLineIdle(m, p);
    MetricsLineCalm(p);
    var r0 := UserLine(m) + MetricsLine;
    IdleAppend(UserLine(m), MetricsLine, p);
    assert Calm(r0, p) by { assert MetricsLine != "" by { CalmIs(MetricsLine, p); } }
    CalmAppend(Below(m), r0, p);
    CalmAppend(FromLine(FinalBase(m), "\n"), Below(m) + r0, p);
    CalmAppend(Above(m, sh), FromLine(FinalBase(m), "\n") + (Below(m) + r0), p);
  }

  lemma ScanToExpose(m: Manifest, sh: Scripts, order: seq<string>, p: Pattern)
    requires forall k | k in order :: k in m.labels
    requires Clean(m, p) && CleanScripts(m, sh, p)
    requires p.Expose? || p.Entrypoint? || p.Stop?
    ensures Captures(Generate(m, sh, order), p) == Captures(FromExpose(m, order), p)
  {
    hide Captures;
    hide Calm;
    hide Clean;
    hide CleanScripts;
    hide Above;
    hide FromLine;
    hide FinalBase;
    hide Below;
    hide UserLine;
    hide MetricsLine;
    hide FromExpose;
    UpToExposeCalm(m, sh, p);
    var r0 := UserLine(m) + MetricsLine;
    var front := Above(m, sh) + (FromLine(FinalBase(m), "\n") + (Below(m) + r0));
    RuntimeIs(m, order);
    Regroup(Above(m, sh), FromLine(FinalBase(m), "\n"), Below(m), UserLine(m), MetricsLine, FromExpose(m, order));
    IdleScan(front, FromExpose(m, order), p);
  }

  lemma Regroup(a: string, b: string, c: string, d: string, e: string, f: string)
    ensures a + (b + (c + (d + (e + f)))) == (a + (b + (c + (d + e)))) + f
  {
  }

  lemma ScanToEntrypoint(m: Manifest, sh: Scripts, order: seq<string>, p: Pattern)
    requires forall k | k in order :: k in m.labels
    requires Clean(m, p) && CleanScripts(m, sh, p)
    requires p.Entrypoint? || p.Stop?
    ensures Captures(Generate(m, sh, order), p) == Captures(FromEntrypoint(m, order), p)
  {
    hide Captures;
    hide Calm;
    hide Clean;
    hide CleanScripts;
    hide Generate;
    hide ExposeLine;
    hide Healthcheck;
    hide FromEntrypoint;
    ScanToExpose(m, sh, order, p);
    PortsCalm(m, p);
    var ports := ExposeLine(m) + Healthcheck(m, StartPeriod(m));
    CalmIs(ports, p);
    CalmScan(ports, FromEntrypoint(m, order), p);
  }

  // --- Stop signal ------------------------------------------------------------------------------

  lemma StopIsBare(content: string)
    ensures Bare(ExtractStop(content))
  {
    hide Captures;
    assert Bare("SIGTERM");
    hide Bare;
    AllCaptured(content, Stop);
    var found := Captures(content, Stop);
    assert found != [] ==> Captured(found[0], Stop);
  }

  lemma StopsRead(m: Manifest, sh: Scripts, order: seq<string>)
    requires forall k | k in order :: k in m.labels
    requires Clean(m, Stop) && CleanScripts(m, sh, Stop)
    ensures Bare(m.StopSignal()) ==> Captures(Generate(m, sh, order), Stop) == [[m.StopSignal()]]
  {
    hide Captures;
    hide Calm;
    hide Clean;
    hide CleanScripts;
    hide Generate;
    hide EntrypointLine;
    hide LabelBlock;
    if Bare(m.StopSignal()) {
      ScanToEntrypoint(m, sh, order, Stop);
      EntrypointLineCalm(m, Stop);
      LabelsQuiet(m, order, Stop);
      var block := LabelBlock(Labels(m, order));
      LabelBlockCalm(Labels(m, order), Stop);
      IdleScan(if Wrapped(m) then EntrypointLine(m) else "", FromLabels(m, order), Stop);
      IdleScan(block, StopLine(m), Stop);
      WordScan(m.StopSignal(), Newline, Stop);
      Ends(Newline, Stop);
      TailCalm(Newline, Stop);
      CalmNothing(Newline, Stop);
    }
  }

  /** The stop signal comes back exactly when it is one word. */
  lemma StopRead(m: Manifest, sh: Scripts, order: seq<string>)
    requires forall k | k in order :: k in m.labels
    requires Clean(m, Stop) && CleanScripts(m, sh, Stop)
    ensures ExtractStop(Generate(m, sh, order)) == m.StopSignal() <==> Bare(m.StopSignal())
  {
    hide Captures;
    hide Generate;
    hide Clean;
    hide CleanScripts;
    StopIsBare(Generate(m, sh, order));
    StopsRead(m, sh, order);
    hide Bare;
  }
}
