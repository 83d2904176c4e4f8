/** auto_version.rs: the pipeline that bumps image versions. */
module AutoVersion {
  import opened Text
  import opened Manifests
  import opened Semver
  import Extract

  // --- The manifest accessors --------------------------------------------------------------

  function AfterPrefix(url: string, prefix: string): Option<string> {
    if prefix <= url then
      var parts := Split(url[|prefix|..], '/');
      if |parts| >= 2 then Some(parts[0] + ("/" + parts[1])) else None
    else None
  }

  /** The URL that names the repository: the metadata source, or else the download URL. */
  function RepoUrl(m: Manifest): string {
    if m.metadata.source != "" then m.metadata.source else m.source.url
  }

  /** Owner/repo of a URL at github.com. */
  function RepoOf(url: string): Option<string> {
    var secure := AfterPrefix(url, Secure);
    if secure.Some? then secure else AfterPrefix(url, Plain)
  }

  /** `github_repo` */
  function GithubRepo(m: Manifest): Option<string> {
    if RepoUrl(m) == "" then None else RepoOf(RepoUrl(m))
  }

  const Secure := "https://" + GithubHost
  const Plain := "http://" + GithubHost
  const GithubHost := "github.com/"

  /** `tier_num`: `parse::<u8>`, or 3. */
  function TierNum(m: Manifest): nat {
    var tier := m.metadata.tier;
    var d := if tier != "" && tier[0] == '+' then tier[1..] else tier;
    if Numeral(d) && Extract.Value(d) < 0x100 then Extract.Value(d) else 3
  }

  // --- Safe bumps -------------------------------------------------------------------------------

  function TrimV(s: string): string {
    if s != "" && s[0] == 'v' then TrimV(s[1..]) else s
  }

  datatype Reason = UpToDate | MajorJump | MinorJump | SafeBump | SameVersion | NotSemver

  /** `is_safe_bump` */
  function IsSafeBump(current: string, latest: string, limit: nat): (bool, Reason) {
    var c, l := TrimV(current), TrimV(latest);
    match (Parse(c), Parse(l))
    case (Some(cv), Some(lv)) =>
      if Compare(cv, lv) >= 0 then (true, UpToDate)
      else if lv.major > cv.major then (false, MajorJump)
      else if lv.minor > cv.minor + limit then (false, MinorJump)
      else (true, SafeBump)
    case _ => if c == l then (true, SameVersion) else (true, NotSemver)
  }

  /** Both texts are versions. */
  predicate BothParse(current: string, latest: string) {
    Parse(TrimV(current)).Some? && Parse(TrimV(latest)).Some?
  }

  /** Not above the current version, or in the same major and at most limit minors further. */
  predicate WithinLimit(current: string, latest: string, limit: nat)
    requires BothParse(current, latest)
  {
    var cv, lv := Parse(TrimV(current)).value, Parse(TrimV(latest)).value;
    AtMost(lv, cv) || (lv.major == cv.major && lv.minor <= cv.minor + limit)
  }

  /** Exactly what is called safe: everything that is no version, and what stays within the limit. */
  lemma SafeExactly(current: string, latest: string, limit: nat)
    ensures IsSafeBump(current, latest, limit).0 <==>
            (BothParse(current, latest) ==> WithinLimit(current, latest, limit))
  {
    hide Parse;
    hide TrimV;
    hide ComparePre;
    if BothParse(current, latest) {
      var cv, lv := Parse(TrimV(current)).value, Parse(TrimV(latest)).value;
      PrecedenceIsTotal(cv, lv);
    }
  }

  /** No limit lets a higher major pass. */
  lemma MajorNeverSafe(current: string, latest: string, limit: nat)
    requires BothParse(current, latest) && Parse(TrimV(latest)).value.major > Parse(TrimV(current)).value.major
    ensures !IsSafeBump(current, latest, limit).0
  {
    hide Parse;
    hide TrimV;
    hide ComparePre;
    SafeExactly(current, latest, limit);
  }

  // --- One image -----------------------------------------------------------------------------------

  /** What is found for an image: no manifest, an unreadable one, or the parsed one. */
  datatype Stored = Missing | Broken | Found(manifest: Manifest)

  datatype Image = Image(name: string, stored: Stored)

  /** The answer about the latest release: its tag, or a failure. */
  datatype Answer = Tag(name: string) | NoAnswer

  datatype Stage = ManifestCheck | ManifestParse | GithubApi | VersionComparison | ManifestWrite

  datatype Error = Error(image: string, stage: Stage)

  datatype Action = Action(image: string, old_version: string, new_version: string, tier: nat,
                           requires_approval: bool, auto_bumped: bool, reason: Reason)

  datatype Settings = Settings(dryRun: bool, allowMajor: bool) {
    function Limit(): nat { if allowMajor then 255 else 1 }
  }

  /** How an image fares in a run. */
  datatype Outcome =
    | Failed(stage: Stage)
    | Skipped
    | Current
    | Unsafe(action: Action)
    | Approval(action: Action)
    | WriteFailed
    | Bumped(action: Action, updated: Manifest)

  function Updated(m: Manifest, latest: string): Manifest {
    var url := if m.source.url != "" then ReplaceAll(m.source.url, m.Version(), latest) else m.source.url;
    var source := if m.metadata.source != "" then ReplaceAll(m.metadata.source, m.Version(), latest) else m.metadata.source;
    m.(metadata := m.metadata.(version := latest, source := source), source := m.source.(url := url))
  }

  /** The world outside: the releases, and which writes succeed, for the image with a number. */
  datatype World = World(latest: (nat, string) -> Answer, writable: nat -> bool)

  function OutcomeOf(images: seq<Image>, i: nat, w: World, s: Settings): Outcome
    requires i < |images|
  {
    match images[i].stored
    case Missing => Failed(ManifestCheck)
    case Broken => Failed(ManifestParse)
    case Found(m) =>
      if m.metadata.deprecated || GithubRepo(m) == None then Skipped else
      match w.latest(i, GithubRepo(m).value)
      case NoAnswer => Failed(GithubApi)
      case Tag(tag) =>
        var latest := TrimV(tag);
        if m.Version() == latest then Current else
        var (safe, reason) := IsSafeBump(m.Version(), latest, s.Limit());
        var approval := TierNum(m) == 1;
        var action := Action(images[i].name, m.Version(), latest, TierNum(m), approval, false, reason);
        if !safe then Unsafe(action)
        else if approval then Approval(action)
        else if !s.dryRun && !w.writable(i) then WriteFailed
        else Bumped(action.(auto_bumped := !s.dryRun), if s.dryRun then m else Updated(m, latest))
  }

  // --- The report ----------------------------------------------------------------------------------

  datatype Report = Report(checked: nat, upToDate: nat, outdated: nat, bumped: nat, approvals: nat, failed: nat,
                           actions: seq<Action>, errors: seq<Error>)

  const EmptyReport := Report(0, 0, 0, 0, 0, 0, [], [])

  function Counted(r: Report, name: string, o: Outcome): Report {
    var r := r.(checked := r.checked + 1);
    match o
    case Failed(stage) => r.(failed := r.failed + 1, errors := r.errors + [Error(name, stage)])
    case Skipped => r
    case Current => r.(upToDate := r.upToDate + 1)
    case Unsafe(a) =>
      r.(outdated := r.outdated + 1, errors := r.errors + [Error(name, VersionComparison)], actions := r.actions + [a])
    case Approval(a) => r.(outdated := r.outdated + 1, approvals := r.approvals + 1, actions := r.actions + [a])
    case WriteFailed =>
      r.(outdated := r.outdated + 1, failed := r.failed + 1, errors := r.errors + [Error(name, ManifestWrite)])
    case Bumped(a, _) => r.(outdated := r.outdated + 1, bumped := r.bumped + 1, actions := r.actions + [a])
  }

  /** The report after the first n images. */
  function ReportOf(images: seq<Image>, w: World, s: Settings, n: nat): Report
    requires n <= |images|
  {
    if n == 0 then EmptyReport else
    Counted(ReportOf(images, w, s, n - 1), images[n - 1].name, OutcomeOf(images, n - 1, w, s))
  }

  /** What is on disk afterwards: the bumped images have their new manifest. */
  function AfterRun(images: seq<Image>, w: World, s: Settings): (r: seq<Image>)
    ensures |r| == |images|
  {
    seq(|images|, i requires 0 <= i < |images| => Stays(images, i, w, s))
  }

  function Stays(images: seq<Image>, i: nat, w: World, s: Settings): Image
    requires i < |images|
  {
    match OutcomeOf(images, i, w, s)
    case Bumped(_, updated) => images[i].(stored := Found(updated))
    case _ => images[i]
  }

  // --- The loop ------------------------------------------------------------------------------------

  method RunAutoVersion(images: seq<Image>, w: World, s: Settings) returns (report: Report, disk: seq<Image>)
    ensures report == ReportOf(images, w, s, |images|)
    ensures disk == AfterRun(images, w, s)
  {
    hide IsSafeBump;
    hide GithubRepo;
    hide TierNum;
    hide Updated;
    hide TrimV;
    hide ReportOf;
    NoReport(images, w, s);
    report := EmptyReport;
    disk := images;
    for i := 0 to |images|
      invariant report == ReportOf(images, w, s, i)
      invariant |disk| == |images|
      invariant forall j | 0 <= j < i :: disk[j] == Stays(images, j, w, s)
      invariant forall j | i <= j < |images| :: disk[j] == images[j]
    {
      NextReport(images, w, s, i);
      report := report.(checked := report.checked + 1);
      var img := images[i];
      if img.stored == Broken {
        report := report.(errors := report.errors + [Error(img.name, ManifestParse)], failed := report.failed + 1);
        continue;
      }
      if img.stored == Missing {
        report := report.(errors := report.errors + [Error(img.name, ManifestCheck)], failed := report.failed + 1);
        continue;
      }
      var manifest := img.stored.manifest;
      if manifest.metadata.deprecated || GithubRepo(manifest) == None {
        continue;
      }
      var currentVersion, tier := manifest.Version(), TierNum(manifest);
      var answer := w.latest(i, GithubRepo(manifest).value);
      if answer == NoAnswer {
        report := report.(errors := report.errors + [Error(img.name, GithubApi)], failed := report.failed + 1);
        continue;
      }
      var latestVersion := TrimV(answer.name);
      var (safe, reason) := IsSafeBump(currentVersion, latestVersion, s.Limit());
      if currentVersion == latestVersion {
        report := report.(upToDate := report.upToDate + 1);
        continue;
      }
      report := report.(outdated := report.outdated + 1);
      var action := Action(img.name, currentVersion, latestVersion, tier, tier == 1, false, reason);
      if !safe {
        report := report.(errors := report.errors + [Error(img.name, VersionComparison)],
                          actions := report.actions + [action]);
        continue;
      }
      if tier == 1 {
        report := report.(approvals := report.approvals + 1, actions := report.actions + [action]);
        continue;
      }
      if !s.dryRun {
        if !w.writable(i) {
          report := report.(errors := report.errors + [Error(img.name, ManifestWrite)], failed := report.failed + 1);
          continue;
        }
        disk := disk[i := img.(stored := Found(Updated(manifest, latestVersion)))];
      }
      report := report.(actions := report.actions + [action.(auto_bumped := !s.dryRun)], bumped := report.bumped + 1);
    }
    hide Stays;
    assert disk == AfterRun(images, w, s);
  }

  lemma NoReport(images: seq<Image>, w: World, s: Settings)
    ensures ReportOf(images, w, s, 0) == EmptyReport
  {
  }

  lemma NextReport(images: seq<Image>, w: World, s: Settings, i: nat)
    requires i < |images|
    ensures ReportOf(images, w, s, i + 1) == Counted(ReportOf(images, w, s, i), images[i].name, OutcomeOf(images, i, w, s))
  {
    hide OutcomeOf;
    hide Counted;
  }

  // --- The books balance ---------------------------------------------------------------------------

  function CountStage(es: seq<Error>, stage: Stage): nat {
    if es == [] then 0 else (if es[|es| - 1].stage == stage then 1 else 0) + CountStage(es[..|es| - 1], stage)
  }

  function CountBumped(actions: seq<Action>): nat {
    if actions == [] then 0 else
    (if actions[|actions| - 1].auto_bumped then 1 else 0) + CountBumped(actions[..|actions| - 1])
  }

  predicate Balanced(r: Report, s: Settings) {
    var unsafeOnes, unwritten := CountStage(r.errors, VersionComparison), CountStage(r.errors, ManifestWrite);
    && r.outdated == r.bumped + r.approvals + unsafeOnes + unwritten
    && |r.errors| == r.failed + unsafeOnes
    && |r.actions| == r.outdated - unwritten
    && CountBumped(r.actions) == (if s.dryRun then 0 else r.bumped)
    && r.upToDate + r.outdated + r.failed <= r.checked + unwritten
  }

  lemma CountError(es: seq<Error>, e: Error, stage: Stage)
    ensures CountStage(es + [e], stage) == CountStage(es, stage) + if e.stage == stage then 1 else 0
  {
    assert (es + [e])[..|es|] == es;
  }

  lemma CountAction(actions: seq<Action>, a: Action)
    ensures CountBumped(actions + [a]) == CountBumped(actions) + if a.auto_bumped then 1 else 0
  {
    assert (actions + [a])[..|actions|] == actions;
  }

  lemma StepBalances(r: Report, name: string, o: Outcome, s: Settings)
    requires Balanced(r, s)
    requires o.Failed? ==> o.stage != VersionComparison && o.stage != ManifestWrite
    requires o.Unsafe? || o.Approval? ==> !o.action.auto_bumped
    requires o.Bumped? ==> o.action.auto_bumped == !s.dryRun
    ensures Balanced(Counted(r, name, o), s) && Counted(r, name, o).checked == r.checked + 1
  {
    hide CountStage;
    hide CountBumped;
    match o
    case Failed(stage) => ErrorCounts(r, name, stage);
    case Skipped =>
    case Current =>
    case Unsafe(a) =>
      ErrorCounts(r, name, VersionComparison);
      CountAction(r.actions, a);
    case Approval(a) => CountAction(r.actions, a);
    case WriteFailed => ErrorCounts(r, name, ManifestWrite);
    case Bumped(a, _) => CountAction(r.actions, a);
  }

  lemma ErrorCounts(r: Report, name: string, stage: Stage)
    ensures CountStage(r.errors + [Error(name, stage)], VersionComparison) ==
            CountStage(r.errors, VersionComparison) + if stage == VersionComparison then 1 else 0
    ensures CountStage(r.errors + [Error(name, stage)], ManifestWrite) ==
            CountStage(r.errors, ManifestWrite) + if stage == ManifestWrite then 1 else 0
  {
    CountError(r.errors, Error(name, stage), VersionComparison);
    CountError(r.errors, Error(name, stage), ManifestWrite);
  }

  /**
   In every report the outdated images are the bumped ones, those that need approval, the unsafe
   ones and the unwritten ones; the errors are the failures and the unsafe bumps; every outdated
   image but an unwritten one has its action; and the actions marked as done are the bumps.
   */
  lemma {:induction false} BooksBalance(images: seq<Image>, w: World, s: Settings, n: nat)
    requires n <= |images|
    ensures Balanced(ReportOf(images, w, s, n), s) && ReportOf(images, w, s, n).checked == n
  {
    hide Balanced;
    hide Counted;
    hide OutcomeOf;
    if n == 0 {
      EmptyBalanced(s);
    } else {
      BooksBalance(images, w, s, n - 1);
      OutcomeShape(images, n - 1, w, s);
      StepBalances(ReportOf(images, w, s, n - 1), images[n - 1].name, OutcomeOf(images, n - 1, w, s), s);
    }
  }

  lemma EmptyBalanced(s: Settings)
    ensures Balanced(EmptyReport, s)
  {
  }

  lemma OutcomeShape(images: seq<Image>, i: nat, w: World, s: Settings)
    requires i < |images|
    ensures var o := OutcomeOf(images, i, w, s);
            && (o.Failed? ==> o.stage != VersionComparison && o.stage != ManifestWrite)
            && (o.Unsafe? || o.Approval? ==> !o.action.auto_bumped)
            && (o.Bumped? ==> o.action.auto_bumped == !s.dryRun)
  {
    hide IsSafeBump;
    hide GithubRepo;
    hide TierNum;
    hide Updated;
    hide TrimV;
  }

  /** What leads to a bump in a real run. */
  lemma BumpedWhen(images: seq<Image>, i: nat, w: World, s: Settings, m: Manifest, tag: string)
    requires i < |images| && images[i].stored == Found(m) && !m.metadata.deprecated
    requires GithubRepo(m).Some? && w.latest(i, GithubRepo(m).value) == Tag(tag)
    requires m.Version() != TrimV(tag) && IsSafeBump(m.Version(), TrimV(tag), s.Limit()).0
    requires TierNum(m) != 1 && !s.dryRun && w.writable(i)
    ensures OutcomeOf(images, i, w, s).Bumped? && OutcomeOf(images, i, w, s).updated == Updated(m, TrimV(tag))
  {
    hide IsSafeBump;
    hide GithubRepo;
    hide TierNum;
    hide Updated;
    hide TrimV;
  }

  // --- What is written ------------------------------------------------------------------------------

  /** A manifest that a run changed: never in a dry run, never of tier 1, never beyond the limit. */
  lemma WritesAreGuarded(images: seq<Image>, i: nat, w: World, s: Settings)
    requires i < |images| && AfterRun(images, w, s)[i] != images[i]
    ensures images[i].stored.Found? && AfterRun(images, w, s)[i].stored.Found?
    ensures var before, after := images[i].stored.manifest, AfterRun(images, w, s)[i].stored.manifest;
            && !s.dryRun && TierNum(before) != 1 && !before.metadata.deprecated && GithubRepo(before).Some?
            && after.Version() != before.Version()
            && (BothParse(before.Version(), after.Version()) ==>
                WithinLimit(before.Version(), after.Version(), if s.allowMajor then 255 else 1) &&
                Parse(TrimV(after.Version())).value.major <= Parse(TrimV(before.Version())).value.major)
  {
    hide GithubRepo;
    hide TierNum;
    hide TrimV;
    hide Parse;
    hide ReplaceAll;
    hide WithinLimit;
    var before := images[i].stored.manifest;
    var latest := TrimV(w.latest(i, GithubRepo(before).value).name);
    SafeExactly(before.Version(), latest, s.Limit());
    hide IsSafeBump;
    assert AfterRun(images, w, s)[i] == Stays(images, i, w, s);
    if BothParse(before.Version(), latest) && WithinLimit(before.Version(), latest, s.Limit()) {
      NoHigherMajor(before.Version(), latest, s.Limit());
    }
  }

  /** A text in which the old version is replaced; an empty one stays empty. */
  predicate Rewritten(before: string, after: string, old_version: string, new_version: string) {
    after == if before == "" then "" else ReplaceAll(before, old_version, new_version)
  }

  /**
   The manifest on disk after a real run that bumped the image: it has the new version, in both
   texts the old version is replaced everywhere, whatever the other one holds, and all the rest is
   as it was.
   */
  lemma WrittenManifest(images: seq<Image>, i: nat, w: World, s: Settings)
    requires i < |images| && !s.dryRun && OutcomeOf(images, i, w, s).Bumped?
    ensures images[i].stored.Found? && AfterRun(images, w, s)[i].stored.Found?
    ensures AfterRun(images, w, s)[i].name == images[i].name
    ensures var before, after := images[i].stored.manifest, AfterRun(images, w, s)[i].stored.manifest;
            var new_version := OutcomeOf(images, i, w, s).action.new_version;
            && GithubRepo(before).Some? && w.latest(i, GithubRepo(before).value).Tag?
            && after.Version() == new_version == TrimV(w.latest(i, GithubRepo(before).value).name) != before.Version()
            && Rewritten(before.source.url, after.source.url, before.Version(), new_version)
            && Rewritten(before.metadata.source, after.metadata.source, before.Version(), new_version)
            && after.Name() == before.Name() && after.metadata.description == before.metadata.description
            && after.metadata.vendor == before.metadata.vendor && after.metadata.license == before.metadata.license
            && after.metadata.tier == before.metadata.tier && after.metadata.deprecated == before.metadata.deprecated
            && after.build == before.build && after.source.sourceType == before.source.sourceType
            && after.entrypoint == before.entrypoint && after.expose == before.expose && after.labels == before.labels
  {
    hide IsSafeBump;
    hide GithubRepo;
    hide TierNum;
    hide TrimV;
    hide ReplaceAll;
    assert AfterRun(images, w, s)[i] == Stays(images, i, w, s);
  }

  /** An image that was not bumped, and every image in a dry run, is on disk as it was. */
  lemma OthersStay(images: seq<Image>, i: nat, w: World, s: Settings)
    requires i < |images| && (s.dryRun || !OutcomeOf(images, i, w, s).Bumped?)
    ensures AfterRun(images, w, s)[i] == images[i]
  {
    hide IsSafeBump;
    hide GithubRepo;
    hide TierNum;
    hide TrimV;
    hide Updated;
    assert AfterRun(images, w, s)[i] == Stays(images, i, w, s);
  }

  /** A version that does not begin before the end of a is replaced right behind a. */
  lemma {:induction false} ReplacedBehind(a: string, w: string, rest: string, put: string)
    requires w != "" && !Has(a + w[..|w| - 1], w)
    ensures ReplaceAll(a + (w + rest), w, put) == a + (put + ReplaceAll(rest, w, put))
  {
    hide Has;
    hide ReplaceAll;
    ReplaceHit(rest, w, put);
    if a == "" {
      assert a + (w + rest) == w + rest && a + (put + ReplaceAll(rest, w, put)) == put + ReplaceAll(rest, w, put);
    } else {
      NotEarlier(a, w, rest);
      ReplacedBehind(a[1..], w, rest, put);
      assert a + (w + rest) == [a[0]] + (a[1..] + (w + rest));
      ReplaceStep(a[0], a[1..] + (w + rest), w, put);
      var more := put + ReplaceAll(rest, w, put);
      assert [a[0]] + (a[1..] + more) == a + more;
    }
  }

  lemma NotEarlier(a: string, w: string, rest: string)
    requires w != "" && a != "" && !Has(a + w[..|w| - 1], w)
    ensures !(w <= a + (w + rest)) && !Has(a[1..] + w[..|w| - 1], w)
  {
    var s, short := a + (w + rest), a + w[..|w| - 1];
    assert short == s[..|short|];
    assert s[..|w|] == short[..|w|];
    assert short[1..] == a[1..] + w[..|w| - 1];
  }

  /** A URL that names its version twice names the new one twice. */
  lemma ReplacedTwice(a: string, b: string, c: string, old_version: string, new_version: string)
    requires old_version != "" && !Has(c, old_version)
    requires !Has(a + old_version[..|old_version| - 1], old_version) && !Has(b + old_version[..|old_version| - 1], old_version)
    ensures ReplaceAll(a + (old_version + (b + (old_version + c))), old_version, new_version) ==
            a + (new_version + (b + (new_version + c)))
  {
    hide Has;
    hide ReplaceAll;
    ReplacedBehind(a, old_version, b + (old_version + c), new_version);
    ReplacedBehind(b, old_version, c, new_version);
    NothingToReplace(c, old_version, new_version);
  }

  lemma NoHigherMajor(current: string, latest: string, limit: nat)
    requires BothParse(current, latest) && WithinLimit(current, latest, limit)
    ensures Parse(TrimV(latest)).value.major <= Parse(TrimV(current)).value.major
  {
    hide Parse;
    hide TrimV;
    var cv, lv := Parse(TrimV(current)).value, Parse(TrimV(latest)).value;
    if AtMost(lv, cv) {
      PrecedenceExtends(lv, cv);
    }
  }

  // --- The fixpoint ------------------------------------------------------------------------------------

  /** When the image is bumped, the repository that its new manifest names answers with the new version. */
  predicate StaysCurrent(images: seq<Image>, i: nat, w: World, s: Settings)
    requires i < |images|
  {
    match OutcomeOf(images, i, w, s)
    case Bumped(action, updated) => GithubRepo(updated).Some? && Answers(w, i, GithubRepo(updated).value, action.new_version)
    case _ => true
  }

  predicate Answers(w: World, i: nat, repo: string, version: string) {
    w.latest(i, repo).Tag? && TrimV(w.latest(i, repo).name) == version
  }

  /** An image that was not bumped fares as before; a bumped one is up to date if and only if it stays current. */
  lemma SecondOutcome(images: seq<Image>, i: nat, w: World, s: Settings)
    requires i < |images| && !s.dryRun
    ensures var o, o2 := OutcomeOf(images, i, w, s), OutcomeOf(AfterRun(images, w, s), i, w, s);
            if o.Bumped? then o2 == Current <==> StaysCurrent(images, i, w, s) else o2 == o && StaysCurrent(images, i, w, s)
  {
    hide IsSafeBump;
    hide GithubRepo;
    hide TierNum;
    hide TrimV;
    hide ReplaceAll;
    assert AfterRun(images, w, s)[i] == Stays(images, i, w, s);
  }

  /**
   After a real run with the same releases, a second run bumps nothing, counts the bumped images
   as up to date and repeats all the rest, if and only if every bumped image stays current; failed
   writes do not matter. The files then stay as they are.
   */
  lemma SecondRunSettles(images: seq<Image>, w: World, s: Settings)
    requires !s.dryRun
    ensures Settled(ReportOf(images, w, s, |images|), ReportOf(AfterRun(images, w, s), w, s, |images|)) <==>
            forall i | 0 <= i < |images| :: StaysCurrent(images, i, w, s)
    ensures (forall i | 0 <= i < |images| :: StaysCurrent(images, i, w, s)) ==>
            AfterRun(AfterRun(images, w, s), w, s) == AfterRun(images, w, s)
  {
    hide StaysCurrent;
    hide AfterRun;
    UpToDateBound(images, w, s, |images|);
    if forall i | 0 <= i < |images| :: StaysCurrent(images, i, w, s) {
      AllCurrentSettle(images, w, s, |images|);
      NothingWritten(images, w, s);
    }
  }

  /** The second run finds at most the bumped images up to date besides, and all of them only if they stay current. */
  lemma {:induction false} UpToDateBound(images: seq<Image>, w: World, s: Settings, n: nat)
    requires n <= |images| && !s.dryRun
    ensures var r, r2 := ReportOf(images, w, s, n), ReportOf(AfterRun(images, w, s), w, s, n);
            && r2.upToDate <= r.upToDate + r.bumped
            && (r2.upToDate == r.upToDate + r.bumped ==> forall i | 0 <= i < n :: StaysCurrent(images, i, w, s))
  {
    hide OutcomeOf;
    hide AfterRun;
    hide StaysCurrent;
    hide Counted;
    if n > 0 {
      UpToDateBound(images, w, s, n - 1);
      SecondOutcome(images, n - 1, w, s);
      var disk, o := AfterRun(images, w, s), OutcomeOf(images, n - 1, w, s);
      StepBound(ReportOf(images, w, s, n - 1), ReportOf(disk, w, s, n - 1), images[n - 1].name, disk[n - 1].name, o,
                OutcomeOf(disk, n - 1, w, s));
    }
  }

  lemma StepBound(r: Report, r2: Report, name: string, name2: string, o: Outcome, o2: Outcome)
    requires r2.upToDate <= r.upToDate + r.bumped && (o.Bumped? || o2 == o)
    ensures var c, c2 := Counted(r, name, o), Counted(r2, name2, o2);
            && c2.upToDate <= c.upToDate + c.bumped
            && (c2.upToDate == c.upToDate + c.bumped ==>
                r2.upToDate == r.upToDate + r.bumped && (o.Bumped? ==> o2 == Current))
  {
  }

  lemma {:induction false} AllCurrentSettle(images: seq<Image>, w: World, s: Settings, n: nat)
    requires n <= |images| && !s.dryRun
    requires forall i | 0 <= i < n :: StaysCurrent(images, i, w, s)
    ensures Settled(ReportOf(images, w, s, n), ReportOf(AfterRun(images, w, s), w, s, n))
  {
    hide OutcomeOf;
    hide AfterRun;
    hide StaysCurrent;
    hide Settled;
    hide Counted;
    if n == 0 {
      EmptySettled();
    } else {
      AllCurrentSettle(images, w, s, n - 1);
      SecondOutcome(images, n - 1, w, s);
      NamesStay(images, n - 1, w, s);
      StepSettled(ReportOf(images, w, s, n - 1), ReportOf(AfterRun(images, w, s), w, s, n - 1), images[n - 1].name,
                  OutcomeOf(images, n - 1, w, s));
    }
  }

  /** How the second report differs from the first. */
  predicate Settled(first: Report, second: Report) {
    && second.bumped == 0
    && second.upToDate == first.upToDate + first.bumped
    && second.outdated + first.bumped == first.outdated
    && second.failed == first.failed && second.errors == first.errors
    && second.approvals == first.approvals && second.checked == first.checked
  }

  lemma EmptySettled()
    ensures Settled(EmptyReport, EmptyReport)
  {
  }

  lemma StepSettled(first: Report, second: Report, name: string, o: Outcome)
    requires Settled(first, second)
    ensures Settled(Counted(first, name, o), Counted(second, name, if o.Bumped? then Current else o))
  {
  }

  lemma NamesStay(images: seq<Image>, i: nat, w: World, s: Settings)
    requires i < |images|
    ensures AfterRun(images, w, s)[i].name == images[i].name
  {
    hide OutcomeOf;
  }

  lemma NothingWritten(images: seq<Image>, w: World, s: Settings)
    requires !s.dryRun && forall i | 0 <= i < |images| :: StaysCurrent(images, i, w, s)
    ensures AfterRun(AfterRun(images, w, s), w, s) == AfterRun(images, w, s)
  {
    var disk := AfterRun(images, w, s);
    forall i | 0 <= i < |images| ensures Stays(disk, i, w, s) == disk[i] {
      SecondOutcome(images, i, w, s);
      hide OutcomeOf;
      hide StaysCurrent;
    }
    hide OutcomeOf;
    hide StaysCurrent;
    hide Stays;
  }

  // --- Who is written ------------------------------------------------------------------------------------

  /** Everything that a write asks for. */
  predicate Due(images: seq<Image>, i: nat, w: World, s: Settings)
    requires i < |images|
  {
    && images[i].stored.Found?
    && var m := images[i].stored.manifest;
       && !s.dryRun && w.writable(i) && !m.metadata.deprecated && TierNum(m) != 1
       && GithubRepo(m).Some? && w.latest(i, GithubRepo(m).value).Tag?
       && var latest := TrimV(w.latest(i, GithubRepo(m).value).name);
          m.Version() != latest && (BothParse(m.Version(), latest) ==> WithinLimit(m.Version(), latest, s.Limit()))
  }

  lemma DueExactly(images: seq<Image>, i: nat, w: World, s: Settings)
    requires i < |images|
    ensures Due(images, i, w, s) <==> !s.dryRun && OutcomeOf(images, i, w, s).Bumped?
  {
    if images[i].stored.Found? {
      var m := images[i].stored.manifest;
      if GithubRepo(m).Some? && w.latest(i, GithubRepo(m).value).Tag? {
        SafeExactly(m.Version(), TrimV(w.latest(i, GithubRepo(m).value).name), s.Limit());
        hide IsSafeBump;
        hide GithubRepo;
        hide TierNum;
        hide TrimV;
        hide Updated;
        hide BothParse;
        hide WithinLimit;
      }
    }
    hide IsSafeBump;
    hide GithubRepo;
    hide TierNum;
    hide TrimV;
    hide Updated;
    hide BothParse;
    hide WithinLimit;
  }

  /** A manifest is changed exactly when all of it is met. */
  lemma WrittenExactly(images: seq<Image>, i: nat, w: World, s: Settings)
    requires i < |images|
    ensures AfterRun(images, w, s)[i] != images[i] <==> Due(images, i, w, s)
  {
    hide OutcomeOf;
    hide Due;
    hide AfterRun;
    DueExactly(images, i, w, s);
    if !s.dryRun && OutcomeOf(images, i, w, s).Bumped? {
      WrittenManifest(images, i, w, s);
    } else {
      OthersStay(images, i, w, s);
    }
  }

  /** The digits of a tier. */
  function TierDigits(tier: string): string {
    if tier != "" && tier[0] == '+' then tier[1..] else tier
  }

  /** One, in however many digits. */
  predicate IsOne(d: string) {
    d != "" && d[|d| - 1] == '1' && forall i | 0 <= i < |d| - 1 :: d[i] == '0'
  }

  /** Approval is asked for exactly when the tier is one, with leading zeros and a plus sign or without. */
  lemma TierOne(m: Manifest)
    ensures TierNum(m) == 1 <==> IsOne(TierDigits(m.metadata.tier))
  {
    var d := TierDigits(m.metadata.tier);
    if Numeral(d) {
      ValueOne(d);
    }
  }

  lemma {:induction false} ValueOne(d: string)
    requires Numeral(d)
    ensures Extract.Value(d) == 0 <==> forall i | 0 <= i < |d| :: d[i] == '0'
    ensures Extract.Value(d) == 1 <==> IsOne(d)
  {
    if |d| > 1 {
      ValueOne(d[..|d| - 1]);
    }
  }

  /** Owner and repository are the first two parts behind the host. */
  lemma RepoRead(owner: string, repo: string, rest: string, secure: bool)
    requires Without(owner, '/') && Without(repo, '/') && (rest == "" || rest[0] == '/')
    ensures RepoOf((if secure then Secure else Plain) + (owner + ("/" + (repo + rest)))) == Some(owner + ("/" + repo))
  {
    var tail := owner + ("/" + (repo + rest));
    SplitPart(owner, repo + rest, '/');
    if rest == "" {
      assert repo + rest == repo;
      SplitWhole(repo, '/');
    } else {
      assert rest == "/" + rest[1..];
      SplitPart(repo, rest[1..], '/');
    }
    assert (Secure + tail)[|Secure|..] == tail && (Plain + tail)[|Plain|..] == tail;
    assert Secure[4] == 's' && Plain[4] == ':';
    if !secure {
      assert (Plain + tail)[4] == ':';
    }
  }

  // --- Quirks ---------------------------------------------------------------------------------------------

  /** A newer current version counts as safe: the older release is written over it. */
  lemma OlderIsWritten(images: seq<Image>, i: nat, w: World, s: Settings, tag: string)
    requires i < |images| && images[i].stored.Found? && !s.dryRun && w.writable(i)
    requires var m := images[i].stored.manifest;
             && !m.metadata.deprecated && GithubRepo(m).Some? && TierNum(m) != 1
             && w.latest(i, GithubRepo(m).value) == Tag(tag)
             && BothParse(m.Version(), TrimV(tag))
             && Compare(Parse(TrimV(TrimV(tag))).value, Parse(TrimV(m.Version())).value) < 0
    ensures AfterRun(images, w, s)[i].stored.Found?
    ensures AfterRun(images, w, s)[i].stored.manifest.Version() == TrimV(tag) != images[i].stored.manifest.Version()
  {
    hide GithubRepo;
    hide TierNum;
    hide TrimV;
    hide Parse;
    hide ReplaceAll;
    hide ComparePre;
    var m := images[i].stored.manifest;
    var cv, lv := Parse(TrimV(m.Version())).value, Parse(TrimV(TrimV(tag))).value;
    PrecedenceIsTotal(cv, lv);
    hide Compare;
    assert AfterRun(images, w, s)[i] == Stays(images, i, w, s);
  }
}
