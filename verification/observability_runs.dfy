/** Whole runs of wire_observability.py: what is added stays, and a second run adds nothing. */
module ObservabilityRuns {
  import opened Text
  import opened Lines
  import opened Wiring
  import opened Observability
  import opened ObservabilityTheorem

  const Metrics := "SHIM_" + "METRICS_ENABLED"
  const Alerting := "SHIM_" + "ALERTING_ENABLED"
  const Webhook := "SHIM_" + "ALERTING_WEBHOOK_URL"
  const Scheduler := "SHIM_" + "SCHEDULER_ENABLED"
  const Cron := "SHIM_" + "SCHEDULER_BACKUP_CRON"
  const Scrape := "prometheus.io" + "/scrape"
  const DbShim := "evergreenshim" + "/db-shim"
  const CacheShim := "evergreenshim" + "/cache-shim"
  const HealthShim := "evergreenshim" + "/health-shim"

  const ScrapeLine := "LABEL " + (Scrape + "=\"true\" \\")
  const PortLine := "      " + "prometheus.io/port=\"9101\" \\"
  const PathLine := "      " + "prometheus.io/path=\"/metrics\""
  const LabelLines := [ScrapeLine, PortLine, PathLine]

  // --- The steps ---------------------------------------------------------------------------

  function AddMetrics(lines: seq<string>): seq<string> {
    if Has(Joined(lines), Metrics) then lines else AddVar(lines, Metrics, "true")
  }

  function AddAlerting(lines: seq<string>): seq<string> {
    if Has(Joined(lines), Alerting) then lines else AddVar(AddVar(lines, Alerting, "false"), Webhook, "")
  }

  function AddScheduler(lines: seq<string>): seq<string> {
    if Has(Joined(lines), Scheduler) then lines else AddVar(AddVar(lines, Scheduler, "true"), Cron, "0 2 * * *")
  }

  /** Above the last STOPSIGNAL line, or at the end. */
  function LabelPlace(lines: seq<string>): (n: nat)
    ensures n <= |lines|
  {
    LastInstr(lines, "STOPSIGNAL", |lines|)
  }

  function AddLabels(lines: seq<string>): seq<string> {
    if Has(Joined(lines), Scrape) then lines
    else lines[..LabelPlace(lines)] + (LabelLines + lines[LabelPlace(lines)..])
  }

  method AddPrometheusLabels(content: seq<string>) returns (lines: seq<string>)
    ensures lines == AddLabels(content)
  {
    hide Has;
    hide Instr;
    lines := content;
    if Has(Joined(lines), Scrape) {
      return;
    }
    var insertAt := |lines|;
    var i := |lines|;
    while i > 0
      invariant 0 <= i <= |lines| && insertAt == |lines|
      invariant LastInstr(lines, "STOPSIGNAL", i) == LabelPlace(lines)
    {
      i := i - 1;
      if Instr(lines[i], "STOPSIGNAL") {
        insertAt := i;
        break;
      }
    }
    assert insertAt == LabelPlace(content);
    hide LabelPlace;
    hide LastInstr;
    ghost var above, below := content[..insertAt], content[insertAt..];
    assert lines == above + (LabelLines[..0] + below);
    for j := 0 to |LabelLines|
      invariant lines == above + (LabelLines[..j] + below)
    {
      InsertNext(above, LabelLines, below, j);
      lines := lines[..insertAt + j] + [LabelLines[j]] + lines[insertAt + j..];
    }
    assert LabelLines[..|LabelLines|] == LabelLines;
  }

  lemma InsertNext(a: seq<string>, new_lines: seq<string>, b: seq<string>, j: nat)
    requires j < |new_lines|
    ensures var ls := a + (new_lines[..j] + b);
            ls[..|a| + j] + [new_lines[j]] + ls[|a| + j..] == a + (new_lines[..j + 1] + b)
  {
  }

  datatype ShimType = Db | Cache | HealthType | NoShim

  /** `detect_shim_type` */
  function DetectShim(content: string): ShimType {
    var lower := Lower(content);
    if Has(lower, DbShim) then Db
    else if Has(lower, CacheShim) then Cache
    else if Has(lower, HealthShim) then HealthType
    else NoShim
  }

  /** Which of the two lists of database images the image is on. */
  datatype Lists = Lists(database: bool, scheduled: bool)

  function Run(lines: seq<string>, on: Lists): seq<string> {
    var kind := DetectShim(Joined(lines));
    var l1 := AddLabels(AddMetrics(lines));
    var l2 := if kind.Db? && on.database then AddAlerting(l1) else l1;
    if kind.Db? && on.scheduled then AddScheduler(l2) else l2
  }

  datatype Outcome = Skip | Update(lines: seq<string>)

  function Process(lines: seq<string>, on: Lists): Outcome {
    if !HasWiring(Joined(lines)) || Run(lines, on) == lines then Skip else Update(Run(lines, on))
  }

  datatype Task = MetricsTask | LabelsTask | AlertingTask | SchedulerTask

  /** `process_image` without the file: the steps that changed something, and the new content. */
  method ProcessImage(original: seq<string>, on: Lists) returns (outcome: Outcome, tasks: seq<Task>)
    ensures outcome == Process(original, on)
    ensures outcome.Update? ==> tasks != []
  {
    hide Has;
    hide AddVar;
    hide LabelPlace;
    tasks := [];
    if !HasWiring(Joined(original)) {
      return Skip, tasks;
    }
    hide HasWiring;
    var kind := DetectShim(Joined(original));
    var content := AddMetrics(original);
    if content != original {
      tasks := tasks + [MetricsTask];
    }
    var before := content;
    content := AddPrometheusLabels(content);
    if content != before {
      tasks := tasks + [LabelsTask];
    }
    if kind.Db? && on.database {
      before := content;
      content := AddAlerting(content);
      if content != before {
        tasks := tasks + [AlertingTask];
      }
    }
    if kind.Db? && on.scheduled {
      before := content;
      content := AddScheduler(content);
      if content != before {
        tasks := tasks + [SchedulerTask];
      }
    }
    if content == original {
      return Skip, tasks;
    }
    return Update(content), tasks;
  }

  // --- Markers stay ----------------------------------------------------------------------------

  /** A word that no change of a line end can break. */
  predicate Marker(w: string) {
    w != "" && Without(w, '\n') && !Space(w[|w| - 1]) && w[|w| - 1] != '\\'
  }

  lemma HasPrefix(a: string, s: string, w: string)
    requires a <= s && Has(a, w)
    ensures Has(s, w)
  {
    var i := HasWhere(a, w);
    assert s[i..][..|w|] == a[i..][..|w|];
    HasAt(s, w, i);
  }

  lemma JoiningKeeps(line: string, w: string)
    requires Marker(w) && Has(line, w)
    ensures Has(Joining(line), w)
  {
    hide Has;
    if EndsSlash(line) {
      var i := HasWhere(line, w);
      assert line[i + |w| - 1] == line[i..][|w| - 1] == w[|w| - 1];
      UnslashedKeeps(line, i + |w| - 1);
      var u := Unslashed(line);
      assert u[i..][..|w|] == line[i..][..|w|];
      HasAt(u, w, i);
    } else {
      HasPrefix(line, line + " \\", w);
    }
  }

  lemma SomeHere(lines: seq<string>, i: nat, w: string)
    requires i < |lines| && Has(lines[i], w)
    ensures SomeLine(lines, w)
  {
  }

  lemma GrownAt(ls: seq<string>, e: nat, m: string, v: string, i: nat)
    requires e < |ls| && i < |ls|
    ensures var g := Grown(ls, e, m, v);
            |g| == |ls| + 1 && g[if i <= e then i else i + 1] == if i == e then m else ls[i]
  {
  }

  lemma InsertedAt(ls: seq<string>, u: nat, x: string, i: nat)
    requires u < |ls| && i < |ls|
    ensures var g := ls[..u + 1] + ([x] + ls[u + 1..]);
            |g| == |ls| + 1 && g[if i <= u then i else i + 1] == ls[i]
  {
  }

  /** Where a line goes. */
  lemma AddVarAt(lines: seq<string>, name: string, value: string, i: nat) returns (j: nat)
    requires i < |lines|
    ensures var after := AddVar(lines, name, value);
            j < |after| && (after[j] == lines[i] || after[j] == Joining(lines[i]))
  {
    hide FindBlock;
    hide FirstUser;
    hide Joining;
    hide Setting;
    hide Indented;
    match FindBlock(lines)
    case Some(r) =>
      GrownAt(lines, r.last, Joining(lines[r.last]), Indented(Setting(name, value)), i);
      j := if i <= r.last then i else i + 1;
    case None =>
      var u := FirstUser(lines);
      if u < |lines| {
        InsertedAt(lines, u, "ENV " + Setting(name, value), i);
        j := if i <= u then i else i + 1;
      } else {
        j := i;
      }
  }

  lemma AddVarKeeps(lines: seq<string>, name: string, value: string, w: string)
    requires Marker(w) && SomeLine(lines, w)
    ensures SomeLine(AddVar(lines, name, value), w)
  {
    hide Has;
    hide AddVar;
    hide Joining;
    hide Marker;
    var i :| 0 <= i < |lines| && Has(lines[i], w);
    var j := AddVarAt(lines, name, value, i);
    JoiningKeeps(lines[i], w);
    SomeHere(AddVar(lines, name, value), j, w);
  }

  lemma AddVarHas(lines: seq<string>, name: string, value: string)
    ensures SomeLine(AddVar(lines, name, value), name)
  {
    hide Has;
    hide FindBlock;
    hide FirstUser;
    hide Joining;
    var rest := "=\"" + (value + "\"");
    HasInside("    ", name, rest);
    HasInside("ENV ", name, rest);
    var after := AddVar(lines, name, value);
    match FindBlock(lines)
    case Some(r) => SomeHere(after, r.last + 1, name);
    case None => SomeHere(after, if FirstUser(lines) < |lines| then FirstUser(lines) + 1 else |lines|, name);
  }

  lemma LabelsKeep(lines: seq<string>, w: string)
    requires SomeLine(lines, w)
    ensures SomeLine(AddLabels(lines), w)
  {
    hide Has;
    hide LabelPlace;
    var i :| 0 <= i < |lines| && Has(lines[i], w);
    if !Has(Joined(lines), Scrape) {
      SomeHere(AddLabels(lines), if i < LabelPlace(lines) then i else i + 3, w);
    }
  }

  lemma Markers()
    ensures Marker(Metrics) && Marker(Alerting) && Marker(Scheduler) && Marker(Scrape)
  {
  }

  lemma MetricsHas(lines: seq<string>)
    ensures SomeLine(AddMetrics(lines), Metrics)
  {
    hide Has;
    Markers();
    JoinedHas(lines, Metrics);
    AddVarHas(lines, Metrics, "true");
    hide AddVar;
    hide SomeLine;
  }

  lemma LabelsHave(lines: seq<string>)
    ensures SomeLine(AddLabels(lines), Scrape)
  {
    hide Has;
    Markers();
    JoinedHas(lines, Scrape);
    if !Has(Joined(lines), Scrape) {
      HasInside("LABEL ", Scrape, "=\"true\" \\");
      SomeHere(AddLabels(lines), LabelPlace(lines), Scrape);
    }
  }

  lemma AlertingHas(lines: seq<string>)
    ensures SomeLine(AddAlerting(lines), Alerting)
  {
    hide Has;
    Markers();
    JoinedHas(lines, Alerting);
    AddVarHas(lines, Alerting, "false");
    AddVarKeeps(AddVar(lines, Alerting, "false"), Webhook, "", Alerting);
    hide AddVar;
    hide SomeLine;
  }

  lemma SchedulerHas(lines: seq<string>)
    ensures SomeLine(AddScheduler(lines), Scheduler)
  {
    hide Has;
    Markers();
    JoinedHas(lines, Scheduler);
    AddVarHas(lines, Scheduler, "true");
    AddVarKeeps(AddVar(lines, Scheduler, "true"), Cron, "0 2 * * *", Scheduler);
    hide AddVar;
    hide SomeLine;
  }

  lemma StepsKeep(lines: seq<string>, w: string)
    requires Marker(w) && SomeLine(lines, w)
    ensures SomeLine(AddLabels(lines), w) && SomeLine(AddAlerting(lines), w) && SomeLine(AddScheduler(lines), w)
  {
    hide Has;
    hide Marker;
    hide SomeLine;
    LabelsKeep(lines, w);
    AddVarKeeps(lines, Alerting, "false", w);
    AddVarKeeps(AddVar(lines, Alerting, "false"), Webhook, "", w);
    AddVarKeeps(lines, Scheduler, "true", w);
    AddVarKeeps(AddVar(lines, Scheduler, "true"), Cron, "0 2 * * *", w);
    hide AddVar;
  }

  // --- The shim type does not turn into another -----------------------------------------------

  function LowerAll(lines: seq<string>): (r: seq<string>)
    ensures |r| == |lines| && forall i | 0 <= i < |lines| :: r[i] == Lower(lines[i])
  {
    seq(|lines|, i requires 0 <= i < |lines| => Lower(lines[i]))
  }

  lemma LowerAppend(a: string, b: string)
    ensures Lower(a + b) == Lower(a) + Lower(b)
  {
  }

  lemma {:induction false} LowerJoined(lines: seq<string>)
    ensures Lower(Joined(lines)) == Joined(LowerAll(lines))
  {
    hide Lower;
    if lines == [] {
      EmptyLower();
    } else if |lines| > 1 {
      LowerJoined(lines[1..]);
      assert LowerAll(lines)[1..] == LowerAll(lines[1..]);
      NewlineLower();
      LowerAppend("\n", Joined(lines[1..]));
      LowerAppend(lines[0], "\n" + Joined(lines[1..]));
    }
  }

  lemma EmptyLower()
    ensures Lower("") == ""
  {
  }

  lemma NewlineLower()
    ensures Lower("\n") == "\n"
  {
  }

  predicate Shimmed(lines: seq<string>) {
    exists i :: 0 <= i < |lines| && Has(Lower(lines[i]), DbShim)
  }

  lemma DbShimPlain()
    ensures DbShim != "" && Without(DbShim, '\n') && Without(DbShim, ' ') && |DbShim| > 1
    ensures DbShim[1] == 'v' && DbShim[13] == '/'
  {
  }

  lemma ShimmedIs(lines: seq<string>)
    ensures DetectShim(Joined(lines)).Db? <==> Shimmed(lines)
  {
    hide Has;
    hide Lower;
    DbShimPlain();
    LowerJoined(lines);
    JoinedHas(LowerAll(lines), DbShim);
    if i :| 0 <= i < |lines| && Has(Lower(lines[i]), DbShim) {
      SomeHere(LowerAll(lines), i, DbShim);
    }
  }

  lemma HasChars(s: string, w: string, k: nat)
    requires k < |w| && Without(s, w[k])
    ensures !Has(s, w)
  {
    if Has(s, w) {
      var i := HasWhere(s, w);
      SameChar(s, w, i, k);
    }
  }

  lemma SameChar(s: string, w: string, i: nat, k: nat)
    requires i <= |s| && w <= s[i..] && k < |w|
    ensures i + k < |s| && s[i + k] == w[k]
  {
    assert s[i..][k] == w[k];
  }

  lemma JoiningNotShim(line: string)
    requires !Has(Lower(line), DbShim)
    ensures !Has(Lower(Joining(line)), DbShim)
  {
    DbShimPlain();
    if EndsSlash(line) {
      UnslashedPrefix(line);
      if Has(Lower(Unslashed(line)), DbShim) {
        HasPrefix(Lower(Unslashed(line)), Lower(line), DbShim);
      }
    } else {
      LowerAppend(line, " \\");
      assert Lower(" \\") == " " + "\\";
      HasChars("\\", DbShim, 1);
      HasSplit(Lower(line), ' ', "\\", DbShim);
    }
  }

  lemma UnslashedPrefix(line: string)
    ensures Unslashed(line) <= line
  {
    RStripPrefix(line);
    DropSlashesPrefix(RStrip(line));
    RStripPrefix(DropSlashes(RStrip(line)));
  }

  lemma {:induction false} DropSlashesPrefix(s: string)
    ensures DropSlashes(s) <= s
  {
    if s != "" && s[|s| - 1] == '\\' {
      DropSlashesPrefix(s[..|s| - 1]);
    }
  }

  predicate Unslashing(s: string) {
    Without(s, '/')
  }

  lemma SettingNotShim(name: string, value: string)
    requires Unslashing(name) && Unslashing(value)
    ensures !Has(Lower(Indented(Setting(name, value))), DbShim) && !Has(Lower("ENV " + Setting(name, value)), DbShim)
  {
    DbShimPlain();
    var t := Setting(name, value);
    assert Without(t, '/');
    HasChars(Lower(Indented(t)), DbShim, 13);
    HasChars(Lower("ENV " + t), DbShim, 13);
  }

  lemma AddVarNotShim(lines: seq<string>, name: string, value: string)
    requires Unslashing(name) && Unslashing(value) && !Shimmed(lines)
    ensures !Shimmed(AddVar(lines, name, value))
  {
    hide Has;
    hide Lower;
    hide DbShim;
    SettingNotShim(name, value);
    var after := AddVar(lines, name, value);
    forall j | 0 <= j < |after| ensures !Has(Lower(after[j]), DbShim) {
      AddVarFrom(lines, name, value, j);
      forall i | 0 <= i < |lines| ensures !Has(Lower(lines[i]), DbShim) && !Has(Lower(Joining(lines[i])), DbShim) {
        JoiningNotShim(lines[i]);
      }
    }
  }

  lemma GrownFrom(ls: seq<string>, e: nat, m: string, v: string, j: nat)
    requires e < |ls| && j <= |ls|
    ensures var l := Grown(ls, e, m, v)[j];
            l == if j < e then ls[j] else if j == e then m else if j == e + 1 then v else ls[j - 1]
  {
  }

  lemma InsertedFrom(ls: seq<string>, u: nat, x: string, j: nat)
    requires u < |ls| && j <= |ls|
    ensures var l := (ls[..u + 1] + ([x] + ls[u + 1..]))[j];
            l == if j <= u then ls[j] else if j == u + 1 then x else ls[j - 1]
  {
  }

  /** Where the lines come from. */
  lemma AddVarFrom(lines: seq<string>, name: string, value: string, j: nat)
    requires j < |AddVar(lines, name, value)|
    ensures var l := AddVar(lines, name, value)[j];
            || l == Indented(Setting(name, value)) || l == "ENV " + Setting(name, value)
            || exists i :: 0 <= i < |lines| && (l == lines[i] || l == Joining(lines[i]))
  {
    hide FindBlock;
    hide FirstUser;
    hide Joining;
    hide Setting;
    hide Indented;
    match FindBlock(lines)
    case Some(r) =>
      GrownFrom(lines, r.last, Joining(lines[r.last]), Indented(Setting(name, value)), j);
    case None =>
      var u := FirstUser(lines);
      if u < |lines| {
        InsertedFrom(lines, u, "ENV " + Setting(name, value), j);
      } else if j < |lines| {
        assert AddVar(lines, name, value)[j] == lines[j];
      }
  }

  lemma LabelsNotShim(lines: seq<string>)
    requires !Shimmed(lines)
    ensures !Shimmed(AddLabels(lines))
  {
    LabelLinesNotShim();
    hide Has;
    hide Lower;
    hide LabelPlace;
    var after := AddLabels(lines);
    var p := LabelPlace(lines);
    forall j | 0 <= j < |after| ensures !Has(Lower(after[j]), DbShim) {
      if Has(Joined(lines), Scrape) {
        assert after[j] == lines[j];
      } else {
        assert after[j] == if j < p then lines[j] else if j < p + 3 then LabelLines[j - p] else lines[j - 3];
      }
    }
  }

  lemma PlainNotShim(line: string)
    requires Without(line, 'v') && Without(line, 'V')
    ensures !Has(Lower(line), DbShim)
  {
    DbShimPlain();
    hide Has;
    assert Without(Lower(line), 'v');
    HasChars(Lower(line), DbShim, 1);
  }

  lemma LabelsPlain()
    ensures Without(ScrapeLine, 'v') && Without(ScrapeLine, 'V') && Without(PortLine, 'v') && Without(PortLine, 'V')
    ensures Without(PathLine, 'v') && Without(PathLine, 'V')
  {
    assert Without(Scrape, 'v') && Without(Scrape, 'V');
  }

  lemma LabelLinesNotShim()
    ensures |LabelLines| == 3 && forall j | 0 <= j < 3 :: !Has(Lower(LabelLines[j]), DbShim)
  {
    LabelsPlain();
    hide Has;
    hide Lower;
    hide ScrapeLine;
    hide PortLine;
    hide PathLine;
    hide Without;
    PlainNotShim(ScrapeLine);
    PlainNotShim(PortLine);
    PlainNotShim(PathLine);
  }

  lemma NamesUnslashing()
    ensures Unslashing(Metrics) && Unslashing(Alerting) && Unslashing(Webhook) && Unslashing(Scheduler) && Unslashing(Cron)
    ensures Unslashing("true") && Unslashing("false") && Unslashing("") && Unslashing("0 2 * * *")
  {
  }

  lemma StepsNotShim(lines: seq<string>)
    requires !Shimmed(lines)
    ensures !Shimmed(AddMetrics(lines)) && !Shimmed(AddLabels(lines))
    ensures !Shimmed(AddAlerting(lines)) && !Shimmed(AddScheduler(lines))
  {
    NamesUnslashing();
    hide Unslashing;
    hide Shimmed;
    hide AddVar;
    LabelsNotShim(lines);
    AddVarNotShim(lines, Metrics, "true");
    AddVarNotShim(lines, Alerting, "false");
    AddVarNotShim(lines, Scheduler, "true");
    if !Shimmed(AddVar(lines, Alerting, "false")) {
      AddVarNotShim(AddVar(lines, Alerting, "false"), Webhook, "");
    }
    if !Shimmed(AddVar(lines, Scheduler, "true")) {
      AddVarNotShim(AddVar(lines, Scheduler, "true"), Cron, "0 2 * * *");
    }
  }

  // --- The second run -----------------------------------------------------------------------------

  /** A marker that is there keeps its step from doing anything. */
  lemma StepsIdle(lines: seq<string>)
    ensures SomeLine(lines, Metrics) ==> AddMetrics(lines) == lines
    ensures SomeLine(lines, Scrape) ==> AddLabels(lines) == lines
    ensures SomeLine(lines, Alerting) ==> AddAlerting(lines) == lines
    ensures SomeLine(lines, Scheduler) ==> AddScheduler(lines) == lines
  {
    hide Has;
    Markers();
    JoinedHas(lines, Metrics);
    JoinedHas(lines, Scrape);
    JoinedHas(lines, Alerting);
    JoinedHas(lines, Scheduler);
    hide SomeLine;
    hide AddVar;
  }

  /** What a run leaves behind. */
  lemma RunLeaves(lines: seq<string>, on: Lists)
    ensures var after := Run(lines, on);
            && SomeLine(after, Metrics) && SomeLine(after, Scrape)
            && (DetectShim(Joined(lines)).Db? && on.database ==> SomeLine(after, Alerting))
            && (DetectShim(Joined(lines)).Db? && on.scheduled ==> SomeLine(after, Scheduler))
            && (DetectShim(Joined(after)).Db? ==> DetectShim(Joined(lines)).Db?)
  {
    Markers();
    hide Marker;
    hide SomeLine;
    hide Shimmed;
    hide DetectShim;
    hide AddMetrics;
    hide AddLabels;
    hide AddAlerting;
    hide AddScheduler;
    var kind := DetectShim(Joined(lines));
    var l0 := AddMetrics(lines);
    var l1 := AddLabels(l0);
    var l2 := if kind.Db? && on.database then AddAlerting(l1) else l1;
    MetricsHas(lines);
    StepsKeep(l0, Metrics);
    LabelsHave(l0);
    StepsKeep(l1, Metrics);
    StepsKeep(l1, Scrape);
    AlertingHas(l1);
    StepsKeep(l2, Metrics);
    StepsKeep(l2, Scrape);
    SchedulerHas(l2);
    if kind.Db? && on.database {
      StepsKeep(l2, Alerting);
    }
    ShimmedIs(lines);
    ShimmedIs(Run(lines, on));
    if !Shimmed(lines) {
      StepsNotShim(lines);
      StepsNotShim(l0);
      StepsNotShim(l1);
      StepsNotShim(l2);
    }
  }

  /** A file that was updated is up to date: a second run changes nothing. */
  lemma SecondRunSkips(lines: seq<string>, on: Lists)
    requires Process(lines, on).Update?
    ensures Process(Process(lines, on).lines, on) == Skip
  {
    hide SomeLine;
    hide AddMetrics;
    hide AddLabels;
    hide AddAlerting;
    hide AddScheduler;
    hide HasWiring;
    RunLeaves(lines, on);
    var after := Run(lines, on);
    hide DetectShim;
    StepsIdle(after);
  }

  // --- The values ------------------------------------------------------------------------------

  /** `name="value"` as it is printed. */
  function Printed(name: string, value: string): string {
    name + "=\"" + value + "\""
  }

  lemma PrintedIs(name: string, value: string)
    ensures Setting(name, value) == Printed(name, value)
  {
  }

  lemma PrintedMarks(name: string, value: string)
    requires Without(name, '\n') && Without(value, '\n')
    ensures Marker(Printed(name, value))
  {
  }

  lemma AddVarSets(lines: seq<string>, name: string, value: string)
    ensures SomeLine(AddVar(lines, name, value), Printed(name, value))
  {
    hide Has;
    hide FindBlock;
    hide FirstUser;
    hide Joining;
    hide Setting;
    PrintedIs(name, value);
    var w := Setting(name, value);
    HasInside("    ", w, "");
    HasInside("ENV ", w, "");
    assert w + "" == w;
    var after := AddVar(lines, name, value);
    match FindBlock(lines)
    case Some(r) => SomeHere(after, r.last + 1, w);
    case None => SomeHere(after, if FirstUser(lines) < |lines| then FirstUser(lines) + 1 else |lines|, w);
  }

  lemma PlainNames()
    ensures Without(Metrics, '\n') && Without(Alerting, '\n') && Without(Webhook, '\n')
    ensures Without(Scheduler, '\n') && Without(Cron, '\n')
  {
  }

  lemma PlainValues()
    ensures Without("true", '\n') && Without("false", '\n') && Without("", '\n') && Without("0 2 * * *", '\n')
  {
  }

  lemma AlertingSets(lines: seq<string>)
    ensures !Has(Joined(lines), Alerting) ==>
              SomeLine(AddAlerting(lines), Printed(Alerting, "false")) && SomeLine(AddAlerting(lines), Printed(Webhook, ""))
  {
    PlainNames();
    PlainValues();
    PrintedMarks(Alerting, "false");
    hide Without;
    hide Marker;
    hide Printed;
    hide AddVar;
    hide SomeLine;
    hide Has;
    var once := AddVar(lines, Alerting, "false");
    AddVarSets(lines, Alerting, "false");
    AddVarKeeps(once, Webhook, "", Printed(Alerting, "false"));
    AddVarSets(once, Webhook, "");
  }

  lemma SchedulerSets(lines: seq<string>)
    ensures !Has(Joined(lines), Scheduler) ==>
              SomeLine(AddScheduler(lines), Printed(Scheduler, "true")) &&
              SomeLine(AddScheduler(lines), Printed(Cron, "0 2 * * *"))
  {
    PlainNames();
    PlainValues();
    PrintedMarks(Scheduler, "true");
    hide Without;
    hide Marker;
    hide Printed;
    hide AddVar;
    hide SomeLine;
    hide Has;
    var once := AddVar(lines, Scheduler, "true");
    AddVarSets(lines, Scheduler, "true");
    AddVarKeeps(once, Cron, "0 2 * * *", Printed(Scheduler, "true"));
    AddVarSets(once, Cron, "0 2 * * *");
  }

  /**
   The values that a run puts in and leaves: metrics on in every image, alerting off and without a
   webhook in a database image on the list, and the nightly schedule in one on the other list;
   each when its marker was not there before the step.
   */
  lemma RunSets(lines: seq<string>, on: Lists)
    ensures var kind, after := DetectShim(Joined(lines)), Run(lines, on);
            var labelled := AddLabels(AddMetrics(lines));
            var alerted := if kind.Db? && on.database then AddAlerting(labelled) else labelled;
            && (!Has(Joined(lines), Metrics) ==> SomeLine(after, Printed(Metrics, "true")))
            && (kind.Db? && on.database && !Has(Joined(labelled), Alerting) ==>
                SomeLine(after, Printed(Alerting, "false")) && SomeLine(after, Printed(Webhook, "")))
            && (kind.Db? && on.scheduled && !Has(Joined(alerted), Scheduler) ==>
                SomeLine(after, Printed(Scheduler, "true")) && SomeLine(after, Printed(Cron, "0 2 * * *")))
  {
    PlainNames();
    PlainValues();
    PrintedMarks(Metrics, "true");
    PrintedMarks(Alerting, "false");
    PrintedMarks(Webhook, "");
    hide Without;
    hide Marker;
    hide Printed;
    hide SomeLine;
    hide Has;
    hide DetectShim;
    hide AddLabels;
    hide AddAlerting;
    hide AddScheduler;
    AddVarSets(lines, Metrics, "true");
    hide AddVar;
    var counted := AddMetrics(lines);
    var labelled := AddLabels(counted);
    var alerted := if DetectShim(Joined(lines)).Db? && on.database then AddAlerting(labelled) else labelled;
    AlertingSets(labelled);
    SchedulerSets(alerted);
    Stays(counted, labelled, alerted, Printed(Metrics, "true"));
    Stays(counted, labelled, alerted, Printed(Alerting, "false"));
    Stays(counted, labelled, alerted, Printed(Webhook, ""));
  }

  lemma Stays(counted: seq<string>, labelled: seq<string>, alerted: seq<string>, w: string)
    requires Marker(w) && labelled == AddLabels(counted) && (alerted == labelled || alerted == AddAlerting(labelled))
    ensures SomeLine(counted, w) ==> SomeLine(labelled, w)
    ensures SomeLine(labelled, w) ==> SomeLine(alerted, w)
    ensures SomeLine(alerted, w) ==> SomeLine(AddScheduler(alerted), w)
  {
    hide Marker;
    hide SomeLine;
    hide AddLabels;
    hide AddAlerting;
    hide AddScheduler;
    if SomeLine(counted, w) {
      StepsKeep(counted, w);
    }
    if SomeLine(labelled, w) {
      StepsKeep(labelled, w);
    }
    if SomeLine(alerted, w) {
      StepsKeep(alerted, w);
    }
  }
}
