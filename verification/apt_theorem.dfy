/** What the lines of a converted block install and run. */
module AptTheorem {
  import opened Text
  import opened Lines
  import opened AptToApk

  // --- The install line ----------------------------------------------------------------------

  const Install := "RUN apk add --no-cache "

  /** The words of a line behind the install command, up to the line end. */
  function InstallWords(line: string): (r: seq<string>)
    requires Install <= line && |line| > |Install| && line[|line| - 1] == '\n'
    ensures r != []
  {
    Split(line[|Install|..|line| - 1], ' ')
  }

  /** Every apk name of the table is one word. */
  predicate OneWordTable(table: map<string, string>) {
    forall p | p in table :: Without(table[p], ' ')
  }

  lemma {:induction false} SplitSpaced(names: seq<string>)
    requires names != [] && forall name | name in names :: Without(name, ' ')
    ensures Split(Spaced(names), ' ') == names
  {
    assert names[0] in names;
    if |names| == 1 {
      SplitWhole(names[0], ' ');
    } else {
      SplitSpaced(names[1..]);
      SplitPart(names[0], Spaced(names[1..]), ' ');
      assert names == [names[0]] + names[1..];
    }
  }

  lemma InstallIs(names: seq<string>)
    requires names != [] && forall name | name in names :: Without(name, ' ')
    ensures var line := RunLine("apk add --no-cache " + Spaced(names));
            Install <= line && |line| > |Install| && line[|line| - 1] == '\n' && InstallWords(line) == names
  {
    var words := Spaced(names);
    var line := RunLine("apk add --no-cache " + words);
    SplitSpaced(names);
    assert "RUN " + "apk add --no-cache " == Install;
    assert line == Install + (words + "\n");
    hide Install;
    assert line[|Install|..|line| - 1] == words;
  }

  lemma {:induction false} OnceInDistinct(names: seq<string>, x: string)
    requires Distinct(names) && x in names
    ensures multiset(names)[x] == 1
  {
    var rest := names[1..];
    assert names == [names[0]] + rest;
    assert Distinct(rest) && names[0] !in rest;
    if x != names[0] {
      OnceInDistinct(rest, x);
    }
  }

  /** Some package of the block has an apk name. */
  predicate SomeMapped(packages: seq<string>, table: map<string, string>) {
    exists p :: p in packages && p in table
  }

  /** The install words are the apk names of the packages, each once, and nothing else. */
  predicate Installs(words: seq<string>, packages: seq<string>, table: map<string, string>) {
    && (forall p | p in packages && p in table :: multiset(words)[table[p]] == 1)
    && (forall w | w in words :: exists p :: p in packages && p in table && table[p] == w)
  }

  /** The lines for the kept commands, one for one and in order. */
  predicate RunsCommands(lines: seq<string>, commands: seq<string>) {
    |lines| == |commands| && forall i | 0 <= i < |lines| :: lines[i] == "RUN " + (Adapted(commands[i]) + "\n")
  }

  lemma ConvertedNames(packages: seq<string>, table: map<string, string>)
    ensures var apk := Converted(packages, table, |packages|).apk;
            && (apk != [] <==> SomeMapped(packages, table)) && Installs(apk, packages, table)
            && (OneWordTable(table) ==> forall name | name in apk :: Without(name, ' '))
  {
    EveryPackageAccounted(packages, table, |packages|);
    hide Converted;
    var apk := Converted(packages, table, |packages|).apk;
    forall p | p in packages && p in table ensures table[p] in apk && multiset(apk)[table[p]] == 1 {
      var i :| 0 <= i < |packages| && packages[i] == p;
      OnceInDistinct(apk, table[p]);
    }
    hide Distinct;
    forall w | w in apk ensures exists p :: p in packages && p in table && table[p] == w {
      var i :| 0 <= i < |packages| && packages[i] in table && table[packages[i]] == w;
      assert packages[i] in packages;
    }
    if apk != [] {
      assert apk[0] in apk;
    }
  }

  /**
   The lines of a conversion that was not skipped: when a package has an apk name, the first one
   installs exactly the apk names, each once; the others are the kept commands, one for one and in
   order; and without such a package there is no install line.
   */
  lemma ConvertedLines(lines: seq<string>, read: string -> Reading, table: map<string, string>)
    requires Convert(lines, read, table).Replaced? && OneWordTable(table)
    ensures var r := Convert(lines, read, table);
            r.block.start <= r.block.end <= |lines| &&
            var text := Concat(lines[r.block.start..r.block.end]);
            var packages, commands := read(text).packages, CommandsOf(Parts(text), |Parts(text)|);
            if SomeMapped(packages, table) then
              && r.lines != [] && Install <= r.lines[0] && |r.lines[0]| > |Install| && r.lines[0][|r.lines[0]| - 1] == '\n'
              && Installs(InstallWords(r.lines[0]), packages, table) && RunsCommands(r.lines[1..], commands)
            else RunsCommands(r.lines, commands)
  {
    hide Concat;
    hide Parts;
    hide CommandsOf;
    hide Converted;
    hide Convert;
    hide InstallWords;
    hide Install;
    hide Spaced;
    hide RunLine;
    hide OneWordTable;
    hide SomeMapped;
    hide Installs;
    ReplacedIs(lines, read, table);
    var r := Convert(lines, read, table);
    var text := Concat(lines[r.block.start..r.block.end]);
    var packages, commands := read(text).packages, CommandsOf(Parts(text), |Parts(text)|);
    ConvertedNames(packages, table);
    RunsAll(commands);
    var apk := Converted(packages, table, |packages|).apk;
    if apk != [] {
      InstallIs(apk);
      assert r.lines[1..] == RunLines(commands);
    } else {
      assert r.lines == RunLines(commands);
    }
  }

  lemma RunsAll(commands: seq<string>)
    ensures RunsCommands(RunLines(commands), commands)
  {
    hide Adapted;
  }

  /** The packages reported unknown have no apk name; every other package without one is an apk name that is installed. */
  lemma ReportedUnknown(lines: seq<string>, read: string -> Reading, table: map<string, string>)
    requires Convert(lines, read, table).Replaced?
    ensures var r := Convert(lines, read, table);
            r.block.start <= r.block.end <= |lines| &&
            var packages := read(Concat(lines[r.block.start..r.block.end])).packages;
            && (forall x | x in r.unknown :: x in packages && x !in table)
            && (forall p | p in packages && p !in table && p !in r.unknown ::
                 exists q :: q in packages && q in table && table[q] == p)
  {
    hide Concat;
    hide Parts;
    hide CommandsOf;
    hide NewLines;
    ReplacedIs(lines, read, table);
    UnknownIs(lines, read, table);
    var r := Convert(lines, read, table);
    hide Convert;
    var packages := read(Concat(lines[r.block.start..r.block.end])).packages;
    EveryPackageAccounted(packages, table, |packages|);
    ConvertedNames(packages, table);
    hide Converted;
    forall p | p in packages && p !in table && p !in r.unknown
      ensures exists q :: q in packages && q in table && table[q] == p {
      var i :| 0 <= i < |packages| && packages[i] == p;
    }
  }

  lemma UnknownIs(lines: seq<string>, read: string -> Reading, table: map<string, string>)
    requires Convert(lines, read, table).Replaced?
    ensures var r := Convert(lines, read, table);
            r.block.start <= r.block.end <= |lines| &&
            var packages := read(Concat(lines[r.block.start..r.block.end])).packages;
            r.unknown == Converted(packages, table, |packages|).unknown
  {
    hide LastFrom;
    hide AptBlocks;
    hide NewLines;
    hide Concat;
    hide Parts;
    hide CommandsOf;
    hide Converted;
    BlocksInside(lines);
  }

  // --- The kept commands -----------------------------------------------------------------------

  /** Squeezing the blanks leaves everything else. */
  lemma {:induction false} InkedSqueezed(s: string)
    ensures Inked(Squeezed(s)) == Inked(s)
    decreases |s|
  {
    if s != "" {
      if Space(s[0]) {
        SpanPositive(s);
        InkedSqueezed(Unspaced(s));
        InkedUnspaced(s);
        InkedAppend(" ", Squeezed(Unspaced(s)));
        InkedBlank(" ");
      } else {
        InkedSqueezed(s[1..]);
        assert ([s[0]] + Squeezed(s[1..]))[1..] == Squeezed(s[1..]);
      }
    }
  }

  /** What is left of a part: without blanks and backslashes around it, and without its RUN. */
  function Trimmed(piece: string): string {
    Strip(StripChar(Strip(piece), '\\'))
  }

  function Told(part: string): string {
    if "RUN " <= part then part[4..] else part
  }

  /** A part that has to do with apt. */
  predicate OfApt(part: string) {
    Has(part, "apt-get") || Has(part, "/var/lib/apt") || Has(part, "/var/cache/apt")
  }

  /**
   A part is kept exactly when it has nothing to do with apt and says something; what is kept says
   the same, blanks apart.
   */
  lemma CommandExactly(piece: string)
    ensures |Command(piece)| <= 1
    ensures Command(piece) != [] <==> !OfApt(Trimmed(piece)) && Inked(Told(Trimmed(piece))) != ""
    ensures Command(piece) != [] ==> Inked(Command(piece)[0]) == Inked(Told(Trimmed(piece)))
  {
    var part := Trimmed(piece);
    AptGetIs();
    hide Has;
    hide StripChar;
    var told := if "RUN " <= part then Strip(part[4..]) else part;
    InkedStrip(part[if "RUN " <= part then 4 else 0..]);
    assert part[0..] == part;
    InkedSqueezed(told);
    InkedStrip(Squeezed(told));
    InkedSome(Strip(Squeezed(told)));
    StripNothing(Squeezed(told));
    hide Squeezed;
    hide Strip;
    hide Inked;
  }

  lemma AptGetIs()
    ensures AptGet == "apt-get"
  {
  }

  lemma StripNothing(s: string)
    ensures Blank(Strip(s)) ==> Strip(s) == ""
  {
    StripEnds(s);
  }

  /** The kept commands are in the order of the parts, each at the place that the earlier ones leave it. */
  lemma {:induction false} CommandsInOrder(pieces: seq<string>, i: nat, n: nat)
    requires i < n <= |pieces|
    ensures var before, all := CommandsOf(pieces, i), CommandsOf(pieces, n);
            before <= all && (Command(pieces[i]) != [] ==> |before| < |all| && all[|before|] == Command(pieces[i])[0])
  {
    hide Command;
    if i < n - 1 {
      CommandsInOrder(pieces, i, n - 1);
    }
  }

  /** And there are no others. */
  lemma {:induction false} CommandsCounted(pieces: seq<string>, n: nat)
    requires n <= |pieces|
    ensures |CommandsOf(pieces, n)| == |set i | 0 <= i < n && Command(pieces[i]) != []|
  {
    hide Command;
    var kept := set i | 0 <= i < n && Command(pieces[i]) != [];
    if n > 0 {
      CommandsCounted(pieces, n - 1);
      CommandExactly(pieces[n - 1]);
      var before := set i | 0 <= i < n - 1 && Command(pieces[i]) != [];
      assert kept == if Command(pieces[n - 1]) != [] then before + {n - 1} else before;
    } else {
      assert kept == {};
    }
  }

  // --- The option of pip ---------------------------------------------------------------------------

  const Option := BreakWord + "s"

  lemma OptionShape()
    ensures Break == " " + Option && Option != "" && Option[0] == '-' && Without(Option, ' ')
  {
    assert Without(BreakWord, ' ');
  }

  /** Behind pip and blanks stands install, no option. */
  lemma PipFront(s: string, i: nat)
    requires i < PipInstall(s) && s[i] == ' '
    ensures i + 1 < PipInstall(s) && s[i + 1] != '-'
  {
    var k := if |s| > 3 && s[3] == '3' then 4 else 3;
    var gap := Span(s[k..]);
    var rest := s[k + gap..];
    assert forall j | 0 <= j < 7 :: rest[j] == "install"[j] == s[k + gap + j];
    assert forall j | 0 <= j < 3 :: s[j] == "pip"[j];
    assert forall j | k <= j < k + gap :: Space(s[j]) by {
      assert forall j | k <= j < k + gap :: s[j] == s[k..][j - k];
    }
  }

  lemma BreakStarts(s: string)
    ensures Break <= s ==> |s| > 1 && s[0] == ' ' && s[1] == '-'
  {
    OptionShape();
  }

  /** Nothing is taken away before the end of what stands there. */
  lemma {:induction false} NoBreakInside(a: string, rest: string)
    requires forall i | 0 <= i < |a| && a[i] == ' ' :: i + 1 < |a| && a[i + 1] != '-'
    ensures ReplaceAll(a + rest, Break, "") == a + ReplaceAll(rest, Break, "")
  {
    OptionShape();
    hide ReplaceAll;
    if a == "" {
      assert a + rest == rest && "" + ReplaceAll(rest, Break, "") == ReplaceAll(rest, Break, "");
    } else {
      var t := a[1..] + rest;
      assert a + rest == [a[0]] + t;
      forall i | 0 <= i < |a[1..]| && a[1..][i] == ' ' ensures i + 1 < |a[1..]| && a[1..][i + 1] != '-' {
        assert a[i + 1] == ' ';
      }
      NoBreakInside(a[1..], rest);
      BreakStarts([a[0]] + t);
      assert t != "" && |a| > 1 ==> t[0] == a[1];
      ReplaceStep(a[0], t, Break, "");
      assert [a[0]] + (a[1..] + ReplaceAll(rest, Break, "")) == a + ReplaceAll(rest, Break, "");
    }
  }

  /** Taking the added options away gives the command back. */
  lemma {:induction false} BreakBack(s: string)
    requires !Has(s, Option)
    ensures ReplaceAll(WithBreak(s), Break, "") == s
    decreases |s|
  {
    OptionShape();
    hide ReplaceAll;
    hide Has;
    hide PipInstall;
    if s == "" {
      NothingThere();
    } else {
      var n := PipInstall(s);
      NotBehind(s, if n > 0 then n else 1);
      WithBreakIs(s);
      hide WithBreak;
      if n > 0 {
        BreakBack(s[n..]);
        PipBlanks(s);
        NoBreakInside(s[..n], Break + WithBreak(s[n..]));
        ReplaceHit(WithBreak(s[n..]), Break, "");
        assert s[..n] + ("" + s[n..]) == s;
      } else {
        BreakBack(s[1..]);
        NoBreakHere(s);
        ReplaceStep(s[0], WithBreak(s[1..]), Break, "");
        assert [s[0]] + s[1..] == s;
      }
    }
  }

  lemma NothingThere()
    ensures WithBreak("") == "" && ReplaceAll("", Break, "") == ""
  {
    OptionShape();
  }

  lemma WithBreakIs(s: string)
    requires s != ""
    ensures var n := PipInstall(s);
            WithBreak(s) == if n > 0 then s[..n] + (Break + WithBreak(s[n..])) else [s[0]] + WithBreak(s[1..])
  {
    hide PipInstall;
  }

  lemma NotBehind(s: string, n: nat)
    requires n <= |s| && !Has(s, Option)
    ensures !Has(s[n..], Option)
  {
    hide Has;
    if Has(s[n..], Option) {
      assert s == s[..n] + (s[n..] + "");
      HasPart(s[..n], s[n..], "", Option);
    }
  }

  lemma PipBlanks(s: string)
    requires PipInstall(s) > 0
    ensures var a := s[..PipInstall(s)]; forall i | 0 <= i < |a| && a[i] == ' ' :: i + 1 < |a| && a[i + 1] != '-'
  {
    hide PipInstall;
    var a := s[..PipInstall(s)];
    forall i | 0 <= i < |a| && a[i] == ' ' ensures i + 1 < |a| && a[i + 1] != '-' {
      PipFront(s, i);
    }
  }

  lemma NoBreakHere(s: string)
    requires s != ""
    ensures Break <= [s[0]] + WithBreak(s[1..]) ==> Has(s, Option)
  {
    OptionShape();
    var t := WithBreak(s[1..]);
    FrontBreak(s[1..], Option);
    hide WithBreak;
    if Break <= [s[0]] + t {
      BreakBehind([s[0]] + t);
      assert ([s[0]] + t)[1..] == t;
      HasAt(s, Option, 1);
    }
  }

  lemma BreakBehind(s: string)
    requires Break <= s
    ensures Option <= s[1..]
  {
    OptionShape();
    assert s[1..][..|Option|] == s[..|Break|][1..] == Option;
  }

  /** Where pip installs, the text grows and has the option. */
  lemma {:induction false} BreakPut(s: string, inner: bool)
    ensures |WithBreak(s)| >= |s|
    ensures InstallsPip(s, inner) ==> |WithBreak(s)| > |s| && Has(WithBreak(s), Option)
    decreases |s|
  {
    OptionShape();
    hide PipInstall;
    if s != "" {
      WithBreakIs(s);
      hide WithBreak;
      var n := PipInstall(s);
      if n > 0 {
        BreakPut(s[n..], false);
        var rest := WithBreak(s[n..]);
        assert WithBreak(s) == (s[..n] + " ") + (Option + rest);
        HasInside(s[..n] + " ", Option, rest);
      } else {
        BreakPut(s[1..], WordChar(s[0]));
        assert WithBreak(s)[1..] == WithBreak(s[1..]);
      }
    }
  }

  /**
   A command gets the option exactly when it installs with pip and does not have it; it then has
   it, and without it is what it was.
   */
  lemma AdaptedExactly(command: string)
    ensures Adapted(command) != command <==> InstallsPip(command, false) && !Has(command, Option)
    ensures Adapted(command) != command ==> Has(Adapted(command), Option) && ReplaceAll(Adapted(command), Break, "") == command
  {
    BreakPut(command, false);
    hide WithBreak;
    hide InstallsPip;
    hide Has;
    hide ReplaceAll;
    if !Has(command, Option) {
      BreakBack(command);
    }
  }
}
