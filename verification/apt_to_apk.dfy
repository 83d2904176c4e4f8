/** fix_apt_in_wolfi.py: turning the apt-get block of the final stage into apk commands. */
module AptToApk {
  import opened Text
  import opened Lines

  const AptGet := "apt-get"

  // --- Blocks of the final stage ---------------------------------------------------------

  /** `^word\s` on the stripped line, in any case. */
  predicate Begins(line: string, word: string) {
    var s := Strip(line);
    |s| > |word| && Upper(s[..|word|]) == word && Space(s[|word|])
  }

  /** `find_last_from_line`, for the first n lines. */
  function LastFrom(lines: seq<string>, n: nat): (f: int)
    requires n <= |lines|
    ensures -1 <= f < n
    ensures f >= 0 ==> Begins(lines[f], "FROM")
    ensures forall i | f < i < n :: !Begins(lines[i], "FROM")
  {
    if n == 0 then -1 else if Begins(lines[n - 1], "FROM") then n - 1 else LastFrom(lines, n - 1)
  }

  /** How many lines the instruction takes that the lines start with. */
  function Length(ls: seq<string>): (n: nat)
    requires ls != []
    ensures 1 <= n <= |ls|
    ensures n < |ls| ==> !EndsSlash(ls[n - 1])
  {
    if EndsSlash(ls[0]) && |ls| > 1 then 1 + Length(ls[1..]) else 1
  }

  function Concat(ls: seq<string>): string {
    if ls == [] then "" else ls[0] + Concat(ls[1..])
  }

  datatype Block = Block(start: nat, end: nat)

  /** The RUN blocks with apt-get, base being the number of the first line. */
  function AptBlocks(ls: seq<string>, base: nat): seq<Block>
    decreases |ls|
  {
    if ls == [] then []
    else if Begins(ls[0], "RUN") then
      var n := Length(ls);
      (if Has(Concat(ls[..n]), AptGet) then [Block(base, base + n)] else []) + AptBlocks(ls[n..], base + n)
    else AptBlocks(ls[1..], base + 1)
  }

  /** The apt-get blocks below the last FROM line. */
  function FinalBlocks(lines: seq<string>): seq<Block> {
    var f := LastFrom(lines, |lines|);
    AptBlocks(lines[f + 1..], f + 1)
  }

  /** `extract_run_block` */
  method ExtractRunBlock(lines: seq<string>, start: nat) returns (end: nat, text: string)
    requires start < |lines|
    ensures end == start + Length(lines[start..]) && text == Concat(lines[start..end])
  {
    hide EndsSlash;
    text := lines[start];
    end := start + 1;
    assert lines[start..end] == [lines[start]];
    ConcatOne(lines[start]);
    while end < |lines| && EndsSlash(lines[end - 1])
      invariant start < end <= |lines|
      invariant text == Concat(lines[start..end])
      invariant Length(lines[start..]) == end - 1 - start + Length(lines[end - 1..])
    {
      LengthStep(lines, end - 1);
      assert lines[start..end + 1] == lines[start..end] + [lines[end]];
      ConcatAppend(lines[start..end], [lines[end]]);
      ConcatOne(lines[end]);
      text := text + lines[end];
      end := end + 1;
    }
  }

  lemma LengthStep(lines: seq<string>, i: nat)
    requires i + 1 < |lines| && EndsSlash(lines[i])
    ensures Length(lines[i..]) == 1 + Length(lines[i + 1..])
  {
    assert lines[i..][1..] == lines[i + 1..];
  }

  lemma ConcatOne(line: string)
    ensures Concat([line]) == line
  {
    assert [line][1..] == [];
  }

  lemma {:induction false} ConcatAppend(a: seq<string>, b: seq<string>)
    ensures Concat(a + b) == Concat(a) + Concat(b)
  {
    if a == [] {
      assert a + b == b;
    } else {
      assert (a + b)[1..] == a[1..] + b;
      ConcatAppend(a[1..], b);
    }
  }

  lemma RunStep(ls: seq<string>, base: nat)
    requires ls != [] && Begins(ls[0], "RUN")
    ensures var n := Length(ls);
            AptBlocks(ls, base) ==
            (if Has(Concat(ls[..n]), AptGet) then [Block(base, base + n)] else []) + AptBlocks(ls[n..], base + n)
  {
    hide Begins;
    hide Has;
    hide Concat;
  }

  lemma OtherStep(ls: seq<string>, base: nat)
    requires ls != [] && !Begins(ls[0], "RUN")
    ensures AptBlocks(ls, base) == AptBlocks(ls[1..], base + 1)
  {
    hide Begins;
  }

  lemma NoLines(lines: seq<string>)
    ensures AptBlocks(lines[|lines|..], |lines|) == []
  {
  }

  /** `find_all_apt_run_blocks` */
  method FindAllAptRunBlocks(lines: seq<string>, from: int) returns (blocks: seq<Block>)
    requires -1 <= from < |lines|
    ensures blocks == AptBlocks(lines[from + 1..], from + 1)
  {
    hide Begins;
    hide Has;
    hide Length;
    hide Concat;
    hide AptBlocks;
    blocks := [];
    var i := from + 1;
    while i < |lines|
      invariant from < i <= |lines|
      invariant blocks + AptBlocks(lines[i..], i) == AptBlocks(lines[from + 1..], from + 1)
    {
      if Begins(lines[i], "RUN") {
        var end, text := ExtractRunBlock(lines, i);
        RunStep(lines[i..], i);
        assert lines[i..][..end - i] == lines[i..end] && lines[i..][end - i..] == lines[end..];
        if Has(text, AptGet) {
          blocks := blocks + [Block(i, end)];
        }
        i := end;
      } else {
        OtherStep(lines[i..], i);
        assert lines[i..][1..] == lines[i + 1..];
        i := i + 1;
      }
    }
    NoLines(lines);
  }

  // --- Packages ---------------------------------------------------------------------------

  /** The apk names and the unknown packages. */
  datatype Packages = Packages(apk: seq<string>, unknown: seq<string>)

  /** `convert_packages`, for the first n packages. */
  function Converted(packages: seq<string>, table: map<string, string>, n: nat): Packages
    requires n <= |packages|
  {
    if n == 0 then Packages([], []) else
    var c, p := Converted(packages, table, n - 1), packages[n - 1];
    if p in table then
      if table[p] in c.apk then c else c.(apk := c.apk + [table[p]])
    else if p in c.apk then c
    else c.(unknown := c.unknown + [p])
  }

  method ConvertPackages(packages: seq<string>, table: map<string, string>) returns (apk: seq<string>, unknown: seq<string>)
    ensures Packages(apk, unknown) == Converted(packages, table, |packages|)
  {
    apk, unknown := [], [];
    var seen: set<string> := {};
    for i := 0 to |packages|
      invariant Packages(apk, unknown) == Converted(packages, table, i)
      invariant forall x :: x in seen <==> x in apk
    {
      var p := packages[i];
      if p in table {
        if table[p] !in seen {
          apk := apk + [table[p]];
          seen := seen + {table[p]};
        }
      } else if p in seen {
        continue;
      } else {
        unknown := unknown + [p];
      }
    }
  }

  predicate Distinct(s: seq<string>) {
    forall i, j | 0 <= i < j < |s| :: s[i] != s[j]
  }

  /**
   Every package is mapped, or is one of the apk names already, or is reported unknown; no apk name
   is listed twice; and every listed name comes from a package.
   */
  lemma {:induction false} EveryPackageAccounted(packages: seq<string>, table: map<string, string>, n: nat)
    requires n <= |packages|
    ensures var c := Converted(packages, table, n);
            && (forall i | 0 <= i < n ::
                 if packages[i] in table then table[packages[i]] in c.apk
                 else packages[i] in c.apk || packages[i] in c.unknown)
            && Distinct(c.apk)
            && (forall x | x in c.apk :: exists i :: 0 <= i < n && packages[i] in table && table[packages[i]] == x)
            && (forall x | x in c.unknown :: x !in table && exists i :: 0 <= i < n && packages[i] == x)
  {
    if n > 0 {
      EveryPackageAccounted(packages, table, n - 1);
      var c, d := Converted(packages, table, n - 1), Converted(packages, table, n);
      var p := packages[n - 1];
      forall x | x in d.apk ensures exists i :: 0 <= i < n && packages[i] in table && table[packages[i]] == x {
        if x !in c.apk {
          assert packages[n - 1] in table && table[packages[n - 1]] == x;
        }
      }
      forall x | x in d.unknown ensures x !in table && exists i :: 0 <= i < n && packages[i] == x {
        if x !in c.unknown {
          assert packages[n - 1] == x;
        }
      }
    }
  }

  // --- The other commands ------------------------------------------------------------------

  /** The parts between `&&`. */
  function Parts(s: string): (r: seq<string>)
    ensures r != []
    decreases |s|
  {
    if s == "" then [""]
    else if "&&" <= s then [""] + Parts(s[2..])
    else
      var r := Parts(s[1..]);
      [[s[0]] + r[0]] + r[1..]
  }

  /** `re.sub(r"\s+", " ", s)` */
  function Squeezed(s: string): string
    decreases |s|
  {
    if s == "" then ""
    else if Space(s[0]) then SpanPositive(s); " " + Squeezed(Unspaced(s))
    else [s[0]] + Squeezed(s[1..])
  }

  lemma SpanPositive(s: string)
    requires s != "" && Space(s[0])
    ensures |Unspaced(s)| < |s|
  {
  }

  /** What is kept of a part: at most one command, without apt-get. */
  function Command(piece: string): seq<string> {
    var part := Strip(StripChar(Strip(piece), '\\'));
    if part == "" || Has(part, AptGet) || Has(part, "/var/lib/apt") || Has(part, "/var/cache/apt") then [] else
    var command := Strip(Squeezed(if "RUN " <= part then Strip(part[4..]) else part));
    if command == "" then [] else [command]
  }

  function CommandsOf(pieces: seq<string>, n: nat): seq<string>
    requires n <= |pieces|
  {
    if n == 0 then [] else CommandsOf(pieces, n - 1) + Command(pieces[n - 1])
  }

  method ExtractNonAptCommands(text: string) returns (commands: seq<string>)
    ensures commands == CommandsOf(Parts(text), |Parts(text)|)
  {
    hide Has;
    hide Strip;
    var pieces := Parts(text);
    commands := [];
    for i := 0 to |pieces|
      invariant commands == CommandsOf(pieces, i)
    {
      var part := Strip(StripChar(Strip(pieces[i]), '\\'));
      if part == "" || Has(part, AptGet) {
        continue;
      }
      if Has(part, "/var/lib/apt") || Has(part, "/var/cache/apt") {
        continue;
      }
      if "RUN " <= part {
        part := Strip(part[4..]);
      }
      part := Strip(Squeezed(part));
      if part != "" {
        commands := commands + [part];
      }
    }
  }

  predicate WordChar(c: char) {
    Digit(c) || Capital(c) || Small(c) || c == '_'
  }

  /** The length of `pip3?\s+install` at the front, or 0. */
  function PipInstall(s: string): (n: nat)
    ensures n <= |s|
  {
    if !("pip" <= s) then 0 else
    var k := if |s| > 3 && s[3] == '3' then 4 else 3;
    var gap := Span(s[k..]);
    if gap > 0 && "install" <= s[k + gap..] then k + gap + 7 else 0
  }

  /** `\bpip3?\s+install\b` somewhere; inner says whether a word character stands before. */
  predicate InstallsPip(s: string, inner: bool) {
    s != "" &&
    (var n := PipInstall(s);
     (!inner && n > 0 && (n == |s| || !WordChar(s[n]))) || InstallsPip(s[1..], WordChar(s[0])))
  }

  const Break := " " + (BreakWord + "s")
  const BreakWord := "--break-" + "system-package"

  function WithBreak(s: string): string
    decreases |s|
  {
    if s == "" then "" else
    var n := PipInstall(s);
    if n > 0 then s[..n] + (Break + WithBreak(s[n..])) else [s[0]] + WithBreak(s[1..])
  }

  /** `needs_break_system_packages` */
  function Adapted(command: string): string {
    if InstallsPip(command, false) && !Has(command, BreakWord + "s") then WithBreak(command) else command
  }

  // --- No command holds apt-get --------------------------------------------------------------

  lemma StripInside(s: string, w: string)
    requires w != "" && Has(Strip(s), w)
    ensures Has(s, w)
  {
    if Strip(s) != "" {
      var pre, post := StripParts(s);
      hide Strip;
      hide Has;
      HasPart(pre, Strip(s), post, w);
    }
  }

  lemma {:induction false} FrontSqueezed(s: string, w: string)
    requires forall i | 0 <= i < |w| :: !Space(w[i])
    ensures w <= Squeezed(s) ==> w <= s
    decreases |s|
  {
    if w != "" && w <= Squeezed(s) {
      assert s != "" && Squeezed(s)[0] == w[0];
      assert !Space(s[0]);
      FrontSqueezed(s[1..], w[1..]);
      assert w[1..] <= Squeezed(s)[1..];
      assert w == [w[0]] + w[1..] && s == [s[0]] + s[1..];
    }
  }

  lemma {:induction false} SqueezedInside(s: string, w: string)
    requires w != "" && (forall i | 0 <= i < |w| :: !Space(w[i])) && Has(Squeezed(s), w)
    ensures Has(s, w)
    decreases |s|
  {
    FrontSqueezed(s, w);
    if s != "" && !(w <= s) {
      assert !(w <= Squeezed(s));
      if Space(s[0]) {
        SpanPositive(s);
        assert Squeezed(s)[1..] == Squeezed(Unspaced(s));
        SqueezedInside(Unspaced(s), w);
        HasPart(s[..Span(s)], Unspaced(s), "", w);
        assert s == s[..Span(s)] + (Unspaced(s) + "");
      } else {
        assert Squeezed(s)[1..] == Squeezed(s[1..]);
        SqueezedInside(s[1..], w);
      }
    }
  }

  lemma AptPlain()
    ensures AptGet != "" && (forall i | 0 <= i < |AptGet| :: !Space(AptGet[i]))
    ensures Without(AptGet, ' ') && Without(AptGet, 's')
  {
  }

  lemma CommandClean(piece: string)
    ensures forall c | c in Command(piece) :: !Has(c, AptGet)
  {
    AptPlain();
    hide Has;
    hide Strip;
    hide AptGet;
    var part := Strip(StripChar(Strip(piece), '\\'));
    var inner := if "RUN " <= part then Strip(part[4..]) else part;
    var command := Strip(Squeezed(inner));
    if !Has(part, AptGet) && Has(command, AptGet) {
      StripInside(Squeezed(inner), AptGet);
      SqueezedInside(inner, AptGet);
      if "RUN " <= part {
        StripInside(part[4..], AptGet);
        assert part == part[..4] + (part[4..] + "");
        HasPart(part[..4], part[4..], "", AptGet);
      }
    }
  }

  lemma {:induction false} CommandsClean(pieces: seq<string>, n: nat)
    requires n <= |pieces|
    ensures forall c | c in CommandsOf(pieces, n) :: !Has(c, AptGet)
  {
    hide Has;
    hide Command;
    if n > 0 {
      CommandsClean(pieces, n - 1);
      CommandClean(pieces[n - 1]);
    }
  }

  lemma BreakClean()
    ensures !Has(BreakWord, AptGet)
  {
    hide Has;
    var w := AptGet;
    assert BreakWord == "--break-" + (['s'] + ("y" + (['s'] + "tem-package")));
    HasSplit("--break-", 's', "y" + (['s'] + "tem-package"), w);
    HasSplit("y", 's', "tem-package", w);
    assert "tem-package" == "te" + (['m'] + ("-pa" + (['c'] + "kage")));
    HasSplit("te", 'm', "-pa" + (['c'] + "kage"), w);
    HasSplit("-pa", 'c', "kage", w);
    TooPoor("--break-", 'p', 1);
    TooPoor("y", 'p', 1);
    TooPoor("te", 'p', 1);
    TooPoor("-pa", 't', 2);
    TooPoor("kage", 'p', 1);
  }

  /** A text without one of its letters does not hold the word. */
  lemma TooPoor(s: string, c: char, k: nat)
    requires k < |AptGet| && AptGet[k] == c && Without(s, c)
    ensures !Has(s, AptGet)
  {
    if Has(s, AptGet) {
      var i := HasWhere(s, AptGet);
      LetterAt(s, i, k);
    }
  }

  lemma LetterAt(s: string, i: nat, k: nat)
    requires i <= |s| && AptGet <= s[i..] && k < |AptGet|
    ensures i + k < |s| && s[i + k] == AptGet[k]
  {
    assert s[i..][k] == AptGet[k];
  }

  lemma BreakBetween(a: string, b: string)
    ensures Has(a + (Break + b), AptGet) <==> Has(a, AptGet) || Has(b, AptGet)
  {
    AptPlain();
    BreakClean();
    hide Has;
    var tail := BreakWord + (['s'] + b);
    assert Break + b == [' '] + tail;
    HasSplit(a, ' ', tail, AptGet);
    HasSplit(BreakWord, 's', b, AptGet);
  }

  lemma WithBreakStep(s: string)
    requires s != ""
    ensures var n := PipInstall(s);
            WithBreak(s) == if n > 0 then s[..n] + ([' '] + (BreakWord + ("s" + WithBreak(s[n..])))) else [s[0]] + WithBreak(s[1..])
  {
    hide PipInstall;
    var n := PipInstall(s);
    assert Break + WithBreak(s[n..]) == [' '] + (BreakWord + ("s" + WithBreak(s[n..])));
  }

  lemma {:induction false} FrontBreak(s: string, w: string)
    requires Without(w, ' ')
    ensures w <= WithBreak(s) ==> w <= s
    decreases |s|
  {
    hide PipInstall;
    if w != "" && s != "" {
      hide WithBreak;
      WithBreakStep(s);
      var n := PipInstall(s);
      if n > 0 {
        FrontSplit(s[..n], ' ', BreakWord + ("s" + WithBreak(s[n..])), w);
        PrefixOfPrefix(s, n, w);
      } else {
        FrontBreak(s[1..], w[1..]);
        FrontOne(s, WithBreak(s[1..]), w);
      }
    }
  }

  lemma PrefixOfPrefix(s: string, n: nat, w: string)
    requires n <= |s|
    ensures w <= s[..n] ==> w <= s
  {
    assert s == s[..n] + s[n..];
  }

  lemma FrontOne(s: string, t: string, w: string)
    requires s != "" && w != "" && (w[1..] <= t ==> w[1..] <= s[1..])
    ensures w <= [s[0]] + t ==> w <= s
  {
    if w <= [s[0]] + t {
      assert ([s[0]] + t)[1..] == t;
      assert w[1..] <= t;
      assert w == [w[0]] + w[1..] && s == [s[0]] + s[1..];
    }
  }

  lemma {:induction false} BreakAddsNoApt(s: string)
    requires !Has(s, AptGet)
    ensures !Has(WithBreak(s), AptGet)
    decreases |s|
  {
    AptPlain();
    if s != "" {
      var n := PipInstall(s);
      if n > 0 {
        if Has(s[n..], AptGet) {
          assert s == s[..n] + (s[n..] + "");
          HasPart(s[..n], s[n..], "", AptGet);
        }
        if Has(s[..n], AptGet) {
          assert s == "" + (s[..n] + s[n..]);
          HasPart("", s[..n], s[n..], AptGet);
        }
        BreakAddsNoApt(s[n..]);
        BreakBetween(s[..n], WithBreak(s[n..]));
      } else {
        BreakAddsNoApt(s[1..]);
        FrontBreak(s, AptGet);
        assert WithBreak(s)[1..] == WithBreak(s[1..]);
      }
    }
  }

  lemma AdaptedClean(command: string)
    requires !Has(command, AptGet)
    ensures !Has(Adapted(command), AptGet)
  {
    hide WithBreak;
    BreakAddsNoApt(command);
  }

  // --- The conversion ------------------------------------------------------------------------

  /** `" ".join(names)` */
  function Spaced(names: seq<string>): string {
    if names == [] then "" else if |names| == 1 then names[0] else names[0] + (" " + Spaced(names[1..]))
  }

  function RunLine(command: string): string {
    "RUN " + (command + "\n")
  }

  function RunLines(commands: seq<string>): (r: seq<string>)
    ensures |r| == |commands| && forall i | 0 <= i < |commands| :: r[i] == RunLine(Adapted(commands[i]))
  {
    seq(|commands|, i requires 0 <= i < |commands| => RunLine(Adapted(commands[i])))
  }

  /** The new lines for the given packages and commands; none when nothing is left. */
  function NewLines(apk: seq<string>, commands: seq<string>): seq<string> {
    (if apk != [] then [RunLine("apk add --no-cache " + Spaced(apk))] else []) + RunLines(commands)
  }

  /** What is recognised in the text of a block by the two expressions that are not modelled here. */
  datatype Reading = Reading(customRepository: bool, packages: seq<string>)

  datatype Conversion = Skipped | Replaced(block: Block, lines: seq<string>, unknown: seq<string>)

  /** `process_dockerfile` */
  function Convert(lines: seq<string>, read: string -> Reading, table: map<string, string>): Conversion {
    if LastFrom(lines, |lines|) < 0 then Skipped else
    var blocks := FinalBlocks(lines);
    if |blocks| != 1 then Skipped else
    var block := blocks[0];
    BlocksInside(lines);
    var text := Concat(lines[block.start..block.end]);
    if read(text).customRepository then Skipped else
    var packages := read(text).packages;
    var converted := Converted(packages, table, |packages|);
    Replaced(block, NewLines(converted.apk, CommandsOf(Parts(text), |Parts(text)|)), converted.unknown)
  }

  method FindLastFromLine(lines: seq<string>) returns (from: int)
    ensures from == LastFrom(lines, |lines|)
  {
    hide Begins;
    from := -1;
    for i := 0 to |lines|
      invariant from == LastFrom(lines, i)
    {
      if Begins(lines[i], "FROM") {
        from := i;
      }
    }
  }

  method ProcessDockerfile(lines: seq<string>, read: string -> Reading, table: map<string, string>)
    returns (result: Conversion)
    ensures result == Convert(lines, read, table)
  {
    hide LastFrom;
    hide AptBlocks;
    hide NewLines;
    hide Concat;
    hide Parts;
    hide CommandsOf;
    hide Converted;
    var from := FindLastFromLine(lines);
    if from < 0 {
      return Skipped;
    }
    var blocks := FindAllAptRunBlocks(lines, from);
    if |blocks| != 1 {
      return Skipped;
    }
    BlocksInside(lines);
    var block := blocks[0];
    var text := Concat(lines[block.start..block.end]);
    if read(text).customRepository {
      return Skipped;
    }
    var apk, unknown := ConvertPackages(read(text).packages, table);
    var commands := ExtractNonAptCommands(text);
    result := Replaced(block, NewLines(apk, commands), unknown);
  }

  /** `apply_conversion` on a file that has not changed since. */
  function Apply(lines: seq<string>, block: Block, new_lines: seq<string>): seq<string>
    requires block.start <= block.end <= |lines|
  {
    Spliced(lines, block.start, block.end, new_lines)
  }

  lemma {:induction false} BlocksRange(ls: seq<string>, base: nat)
    ensures forall b | b in AptBlocks(ls, base) :: base <= b.start < b.end <= base + |ls|
    decreases |ls|
  {
    hide Begins;
    hide Has;
    if ls != [] {
      BlocksRange(if Begins(ls[0], "RUN") then ls[Length(ls)..] else ls[1..],
                  base + if Begins(ls[0], "RUN") then Length(ls) else 1);
    }
  }

  lemma BlocksInside(lines: seq<string>)
    ensures var f := LastFrom(lines, |lines|);
            forall b | b in FinalBlocks(lines) :: f < b.start < b.end <= |lines|
  {
    hide LastFrom;
    var f := LastFrom(lines, |lines|);
    BlocksRange(lines[f + 1..], f + 1);
  }

  // --- No apt-get block is left -----------------------------------------------------------------

  /** The line is an instruction RUN by itself, without apt-get. */
  predicate Settled(line: string) {
    Begins(line, "RUN") && !EndsSlash(line) && !Has(line, AptGet) && !Begins(line, "FROM")
  }

  predicate AllSettled(ls: seq<string>) {
    forall i | 0 <= i < |ls| :: Settled(ls[i])
  }

  lemma {:induction false} Renumbered(ls: seq<string>, base: nat, other: nat)
    ensures AptBlocks(ls, base) == [] <==> AptBlocks(ls, other) == []
    decreases |ls|
  {
    hide Begins;
    hide Has;
    hide Concat;
    hide Length;
    if ls != [] {
      hide AptBlocks;
      if Begins(ls[0], "RUN") {
        RunStep(ls, base);
        RunStep(ls, other);
        Renumbered(ls[Length(ls)..], base + Length(ls), other + Length(ls));
      } else {
        OtherStep(ls, base);
        OtherStep(ls, other);
        Renumbered(ls[1..], base + 1, other + 1);
      }
    }
  }

  /** Settled lines in front add no block. */
  lemma {:induction false} SettledFront(a: seq<string>, b: seq<string>, base: nat, other: nat)
    requires AllSettled(a) && AptBlocks(b, other) == []
    ensures AptBlocks(a + b, base) == []
    decreases |a|
  {
    hide Begins;
    hide Has;
    hide EndsSlash;
    if a == [] {
      assert a + b == b;
      Renumbered(b, other, base);
    } else {
      var ls := a + b;
      assert Settled(a[0]) && ls[0] == a[0];
      assert Length(ls) == 1 && ls[..1] == [a[0]] && ls[1..] == a[1..] + b;
      ConcatOne(a[0]);
      SettledFront(a[1..], b, base + 1, other);
    }
  }

  /** An instruction ends where it ends, whatever comes behind. */
  lemma {:induction false} LengthFront(a: seq<string>, b: seq<string>, c: seq<string>)
    requires a != [] && b != [] && Length(a + b) == |a|
    ensures Length(a + c) == |a|
    decreases |a|
  {
    hide EndsSlash;
    var x, y := a + b, a + c;
    if EndsSlash(a[0]) {
      assert x[1..] == a[1..] + b && y[1..] == a[1..] + c;
      assert |a| > 1;
      LengthFront(a[1..], b, c);
    }
  }

  /** The file with lines s up to e replaced. */
  function Spliced(ls: seq<string>, s: nat, e: nat, fresh_lines: seq<string>): seq<string>
    requires s <= e <= |ls|
  {
    ls[..s] + (fresh_lines + ls[e..])
  }

  lemma SplicedTail(ls: seq<string>, n: nat, s: nat, e: nat, fresh_lines: seq<string>)
    requires n <= s <= e <= |ls|
    ensures var after := Spliced(ls, s, e, fresh_lines);
            && |after| >= n && after[..n] == ls[..n]
            && after[n..] == Spliced(ls[n..], s - n, e - n, fresh_lines)
            && after == ls[..n] + after[n..]
  {
    var after := Spliced(ls, s, e, fresh_lines);
    assert after[..n] == ls[..n];
    assert ls[e..] == ls[n..][e - n..];
  }

  /** Replacing the one block by settled lines leaves none. */
  lemma {:induction false} ReplacedBlock(ls: seq<string>, base: nat, s: nat, e: nat, fresh_lines: seq<string>, other: nat)
    requires s < e <= |ls| && AptBlocks(ls, base) == [Block(base + s, base + e)] && AllSettled(fresh_lines)
    ensures AptBlocks(Spliced(ls, s, e, fresh_lines), other) == []
    decreases |ls|
  {
    hide Begins;
    hide Has;
    hide AllSettled;
    hide AptBlocks;
    hide Concat;
    hide Spliced;
    hide Length;
    if Begins(ls[0], "RUN") {
      var n := Length(ls);
      RunStep(ls, base);
      if Has(Concat(ls[..n]), AptGet) {
        ReplacedHere(ls, base, n, s, e, fresh_lines, other);
      } else {
        assert AptBlocks(ls[n..], base + n) == [Block(base + s, base + e)];
        BlocksRange(ls[n..], base + n);
        assert Block(base + s, base + e) in AptBlocks(ls[n..], base + n);
        ReplacedBlock(ls[n..], base + n, s - n, e - n, fresh_lines, other + n);
        ReplacedLater(ls, n, s, e, fresh_lines, other);
      }
    } else {
      OtherStep(ls, base);
      BlocksRange(ls[1..], base + 1);
      assert Block(base + s, base + e) in AptBlocks(ls[1..], base + 1);
      ReplacedBlock(ls[1..], base + 1, s - 1, e - 1, fresh_lines, other + 1);
      SplicedTail(ls, 1, s, e, fresh_lines);
      OtherStep(Spliced(ls, s, e, fresh_lines), other);
    }
  }

  lemma ReplacedHere(ls: seq<string>, base: nat, n: nat, s: nat, e: nat, fresh_lines: seq<string>, other: nat)
    requires s < e <= |ls| && n <= |ls| && AllSettled(fresh_lines)
    requires [Block(base + s, base + e)] == [Block(base, base + n)] + AptBlocks(ls[n..], base + n)
    ensures AptBlocks(Spliced(ls, s, e, fresh_lines), other) == []
  {
    hide AptBlocks;
    hide AllSettled;
    var all := [Block(base, base + n)] + AptBlocks(ls[n..], base + n);
    assert |all| == 1 && all[0] == Block(base, base + n);
    SettledFront(fresh_lines, ls[n..], other, base + n);
    assert Spliced(ls, 0, n, fresh_lines) == fresh_lines + ls[n..];
  }

  lemma ReplacedLater(ls: seq<string>, n: nat, s: nat, e: nat, fresh_lines: seq<string>, other: nat)
    requires ls != [] && Begins(ls[0], "RUN") && n == Length(ls) && n <= s < e <= |ls|
    requires !Has(Concat(ls[..n]), AptGet) && AptBlocks(Spliced(ls[n..], s - n, e - n, fresh_lines), other + n) == []
    ensures AptBlocks(Spliced(ls, s, e, fresh_lines), other) == []
  {
    hide Begins;
    hide Has;
    hide AptBlocks;
    hide Concat;
    hide Length;
    var after := Spliced(ls, s, e, fresh_lines);
    SplicedTail(ls, n, s, e, fresh_lines);
    hide Spliced;
    assert ls == ls[..n] + ls[n..];
    LengthFront(ls[..n], ls[n..], after[n..]);
    assert after[0] == ls[..n][0];
    RunStep(after, other);
  }

  // --- The last FROM line stays -----------------------------------------------------------------

  lemma {:induction false} LastFromIs(lines: seq<string>, n: nat, f: int)
    requires -1 <= f < n <= |lines| && (f >= 0 ==> Begins(lines[f], "FROM"))
    requires forall i | f < i < n :: !Begins(lines[i], "FROM")
    ensures LastFrom(lines, n) == f
  {
    hide Begins;
    if f < n - 1 {
      LastFromIs(lines, n - 1, f);
    }
  }

  lemma SameStage(lines: seq<string>, block: Block, fresh_lines: seq<string>)
    requires LastFrom(lines, |lines|) < block.start <= block.end <= |lines| && LastFrom(lines, |lines|) >= 0
    requires AllSettled(fresh_lines)
    ensures var after := Apply(lines, block, fresh_lines); LastFrom(after, |after|) == LastFrom(lines, |lines|)
  {
    var f := LastFrom(lines, |lines|);
    var after := Apply(lines, block, fresh_lines);
    hide EndsSlash;
    hide Has;
    forall i | f < i < |after| ensures !Begins(after[i], "FROM") {
      if i >= block.start + |fresh_lines| {
        assert after[i] == lines[i - block.start - |fresh_lines| + block.end];
      } else if i >= block.start {
        assert after[i] == fresh_lines[i - block.start] && Settled(fresh_lines[i - block.start]);
      }
    }
    hide Begins;
    LastFromIs(after, |after|, f);
  }

  // --- The new lines are settled -------------------------------------------------------------------

  /** A command that keeps its line to itself. */
  predicate Closed(command: string) {
    command != "" && !Space(command[0]) && !Space(command[|command| - 1]) && command[|command| - 1] != '\\'
  }

  lemma RunLineStripped(command: string)
    requires Closed(command)
    ensures Strip(RunLine(command)) == "RUN " + command && RStrip(RunLine(command)) == "RUN " + command
  {
    var inner := "RUN " + command;
    RStripOf(inner, "\n");
    StripOf("", inner, "\n");
    assert "" + (inner + "\n") == RunLine(command) == inner + "\n";
  }

  lemma RunLineBegins(command: string)
    requires Closed(command)
    ensures Begins(RunLine(command), "RUN") && !Begins(RunLine(command), "FROM") && !EndsSlash(RunLine(command))
  {
    RunLineStripped(command);
    hide Strip;
    hide RStrip;
    var inner := "RUN " + command;
    assert inner[..3] == "RUN" && Upper("RUN") == "RUN" && inner[3] == ' ';
    assert Upper(inner[..4])[0] == 'R';
  }

  lemma RunLineClean(command: string)
    requires !Has(command, AptGet)
    ensures !Has(RunLine(command), AptGet)
  {
    AptPlain();
    hide Has;
    assert RunLine(command) == "RUN" + ([' '] + (command + (['\n'] + "")));
    TooPoor("RUN", 'a', 0);
    HasSplit("RUN", ' ', command + (['\n'] + ""), AptGet);
    assert Without(AptGet, '\n');
    HasSplit(command, '\n', "", AptGet);
    TooPoor("", 'a', 0);
  }

  lemma RunLineSettled(command: string)
    requires Closed(command) && !Has(command, AptGet)
    ensures Settled(RunLine(command))
  {
    hide Has;
    hide Begins;
    hide EndsSlash;
    hide Closed;
    hide RunLine;
    RunLineBegins(command);
    RunLineClean(command);
  }

  lemma {:induction false} WithBreakEnds(s: string)
    requires s != ""
    ensures var r := WithBreak(s);
            r != "" && r[0] == s[0] && (r[|r| - 1] == s[|s| - 1] || r[|r| - 1] == 's')
    decreases |s|
  {
    var n := PipInstall(s);
    var r := WithBreak(s);
    if n > 0 {
      if n < |s| {
        WithBreakEnds(s[n..]);
      } else {
        assert r == s[..n] + (Break + "");
      }
    } else if |s| > 1 {
      WithBreakEnds(s[1..]);
    }
  }

  lemma AdaptedClosed(command: string)
    requires Closed(command)
    ensures Closed(Adapted(command))
  {
    hide WithBreak;
    hide InstallsPip;
    hide Has;
    hide Closed;
    ClosedNotEmpty(command);
    WithBreakEnds(command);
    EndsClosed(command, WithBreak(command));
  }

  lemma ClosedNotEmpty(command: string)
    ensures Closed(command) ==> command != ""
  {
  }

  lemma EndsClosed(command: string, r: string)
    requires Closed(command) && r != "" && r[0] == command[0]
    requires r[|r| - 1] == command[|command| - 1] || r[|r| - 1] == 's'
    ensures Closed(r)
  {
  }

  lemma StripEnds(s: string)
    ensures Strip(s) != "" ==> !Space(Strip(s)[0]) && !Space(Strip(s)[|Strip(s)| - 1])
  {
    if Strip(s) != "" {
      var pre, post := StripParts(s);
    }
  }

  /** A command that is closed unless it is continued. */
  predicate Finished(c: string) {
    c != "" && (c[|c| - 1] != '\\' ==> Closed(c))
  }

  /** What is kept of a part starts and ends with no blank. */
  lemma CommandClosed(piece: string)
    ensures forall c | c in Command(piece) :: Finished(c)
  {
    hide Has;
    hide Strip;
    hide Squeezed;
    hide StripChar;
    var part := Strip(StripChar(Strip(piece), '\\'));
    StripEnds(Squeezed(if "RUN " <= part then Strip(part[4..]) else part));
  }

  lemma {:induction false} CommandsClosed(pieces: seq<string>, n: nat)
    requires n <= |pieces|
    ensures forall c | c in CommandsOf(pieces, n) :: Finished(c)
  {
    hide Command;
    hide Finished;
    if n > 0 {
      CommandsClosed(pieces, n - 1);
      CommandClosed(pieces[n - 1]);
    }
  }

  predicate AllClosed(commands: seq<string>) {
    forall i | 0 <= i < |commands| :: Closed(Adapted(commands[i]))
  }

  /** No command ends in a backslash. */
  predicate NoneContinued(commands: seq<string>) {
    forall i | 0 <= i < |commands| :: commands[i] != "" ==> commands[i][|commands[i]| - 1] != '\\'
  }

  lemma FinishedClosed(c: string)
    requires Finished(c) && (c != "" ==> c[|c| - 1] != '\\')
    ensures Closed(c)
  {
  }

  lemma KeptClosed(pieces: seq<string>)
    requires NoneContinued(CommandsOf(pieces, |pieces|))
    ensures AllClosed(CommandsOf(pieces, |pieces|))
  {
    hide Closed;
    hide Adapted;
    hide CommandsOf;
    hide Finished;
    var commands := CommandsOf(pieces, |pieces|);
    CommandsClosed(pieces, |pieces|);
    forall i | 0 <= i < |commands| ensures Closed(Adapted(commands[i])) {
      var c := commands[i];
      assert c in commands;
      FinishedClosed(c);
      AdaptedClosed(c);
    }
  }

  predicate CleanNames(names: seq<string>) {
    forall i | 0 <= i < |names| :: Closed(names[i]) && !Has(names[i], AptGet)
  }

  lemma {:induction false} SpacedClean(names: seq<string>)
    requires CleanNames(names) && names != []
    ensures Closed(Spaced(names)) && !Has(Spaced(names), AptGet)
  {
    hide Has;
    assert Closed(names[0]) && !Has(names[0], AptGet);
    if |names| > 1 {
      assert CleanNames(names[1..]);
      SpacedClean(names[1..]);
      AptPlain();
      var rest := Spaced(names[1..]);
      HasSplit(names[0], ' ', rest, AptGet);
      var all := names[0] + (" " + rest);
      assert all[|all| - 1] == rest[|rest| - 1];
    }
  }

  lemma ApkAddClean(rest: string)
    requires Closed(rest) && !Has(rest, AptGet)
    ensures Closed("apk add --no-cache " + rest) && !Has("apk add --no-cache " + rest, AptGet)
  {
    hide Has;
    AptPlain();
    var command := "apk add --no-cache " + rest;
    assert command == "apk add --no-cache" + ([' '] + rest);
    TooPoor("apk add --no-cache", 't', 2);
    HasSplit("apk add --no-cache", ' ', rest, AptGet);
    assert command[|command| - 1] == rest[|rest| - 1];
  }

  lemma ApkAddSettled(names: seq<string>)
    requires CleanNames(names) && names != []
    ensures Settled(RunLine("apk add --no-cache " + Spaced(names)))
  {
    SpacedClean(names);
    hide Has;
    hide Settled;
    hide Closed;
    hide RunLine;
    ApkAddClean(Spaced(names));
    RunLineSettled("apk add --no-cache " + Spaced(names));
  }

  lemma NewLinesSettled(apk: seq<string>, commands: seq<string>)
    requires CleanNames(apk) && AllClosed(commands) && forall i | 0 <= i < |commands| :: !Has(commands[i], AptGet)
    ensures AllSettled(NewLines(apk, commands))
  {
    hide Has;
    hide Settled;
    hide Closed;
    hide Adapted;
    forall i | 0 <= i < |commands| ensures Settled(RunLine(Adapted(commands[i]))) {
      AdaptedClean(commands[i]);
      RunLineSettled(Adapted(commands[i]));
    }
    if apk != [] {
      ApkAddSettled(apk);
    }
    hide RunLine;
  }

  /** The apk names in the table can stand in a command. */
  predicate CleanTable(table: map<string, string>) {
    forall p | p in table :: Closed(table[p]) && !Has(table[p], AptGet)
  }

  /**
   After a conversion that was not skipped no apt-get block is left in the final stage, provided
   that no kept command ends in a backslash.
   */
  lemma NoAptLeft(lines: seq<string>, read: string -> Reading, table: map<string, string>)
    requires Convert(lines, read, table).Replaced? && CleanTable(table)
    requires var block := Convert(lines, read, table).block;
             && block.start <= block.end <= |lines|
             && var text := Concat(lines[block.start..block.end]);
             NoneContinued(CommandsOf(Parts(text), |Parts(text)|))
    ensures FinalBlocks(Apply(lines, Convert(lines, read, table).block, Convert(lines, read, table).lines)) == []
  {
    hide LastFrom;
    hide AllSettled;
    hide AptBlocks;
    hide Apply;
    hide Convert;
    hide Concat;
    hide Parts;
    hide CommandsOf;
    hide Converted;
    hide NewLines;
    hide CleanTable;
    hide NoneContinued;
    var r := Convert(lines, read, table);
    ReplacedIs(lines, read, table);
    NewLinesClean(lines, read, table);
    SameStage(lines, r.block, r.lines);
    OneBlockReplaced(lines, LastFrom(lines, |lines|), r.block, r.lines);
  }

  /** What a conversion found. */
  lemma ReplacedIs(lines: seq<string>, read: string -> Reading, table: map<string, string>)
    requires Convert(lines, read, table).Replaced?
    ensures var r, f := Convert(lines, read, table), LastFrom(lines, |lines|);
            0 <= f < r.block.start < r.block.end <= |lines| && AptBlocks(lines[f + 1..], f + 1) == [r.block]
    ensures var r := Convert(lines, read, table);
            r.block.start <= r.block.end <= |lines| &&
            var text := Concat(lines[r.block.start..r.block.end]);
            r.lines == NewLines(Converted(read(text).packages, table, |read(text).packages|).apk,
                                CommandsOf(Parts(text), |Parts(text)|))
  {
    hide LastFrom;
    hide AptBlocks;
    hide NewLines;
    hide Concat;
    hide Parts;
    hide CommandsOf;
    hide Converted;
    BlocksInside(lines);
  }

  lemma NewLinesClean(lines: seq<string>, read: string -> Reading, table: map<string, string>)
    requires Convert(lines, read, table).Replaced? && CleanTable(table)
    requires var block := Convert(lines, read, table).block;
             && block.start <= block.end <= |lines|
             && var text := Concat(lines[block.start..block.end]);
             NoneContinued(CommandsOf(Parts(text), |Parts(text)|))
    ensures AllSettled(Convert(lines, read, table).lines)
  {
    hide Convert;
    hide Concat;
    hide Parts;
    hide CommandsOf;
    hide Converted;
    hide NewLines;
    hide AllSettled;
    hide AllClosed;
    hide NoneContinued;
    hide CleanNames;
    hide CleanTable;
    hide Has;
    ReplacedIs(lines, read, table);
    var r := Convert(lines, read, table);
    var text := Concat(lines[r.block.start..r.block.end]);
    var packages := read(text).packages;
    ConvertedClean(packages, table);
    KeptClosed(Parts(text));
    CommandsClean(Parts(text), |Parts(text)|);
    NewLinesSettled(Converted(packages, table, |packages|).apk, CommandsOf(Parts(text), |Parts(text)|));
  }

  lemma OneBlockReplaced(lines: seq<string>, f: nat, block: Block, fresh_lines: seq<string>)
    requires f < block.start < block.end <= |lines| && AllSettled(fresh_lines)
    requires AptBlocks(lines[f + 1..], f + 1) == [block]
    ensures AptBlocks(Apply(lines, block, fresh_lines)[f + 1..], f + 1) == []
  {
    hide AptBlocks;
    hide AllSettled;
    hide Spliced;
    var stage := lines[f + 1..];
    var s, e := block.start - f - 1, block.end - f - 1;
    assert block == Block(f + 1 + s, f + 1 + e);
    ReplacedBlock(stage, f + 1, s, e, fresh_lines, f + 1);
    SplicedTail(lines, f + 1, block.start, block.end, fresh_lines);
  }

  lemma ConvertedClean(packages: seq<string>, table: map<string, string>)
    requires CleanTable(table)
    ensures CleanNames(Converted(packages, table, |packages|).apk)
  {
    hide Has;
    hide Closed;
    EveryPackageAccounted(packages, table, |packages|);
    hide Converted;
    var apk := Converted(packages, table, |packages|).apk;
    forall i | 0 <= i < |apk| ensures Closed(apk[i]) && !Has(apk[i], AptGet) {
      assert apk[i] in apk;
    }
  }
}
