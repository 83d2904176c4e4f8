/** wire_observability.py: growing the ENV block of the shim, and the scrape labels. */
module Observability {
  import opened Text
  import opened Lines
  import opened Wiring

  // --- ENV blocks --------------------------------------------------------------------------

  /** The line that the final stage starts on. */
  function FinalStart(lines: seq<string>): (n: nat)
    ensures n <= |lines|
  {
    var n := LastInstr(lines, "FROM ", |lines|);
    if n == |lines| then 0 else n
  }

  /** A line that goes on with the block above it. */
  predicate Member(line: string) {
    var s := Strip(line);
    "\"" <= s || "SHIM_" <= s || "EVERGREEN" <= s || "PGDATA" <= s
  }

  predicate EnvStart(line: string) {
    Instr(line, "ENV ")
  }

  predicate HoldsShim(block: seq<string>) {
    Has(Joined(block), "SHIM_")
  }

  /** How many members the lines start with. */
  function Members(ls: seq<string>): (n: nat)
    ensures n <= |ls| && forall i | 0 <= i < n :: Member(ls[i])
    ensures n < |ls| ==> !Member(ls[n])
  {
    if ls != [] && Member(ls[0]) then 1 + Members(ls[1..]) else 0
  }

  datatype Range = Range(first: nat, last: nat)

  function Shift(r: Option<Range>, k: nat): Option<Range> {
    match r case None => None case Some(x) => Some(Range(x.first + k, x.last + k))
  }

  /** The last ENV block with a shim variable. */
  function LastBlock(ls: seq<string>): (r: Option<Range>)
    ensures r.Some? ==> r.value.first <= r.value.last < |ls|
  {
    if ls == [] then None
    else if EnvStart(ls[0]) then
      var n := Members(ls[1..]);
      var later := LastBlock(ls[n + 1..]);
      if later.Some? then Shift(later, n + 1)
      else if HoldsShim(ls[..n + 1]) then Some(Range(0, n)) else None
    else Shift(LastBlock(ls[1..]), 1)
  }

  /** `find_shim_env_block` */
  function FindBlock(lines: seq<string>): (r: Option<Range>)
    ensures r.Some? ==> FinalStart(lines) <= r.value.first <= r.value.last < |lines|
  {
    Shift(LastBlock(lines[FinalStart(lines)..]), FinalStart(lines))
  }

  method FindShimEnvBlock(lines: seq<string>) returns (result: Option<Range>)
    ensures result == FindBlock(lines)
  {
    hide EnvStart;
    hide Member;
    hide HoldsShim;
    hide FinalStart;
    hide LastBlock;
    hide Shift;
    hide FindBlock;
    hide Members;
    hide Either;
    var start := FinalStart(lines);
    result := None;
    var i := start;
    AllBlocks(lines);
    while i < |lines|
      invariant start <= i <= |lines|
      invariant Either(Shift(LastBlock(lines[i..]), i), result) == FindBlock(lines)
    {
      if EnvStart(lines[i]) {
        ghost var n := Members(lines[i + 1..]);
        var end := i;
        var j := i + 1;
        while j < |lines| && Member(lines[j])
          invariant i < j <= |lines| && end == j - 1
          invariant Members(lines[j..]) + (j - i - 1) == n
        {
          MembersStep(lines, j);
          end := j;
          j := j + 1;
        }
        MembersEnd(lines, j);
        BlockStep(lines, i, result);
        if HoldsShim(lines[i..end + 1]) {
          result := Some(Range(i, end));
        }
        i := end + 1;
      } else {
        PlainStep(lines, i);
        i := i + 1;
      }
    }
    NoBlockLeft(lines, result);
  }

  lemma AllBlocks(lines: seq<string>)
    ensures Either(Shift(LastBlock(lines[FinalStart(lines)..]), FinalStart(lines)), None) == FindBlock(lines)
  {
    hide LastBlock;
    hide FinalStart;
  }

  /** A later block wins. */
  function Either(later: Option<Range>, found: Option<Range>): Option<Range> {
    if later.Some? then later else found
  }

  lemma MembersStep(lines: seq<string>, j: nat)
    requires j < |lines| && Member(lines[j])
    ensures Members(lines[j..]) == 1 + Members(lines[j + 1..])
  {
    assert lines[j..][1..] == lines[j + 1..];
  }

  lemma MembersEnd(lines: seq<string>, j: nat)
    requires j <= |lines| && (j < |lines| ==> !Member(lines[j]))
    ensures Members(lines[j..]) == 0
  {
  }

  lemma Unfold(ls: seq<string>)
    requires ls != [] && EnvStart(ls[0])
    ensures var n := Members(ls[1..]);
            LastBlock(ls) == Either(Shift(LastBlock(ls[n + 1..]), n + 1), if HoldsShim(ls[..n + 1]) then Some(Range(0, n)) else None)
  {
    hide EnvStart;
    hide HoldsShim;
  }

  lemma Slices(lines: seq<string>, i: nat, n: nat)
    requires i + n + 1 <= |lines|
    ensures lines[i..][1..] == lines[i + 1..] && lines[i..][n + 1..] == lines[i + n + 1..]
    ensures lines[i..][..n + 1] == lines[i..i + n + 1]
  {
  }

  lemma BlockStep(lines: seq<string>, i: nat, found: Option<Range>)
    requires i < |lines| && EnvStart(lines[i])
    ensures var n := Members(lines[i + 1..]);
            Either(Shift(LastBlock(lines[i..]), i), found) ==
            Either(Shift(LastBlock(lines[i + n + 1..]), i + n + 1),
                   if HoldsShim(lines[i..i + n + 1]) then Some(Range(i, i + n)) else found)
  {
    hide HoldsShim;
    hide EnvStart;
    hide LastBlock;
    hide Members;
    Slices(lines, i, Members(lines[i + 1..]));
    Unfold(lines[i..]);
  }

  lemma PlainStep(lines: seq<string>, i: nat)
    requires i < |lines| && !EnvStart(lines[i])
    ensures Shift(LastBlock(lines[i..]), i) == Shift(LastBlock(lines[i + 1..]), i + 1)
  {
    hide EnvStart;
    Slices(lines, i, 0);
  }

  lemma NoBlockLeft(lines: seq<string>, found: Option<Range>)
    ensures Either(Shift(LastBlock(lines[|lines|..]), |lines|), found) == found
  {
  }

  // --- Adding a variable -----------------------------------------------------------------------

  function DropSlashes(s: string): string {
    if s != "" && s[|s| - 1] == '\\' then DropSlashes(s[..|s| - 1]) else s
  }

  function Unslashed(line: string): string {
    RStrip(DropSlashes(RStrip(line)))
  }

  function Setting(name: string, value: string): string {
    name + ("=\"" + (value + "\""))
  }

  function Indented(text: string): string {
    "    " + text
  }

  /** What becomes of the last line of the block. */
  function Joining(line: string): string {
    if EndsSlash(line) then Unslashed(line) else line + " \\"
  }

  function FirstUser(lines: seq<string>): nat {
    FirstInstr(lines, "USER ", FinalStart(lines))
  }

  /** `add_var_to_env_block` */
  function AddVar(lines: seq<string>, name: string, value: string): seq<string> {
    match FindBlock(lines)
    case Some(r) =>
      lines[..r.last] + ([Joining(lines[r.last]), Indented(Setting(name, value))] + lines[r.last + 1..])
    case None =>
      var u := FirstUser(lines);
      if u < |lines| then lines[..u + 1] + (["ENV " + Setting(name, value)] + lines[u + 1..])
      else lines + ["ENV " + Setting(name, value)]
  }

  /** Changing a line and inserting one below it. */
  lemma EditInPlace(ls: seq<string>, e: nat, m: string, v: string)
    requires e < |ls|
    ensures var changed := ls[e := m];
            changed[..e + 1] + [v] + changed[e + 1..] == ls[..e] + ([m, v] + ls[e + 1..])
  {
  }

  method AddVarToEnvBlock(content: seq<string>, name: string, value: string) returns (lines: seq<string>)
    ensures lines == AddVar(content, name, value)
  {
    hide FindBlock;
    hide FirstUser;
    hide EndsSlash;
    hide Unslashed;
    hide Setting;
    hide Indented;
    lines := content;
    var range := FindShimEnvBlock(lines);
    if range.Some? {
      var end := range.value.last;
      var lastLine := lines[end];
      EditInPlace(content, end, Joining(lastLine), Indented(Setting(name, value)));
      if EndsSlash(lastLine) {
        lines := lines[end := Unslashed(lastLine)];
        lines := lines[..end + 1] + [Indented(Setting(name, value))] + lines[end + 1..];
      } else {
        lines := lines[end := lastLine + " \\"];
        lines := lines[..end + 1] + [Indented(Setting(name, value))] + lines[end + 1..];
      }
      return;
    }
    var user := FindUserLine(lines);
    if user < |lines| {
      lines := lines[..user + 1] + ["ENV " + Setting(name, value)] + lines[user + 1..];
      return;
    }
    lines := lines + ["ENV " + Setting(name, value)];
  }

  /** `find_user_line`; the number of lines stands for None. */
  method FindUserLine(lines: seq<string>) returns (i: nat)
    ensures i == FirstUser(lines)
  {
    hide Instr;
    hide FinalStart;
    i := FinalStart(lines);
    while i < |lines|
      invariant i <= |lines| && FirstInstr(lines, "USER ", i) == FirstUser(lines)
    {
      if Instr(lines[i], "USER ") {
        return;
      }
      i := i + 1;
    }
  }

  // --- Stripped lines ---------------------------------------------------------------------------

  lemma {:induction false} DropSlashesKeeps(s: string, p: nat)
    requires p < |s| && s[p] != '\\'
    ensures p < |DropSlashes(s)| && DropSlashes(s) <= s
  {
    if s[|s| - 1] == '\\' {
      DropSlashesKeeps(s[..|s| - 1], p);
    }
  }

  /** A character that is neither blank nor a backslash stays, with everything before it. */
  lemma UnslashedKeeps(s: string, p: nat)
    requires p < |s| && !Space(s[p]) && s[p] != '\\'
    ensures p < |Unslashed(s)| && Unslashed(s) <= s
  {
    RStripKeeps(s, p);
    DropSlashesKeeps(RStrip(s), p);
    RStripKeeps(DropSlashes(RStrip(s)), p);
  }

  /** The front of a stripped line is that of the line stripped on the left. */
  lemma StripFront(s: string, w: string)
    requires w != "" && !Space(w[|w| - 1])
    ensures w <= Strip(s) <==> w <= LStrip(s)
  {
    var t := LStrip(s);
    RStripPrefix(t);
    if w <= t {
      assert t[|w| - 1] == w[|w| - 1];
      RStripKeeps(t, |w| - 1);
    }
  }

  lemma {:induction false} LStripMore(s: string, more: string)
    requires LStrip(s) != ""
    ensures LStrip(s + more) == LStrip(s) + more
  {
    if Space(s[0]) {
      assert (s + more)[1..] == s[1..] + more;
      LStripMore(s[1..], more);
    }
  }
}
