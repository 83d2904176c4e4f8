/** bump.rs: changing the version of a Dockerfile, line by line. */
module Bump {
  import opened Text
  import opened Patterns
  import opened Silence
  import opened RoundTrip
  import Extract

  // --- Lines of a text ---------------------------------------------------------------------

  function DropCr(line: string): string {
    if line != "" && line[|line| - 1] == '\r' then line[..|line| - 1] else line
  }

  /** `lines()`, for the parts between the newlines. */
  function LinesOf(parts: seq<string>): seq<string> {
    if parts == [] then [] else
    if |parts| == 1 then if parts[0] == "" then [] else parts
    else [DropCr(parts[0])] + LinesOf(parts[1..])
  }

  function TextLines(content: string): seq<string> {
    LinesOf(Split(content, '\n'))
  }

  /** Every line with its newline. */
  function Lined(ls: seq<string>): string {
    if ls == [] then "" else ls[0] + ("\n" + Lined(ls[1..]))
  }

  // --- The bump ------------------------------------------------------------------------------

  const ArgVersion := "ARG VERSION="

  function BumpLine(line: string, old_version: string, new_version: string): string {
    if ArgVersion <= line then ArgVersion + new_version
    else if old_version != "" && Has(line, old_version) then ReplaceAll(line, old_version, new_version)
    else line
  }

  function BumpAll(ls: seq<string>, old_version: string, new_version: string): (r: seq<string>)
    ensures |r| == |ls| && forall i | 0 <= i < |ls| :: r[i] == BumpLine(ls[i], old_version, new_version)
  {
    seq(|ls|, i requires 0 <= i < |ls| => BumpLine(ls[i], old_version, new_version))
  }

  /** The new text of `bump_dockerfile_only`. */
  method BumpDockerfile(content: string, old_version: string, new_version: string) returns (new_content: string)
    ensures new_content == Lined(BumpAll(TextLines(content), old_version, new_version))
  {
    hide Has;
    hide ReplaceAll;
    hide TextLines;
    hide Lined;
    var lines := TextLines(content);
    ghost var bumped := BumpAll(lines, old_version, new_version);
    new_content := "";
    for i := 0 to |lines|
      invariant new_content + Lined(bumped[i..]) == Lined(bumped)
    {
      LinedStep(bumped, i);
      ghost var before := new_content;
      var line := lines[i];
      if ArgVersion <= line {
        new_content := new_content + (ArgVersion + new_version + "\n");
      } else if old_version != "" && Has(line, old_version) {
        var replaced := ReplaceAll(line, old_version, new_version);
        new_content := new_content + replaced;
        new_content := new_content + "\n";
      } else {
        new_content := new_content + line;
        new_content := new_content + "\n";
      }
      Appended(before, bumped[i], Lined(bumped[i + 1..]));
      assert new_content == before + (bumped[i] + "\n");
    }
    LinedNone(bumped);
  }

  lemma LinedStep(ls: seq<string>, i: nat)
    requires i < |ls|
    ensures Lined(ls[i..]) == ls[i] + ("\n" + Lined(ls[i + 1..]))
  {
    assert ls[i..][1..] == ls[i + 1..];
  }

  lemma LinedNone(ls: seq<string>)
    ensures Lined(ls[|ls|..]) == ""
  {
  }

  lemma Appended(before: string, line: string, rest: string)
    ensures before + (line + "\n") + rest == before + (line + ("\n" + rest))
  {
  }

  // --- Reading the text back -------------------------------------------------------------------

  /** A line that a text can hold. */
  predicate Whole(line: string) {
    Without(line, '\n') && (line != "" ==> line[|line| - 1] != '\r')
  }

  predicate AllWhole(ls: seq<string>) {
    forall i | 0 <= i < |ls| :: Whole(ls[i])
  }

  lemma {:induction false} LinedRead(ls: seq<string>)
    requires AllWhole(ls)
    ensures TextLines(Lined(ls)) == ls
  {
    if ls != [] {
      assert Whole(ls[0]);
      var rest := Lined(ls[1..]);
      SplitPart(ls[0], rest, '\n');
      LinedRead(ls[1..]);
      assert ([ls[0]] + Split(rest, '\n'))[1..] == Split(rest, '\n');
      assert ls == [ls[0]] + ls[1..];
    }
  }

  // --- Replacing and replacing back ---------------------------------------------------------------

  /**
   In the replaced text the new word occurs only where it was put: at no other place that the
   backward replacement looks at does it begin.
   */
  predicate OnlyPut(s: string, w: string, put: string)
    requires w != ""
    decreases |s|
  {
    if w <= s then OnlyPut(s[|w|..], w, put)
    else if s == "" then true
    else !(put <= ReplaceAll(s, w, put)) && OnlyPut(s[1..], w, put)
  }

  /** Replacing back restores the text exactly when the new word occurs only where it was put. */
  lemma {:induction false} ReplaceBack(s: string, w: string, put: string)
    requires w != "" && put != ""
    ensures ReplaceAll(ReplaceAll(s, w, put), put, w) == s <==> OnlyPut(s, w, put)
    decreases |s|
  {
    if w <= s {
      ReplaceBack(s[|w|..], w, put);
      BackHit(s, w, put);
    } else if s != "" {
      ReplaceBack(s[1..], w, put);
      BackMiss(s, w, put);
    }
  }

  lemma BackHit(s: string, w: string, put: string)
    requires w != "" && put != "" && w <= s
    ensures var rest := s[|w|..];
            ReplaceAll(ReplaceAll(s, w, put), put, w) == s <==> ReplaceAll(ReplaceAll(rest, w, put), put, w) == rest
  {
    var rest := s[|w|..];
    var r := put + ReplaceAll(rest, w, put);
    assert put <= r && r[|put|..] == ReplaceAll(rest, w, put);
    assert s == w + rest;
    SamePrefix(w, ReplaceAll(ReplaceAll(rest, w, put), put, w), rest);
  }

  lemma BackMiss(s: string, w: string, put: string)
    requires w != "" && put != "" && !(w <= s) && s != ""
    ensures var r := ReplaceAll(s, w, put);
            ReplaceAll(r, put, w) == s <==>
            !(put <= r) && ReplaceAll(ReplaceAll(s[1..], w, put), put, w) == s[1..]
  {
    var r := [s[0]] + ReplaceAll(s[1..], w, put);
    assert r[1..] == ReplaceAll(s[1..], w, put);
    if put <= r {
      assert w <= w + ReplaceAll(r[|put|..], put, w);
    } else {
      SamePrefix([s[0]], ReplaceAll(r[1..], put, w), s[1..]);
      assert s == [s[0]] + s[1..];
    }
  }

  lemma SamePrefix(a: string, b: string, c: string)
    ensures a + b == a + c <==> b == c
  {
    if a + b == a + c {
      assert b == (a + b)[|a|..];
      assert c == (a + c)[|a|..];
    }
  }

  // --- Bumping back ---------------------------------------------------------------------------------

  /** What has to hold of a line for the way back. */
  predicate Reversible(line: string, old_version: string, new_version: string)
    requires old_version != ""
  {
    if ArgVersion <= line then line == ArgVersion + old_version
    else !(ArgVersion <= ReplaceAll(line, old_version, new_version)) && OnlyPut(line, old_version, new_version)
  }

  /** A bumped line bumped back is the old line exactly when the line is reversible. */
  lemma LineBack(line: string, old_version: string, new_version: string)
    requires old_version != "" && new_version != ""
    ensures BumpLine(BumpLine(line, old_version, new_version), new_version, old_version) == line <==>
            Reversible(line, old_version, new_version)
  {
    var bumped := ReplaceAll(line, old_version, new_version);
    if ArgVersion <= line {
      assert ArgVersion <= ArgVersion + new_version;
    } else {
      if !Has(line, old_version) {
        NothingToReplace(line, old_version, new_version);
      }
      if !Has(bumped, new_version) {
        NothingToReplace(bumped, new_version, old_version);
      }
      ReplaceBack(line, old_version, new_version);
      assert ArgVersion <= ArgVersion + old_version;
    }
  }

  /** Bumping back restores the lines exactly when every line is reversible. */
  lemma BumpBack(ls: seq<string>, old_version: string, new_version: string)
    requires old_version != "" && new_version != ""
    ensures BumpAll(BumpAll(ls, old_version, new_version), new_version, old_version) == ls <==>
            forall i | 0 <= i < |ls| :: Reversible(ls[i], old_version, new_version)
  {
    hide BumpLine;
    hide Reversible;
    var back := BumpAll(BumpAll(ls, old_version, new_version), new_version, old_version);
    forall i | 0 <= i < |ls| ensures back[i] == ls[i] <==> Reversible(ls[i], old_version, new_version) {
      LineBack(ls[i], old_version, new_version);
    }
  }

  function Breaks(s: string): nat {
    if s == "" then 0 else (if s[0] == '\n' then 1 else 0) + Breaks(s[1..])
  }

  lemma {:induction false} BreaksAppend(a: string, b: string)
    ensures Breaks(a + b) == Breaks(a) + Breaks(b)
  {
    if a == "" {
      assert a + b == b;
    } else {
      assert (a + b)[1..] == a[1..] + b;
      BreaksAppend(a[1..], b);
    }
  }

  lemma {:induction false} BreaksNone(s: string)
    ensures Breaks(s) == 0 <==> Without(s, '\n')
  {
    if s != "" {
      BreaksNone(s[1..]);
      assert Without(s, '\n') <==> s[0] != '\n' && Without(s[1..], '\n');
    }
  }

  predicate Unbroken(ls: seq<string>) {
    forall i | 0 <= i < |ls| :: Without(ls[i], '\n')
  }

  /** A text of lines has as many breaks as lines exactly when no line holds one. */
  lemma {:induction false} LinedBreaks(ls: seq<string>)
    ensures Breaks(Lined(ls)) >= |ls|
    ensures Breaks(Lined(ls)) == |ls| <==> Unbroken(ls)
  {
    if ls != [] {
      LinedBreaks(ls[1..]);
      BreaksNone(ls[0]);
      BreaksAppend(ls[0], "\n" + Lined(ls[1..]));
      assert ("\n" + Lined(ls[1..]))[1..] == Lined(ls[1..]);
      assert Unbroken(ls) <==> Without(ls[0], '\n') && Unbroken(ls[1..]);
    }
  }

  lemma {:induction false} LinedSplit(ls: seq<string>)
    requires Unbroken(ls)
    ensures Split(Lined(ls), '\n') == ls + [""]
  {
    if ls != [] {
      SplitPart(ls[0], Lined(ls[1..]), '\n');
      LinedSplit(ls[1..]);
    }
  }

  /** As many lines give the same text only if they are the same lines. */
  lemma LinedSame(a: seq<string>, b: seq<string>)
    requires |a| == |b| && Unbroken(a)
    ensures Lined(a) == Lined(b) <==> a == b
  {
    if Lined(a) == Lined(b) {
      LinedBreaks(a);
      LinedBreaks(b);
      LinedSplit(a);
      LinedSplit(b);
      assert a == (a + [""])[..|a|] && b == (b + [""])[..|a|];
    }
  }

  lemma {:induction false} LinesUnbroken(parts: seq<string>)
    requires forall part | part in parts :: Without(part, '\n')
    ensures Unbroken(LinesOf(parts))
  {
    if |parts| > 1 {
      LinesUnbroken(parts[1..]);
      assert parts[0] in parts;
    }
  }

  /** Bumping back a text whose bumped lines survive being written restores it exactly when every line is reversible. */
  lemma TextBack(content: string, old_version: string, new_version: string)
    requires old_version != "" && new_version != ""
    requires AllWhole(BumpAll(TextLines(content), old_version, new_version))
    ensures var lines := TextLines(content);
            var bumped := Lined(BumpAll(lines, old_version, new_version));
            Lined(BumpAll(TextLines(bumped), new_version, old_version)) == Lined(lines) <==>
            forall i | 0 <= i < |lines| :: Reversible(lines[i], old_version, new_version)
  {
    var lines := TextLines(content);
    var bumped := BumpAll(lines, old_version, new_version);
    SplitWithout(content, '\n', '\n');
    LinesUnbroken(Split(content, '\n'));
    hide TextLines;
    hide BumpLine;
    hide Reversible;
    hide AllWhole;
    LinedRead(bumped);
    BumpBack(lines, old_version, new_version);
    LinedSame(lines, BumpAll(bumped, new_version, old_version));
  }

  // --- Bumping and extracting ------------------------------------------------------------------------

  /** `ARG`, blanks and a version argument, or blanks up to the end of the line. */
  predicate VersionHere(s: string) {
    "ARG" <= s &&
    var t := s[3..];
    var n := Run(t, Blank);
    n == |t| || (n > 0 && VersionArg(t[n..]).Hit?)
  }

  /** No version argument starts in the line. */
  predicate VersionFree(line: string) {
    forall i | 0 <= i <= |line| :: !VersionHere(line[i..])
  }

  /** A line end in front of what is missing hides nothing. */
  lemma ArgumentStops(t: string, rest: string)
    requires t != "" && !White(t[0]) && VersionArg(t).Miss?
    ensures VersionArg(t + ("\n" + rest)).Miss?
  {
    var s := t + ("\n" + rest);
    assert s[|t|] == '\n';
    if "VERSION=" <= s {
      assert s[..8][7] == '=' && |t| >= 8;
      assert t[..8] == s[..8];
      var q := if |s| > 8 && s[8] == '"' then 9 else 8;
      if |t| >= q && t[8..] != "" {
        assert Run(t[q..], Unquoted) == 0;
        assert s[q] == if q < |t| then t[q] else '\n';
      }
      assert s[q..][0] == s[q];
    }
  }

  lemma HereMiss(s: string, rest: string)
    requires !VersionHere(s)
    ensures Match(s + ("\n" + rest), Version) == Miss
  {
    hide VersionArg;
    var whole := s + ("\n" + rest);
    if "ARG" <= whole {
      ArgInside(s, rest);
      var t := s[3..];
      var n := Run(t, Blank);
      assert whole[3..] == t + ("\n" + rest);
      RunIs(whole[3..], n, Blank);
      if n > 0 {
        ArgumentStops(t[n..], rest);
        assert whole[3..][n..] == t[n..] + ("\n" + rest);
      }
    }
  }

  lemma ArgInside(s: string, rest: string)
    requires "ARG" <= s + ("\n" + rest)
    ensures "ARG" <= s
  {
    var whole := s + ("\n" + rest);
    assert whole[|s|] == '\n';
    assert whole[0] == 'A' && whole[1] == 'R' && whole[2] == 'G';
  }

  lemma {:induction false} LineSkip(line: string, rest: string)
    requires VersionFree(line)
    ensures Captures(line + ("\n" + rest), Version) == Captures(rest, Version)
  {
    hide VersionHere;
    hide Match;
    hide Captures;
    var s := line + ("\n" + rest);
    assert line[0..] == line;
    HereMiss(line, rest);
    CapturesStep(s, Version);
    if line == "" {
      assert s[1..] == rest;
    } else {
      assert s[1..] == line[1..] + ("\n" + rest);
      forall i | 0 <= i <= |line[1..]| ensures !VersionHere(line[1..][i..]) {
        assert line[1..][i..] == line[i + 1..];
      }
      LineSkip(line[1..], rest);
    }
  }

  lemma {:induction false} LinesSkip(ls: seq<string>, rest: string)
    requires forall i | 0 <= i < |ls| :: VersionFree(ls[i])
    ensures Captures(Lined(ls) + rest, Version) == Captures(rest, Version)
  {
    hide VersionFree;
    hide Captures;
    if ls == [] {
      assert Lined(ls) + rest == rest;
    } else {
      assert Lined(ls) + rest == ls[0] + ("\n" + (Lined(ls[1..]) + rest));
      LineSkip(ls[0], Lined(ls[1..]) + rest);
      LinesSkip(ls[1..], rest);
    }
  }

  lemma {:induction false} LinedAppend(a: seq<string>, b: seq<string>)
    ensures Lined(a + b) == Lined(a) + Lined(b)
  {
    if a == [] {
      assert a + b == b;
    } else {
      assert (a + b)[1..] == a[1..] + b;
      LinedAppend(a[1..], b);
    }
  }

  /**
   The new version is extracted from a bumped text exactly when it is one unquoted word, provided
   that no version argument starts in an earlier line of the bumped text. Other arguments may.
   */
  lemma BumpedVersionRead(ls: seq<string>, n: nat, old_version: string, new_version: string)
    requires n < |ls| && ArgVersion <= ls[n]
    requires forall i | 0 <= i < n :: VersionFree(BumpLine(ls[i], old_version, new_version))
    ensures Extract.ExtractVersion(Lined(BumpAll(ls, old_version, new_version))) == Some(new_version) <==>
            Token(new_version)
  {
    hide VersionFree;
    hide Lined;
    var bumped := BumpAll(ls, old_version, new_version);
    var text := Lined(bumped);
    VersionIsToken(text);
    if Token(new_version) {
      var line := ArgVersion + new_version;
      assert bumped == bumped[..n] + ([line] + bumped[n + 1..]);
      hide BumpAll;
      hide BumpLine;
      LinedAppend(bumped[..n], [line] + bumped[n + 1..]);
      LinedStep([line] + bumped[n + 1..], 0);
      assert ([line] + bumped[n + 1..])[0..] == [line] + bumped[n + 1..];
      assert ([line] + bumped[n + 1..])[1..] == bumped[n + 1..];
      var rest := "\n" + Lined(bumped[n + 1..]);
      ArgRegroup(new_version, rest);
      LinesSkip(bumped[..n], line + rest);
      VersionScan(new_version, rest);
    }
  }

  /** An argument of another name above the version stands in no way. */
  lemma OtherArgumentFree(name: string)
    requires name != "" && !White(name[0]) && !("VERSION=" <= name) && Quiet(name, Version)
    ensures VersionFree("ARG " + name)
  {
    hide Quiet;
    hide VersionHere;
    var line := "ARG " + name;
    forall i | 0 <= i <= |line| ensures !VersionHere(line[i..]) {
      if i < 4 {
        OtherKeyword(name, i);
      } else {
        assert line[i..] == name[i - 4..];
        QuietIsFree(name, i - 4);
      }
    }
  }

  lemma OtherKeyword(name: string, i: nat)
    requires name != "" && !White(name[0]) && !("VERSION=" <= name) && i < 4
    ensures !VersionHere(("ARG " + name)[i..])
  {
    hide VersionArg;
    var line := "ARG " + name;
    if i == 0 {
      assert line[0..][3..] == " " + name && (" " + name)[1..] == name;
      RunIs(" " + name, 1, Blank);
      NoVersionArg(name);
    } else {
      assert line[i..][0] == line[i] != 'A';
    }
  }

  lemma NoVersionArg(name: string)
    requires !("VERSION=" <= name)
    ensures VersionArg(name).Miss?
  {
  }

  lemma QuietIsFree(s: string, i: nat)
    requires Quiet(s, Version) && i <= |s|
    ensures !VersionHere(s[i..])
  {
    assert !Hot(s[i..], Version);
    var t := s[i..];
    if "ARG" <= t {
      assert |t| > 3 && t[3..][0] == t[3];
      RunIs(t[3..], 0, Blank);
    }
  }

  lemma ArgRegroup(v: string, rest: string)
    ensures ArgVersion + v + rest == "ARG" + (" " + ("VERSION=" + (v + rest)))
  {
  }
}
