/** Where the verify lines stand, and what they check. */
module BulkTheorem {
  import opened Text
  import opened Lines
  import opened BulkChecksums

  // --- The places ----------------------------------------------------------------------------

  /** The insertion k puts a verify line below line i. */
  predicate Puts(ps: seq<Insertion>, k: nat, i: nat) {
    k < |ps| && ps[k].index == i && ps[k].output != ""
  }

  /** ks are the insertions for line i, the last of the list first. */
  ghost predicate PutsAre(ps: seq<Insertion>, i: nat, ks: seq<nat>) {
    && (forall k :: k in ks <==> Puts(ps, k, i))
    && (forall a, b | 0 <= a < b < |ks| :: ks[a] > ks[b])
  }

  /** A download line and the verify lines below it. */
  predicate Verified(line: string, ps: seq<Insertion>, ks: seq<nat>, part: seq<string>) {
    && |part| == 1 + |ks|
    && (if ks == [] then part[0] == line
        else if EndsSlash(line) then part[0] == line
        else part[0] == RStrip(line) + (" &" + "& \\"))
    && forall a | 0 <= a < |ks| :: ks[a] < |ps| && part[a + 1] == VerifyLine(line, ps[ks[a]])
  }

  ghost predicate PlacedOne(lines: seq<string>, ps: seq<Insertion>, i: nat, now: seq<string>, from: nat, to: nat)
    requires i < |lines|
  {
    from <= to <= |now| && exists ks :: PutsAre(ps, i, ks) && Verified(lines[i], ps, ks, now[from..to])
  }

  /** at[i] is the place of line first + i. */
  ghost predicate Placed(lines: seq<string>, ps: seq<Insertion>, first: nat, now: seq<string>, at: seq<nat>) {
    && first <= |lines| && |at| == |lines| - first + 1 && at[0] == 0 && at[|at| - 1] == |now|
    && forall i | 0 <= i < |lines| - first :: PlacedOne(lines, ps, first + i, now, at[i], at[i + 1])
  }

  lemma {:induction false} PutsOf(line: string, ps: seq<Insertion>, i: nat) returns (ks: seq<nat>)
    ensures PutsAre(ps, i, ks) && |ks| == |Below(line, ps, i)|
    ensures forall a | 0 <= a < |ks| :: ks[a] < |ps| && Below(line, ps, i)[a] == VerifyLine(line, ps[ks[a]])
  {
    hide VerifyLine;
    if ps == [] {
      ks := [];
    } else {
      var n := |ps| - 1;
      var rest := PutsOf(line, ps[..n], i);
      assert forall k: nat :: Puts(ps[..n], k, i) <==> k < n && Puts(ps, k, i);
      BelowStep(line, ps, i);
      hide Below;
      ks := (if Puts(ps, n, i) then [n] else []) + rest;
    }
  }

  lemma AtPlaced(lines: seq<string>, ps: seq<Insertion>, i: nat, now: seq<string>)
    requires i < |lines| && |At(lines, ps, i)| <= |now| && now[..|At(lines, ps, i)|] == At(lines, ps, i)
    ensures PlacedOne(lines, ps, i, now, 0, |At(lines, ps, i)|)
  {
    hide VerifyLine;
    hide EndsSlash;
    var ks := PutsOf(lines[i], ps, i);
    hide Below;
    hide PutsAre;
    var part := At(lines, ps, i);
    assert now[0..|part|] == part;
    assert Verified(lines[i], ps, ks, part);
  }

  lemma PlacedFurther(lines: seq<string>, ps: seq<Insertion>, i: nat, now: seq<string>, m: nat, from: nat, to: nat)
    requires i < |lines| && m <= |now| && PlacedOne(lines, ps, i, now[m..], from, to)
    ensures PlacedOne(lines, ps, i, now, m + from, m + to)
  {
    hide PutsAre;
    hide Verified;
    assert now[m..][from..to] == now[m + from..m + to];
  }

  /**
   Every line stands where the lines before it and their verify lines leave it, with its own verify
   lines right below it.
   */
  lemma {:induction false} InsertedPlaced(lines: seq<string>, ps: seq<Insertion>, first: nat) returns (at: seq<nat>)
    requires first <= |lines|
    ensures Placed(lines, ps, first, AllFrom(lines, ps, first), at)
    decreases |lines| - first
  {
    hide PlacedOne;
    hide At;
    var now := AllFrom(lines, ps, first);
    if first == |lines| {
      at := [0];
    } else {
      var more := InsertedPlaced(lines, ps, first + 1);
      var m := |At(lines, ps, first)|;
      assert now[..m] == At(lines, ps, first) && now[m..] == AllFrom(lines, ps, first + 1);
      hide AllFrom;
      AtPlaced(lines, ps, first, now);
      at := [0] + seq(|more|, k requires 0 <= k < |more| => m + more[k]);
      forall i | 0 <= i < |lines| - first ensures PlacedOne(lines, ps, first + i, now, at[i], at[i + 1]) {
        if i > 0 {
          PlacedFurther(lines, ps, first + i, now, m, more[i - 1], more[i]);
        }
      }
    }
  }

  // --- The verify line -----------------------------------------------------------------------

  /** The program that checks: an md5 hash is given to the usual one. */
  function Checker(checksum: string): string {
    ProgramOf(if AlgorithmOf(checksum) == Md5 then Sha256 else AlgorithmOf(checksum))
  }

  /**
   A verify line hands the hash, two blanks and the file to the program, when neither holds a quote
   or a blank: a checksum file with one entry. It is indented below its line.
   */
  lemma VerifyReads(line: string, p: Insertion)
    requires Without(p.checksum, '"') && Without(p.checksum, ' ') && Without(p.output, '"') && Without(p.output, ' ')
    ensures var indent, parts := line[..Span(line)], Split(VerifyLine(line, p), '"');
            && |parts| == 3
            && Strip(parts[0]) == "echo" && indent <= parts[0]
            && Split(parts[1], ' ') == [Printed(p.checksum), "", p.output]
            && parts[2] == " | " + (Checker(p.checksum) + (" -c -" + " || true"))
  {
    var indent, hash := line[..Span(line)], Printed(p.checksum);
    var front, middle, tail := indent + "    echo ", hash + ("  " + p.output), " | " + (Command(p.checksum) + " || true");
    ProgramPlain(p.checksum);
    EchoLine(indent, front);
    assert Without(hash, '"') && Without(hash, ' ');
    VerifyIs(line, p);
    hide *;
    WithoutBoth(hash, "  " + p.output, '"');
    WithoutBoth("  ", p.output, '"');
    QuotedParts(front, middle, tail);
    EntryParts(hash, p.output);
    PrefixOf(indent, "    echo ");
  }

  lemma PrefixOf(a: string, b: string)
    ensures a <= a + b
  {
  }

  lemma WithoutBoth(a: string, b: string, c: char)
    requires Without(a, c) && Without(b, c)
    ensures Without(a + b, c)
  {
  }

  lemma QuotedParts(a: string, b: string, c: string)
    requires Without(a, '"') && Without(b, '"') && Without(c, '"')
    ensures Split(a + ("\"" + (b + ("\"" + c))), '"') == [a, b, c]
  {
    SplitPart(a, b + ("\"" + c), '"');
    SplitPart(b, c, '"');
    SplitWhole(c, '"');
  }

  lemma EntryParts(hash: string, file: string)
    requires Without(hash, ' ') && Without(file, ' ')
    ensures Split(hash + ("  " + file), ' ') == [hash, "", file]
  {
    assert "" + (" " + file) == " " + file && "  " + file == " " + (" " + file);
    SplitPart(hash, " " + file, ' ');
    SplitPart("", file, ' ');
    SplitWhole(file, ' ');
  }

  lemma EchoLine(indent: string, front: string)
    requires Blank(indent) && front == indent + "    echo "
    ensures Strip(front) == "echo" && Without(front, '"')
  {
    var pre := indent + "    ";
    assert front == pre + ("echo" + " ");
    StripOf(pre, "echo", " ");
    assert forall i | 0 <= i < |indent| :: Space(indent[i]) && indent[i] != '"';
  }

  lemma ProgramPlain(checksum: string)
    ensures Command(checksum) == Checker(checksum) + " -c -"
    ensures Without(" | " + (Command(checksum) + " || true"), '"')
    ensures " | " + (Command(checksum) + " || true") == " | " + (Checker(checksum) + (" -c -" + " || true"))
  {
    hide *;
    CheckerIs(checksum);
    WithoutBoth(Checker(checksum), " -c -", '"');
    WithoutBoth(Command(checksum), " || true", '"');
    WithoutBoth(" | ", Command(checksum) + " || true", '"');
  }

  lemma CheckerIs(checksum: string)
    ensures Command(checksum) == Checker(checksum) + " -c -"
    ensures Without(Checker(checksum), '"')
  {
    CheckedExactly(checksum);
    hide AlgorithmOf;
  }

  lemma VerifyIs(line: string, p: Insertion)
    ensures VerifyLine(line, p) ==
            (line[..Span(line)] + "    echo ") +
            ("\"" + ((Printed(p.checksum) + ("  " + p.output)) + ("\"" + (" | " + (Command(p.checksum) + " || true")))))
  {
    hide Printed;
    hide Command;
  }
}
