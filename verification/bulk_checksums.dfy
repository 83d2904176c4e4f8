/** populate_bulk_checksums.py: inserting verify lines from the bottom up, and the budget of API calls. */
module BulkChecksums {
  import opened Text
  import opened Lines
  import opened Sorting

  // --- One verify line ---------------------------------------------------------------------

  /** `value[n:]` */
  function From(s: string, n: nat): string {
    if n <= |s| then s[n..] else ""
  }

  /** The checksum as printed; seven characters go for sha1 as well. */
  function Printed(checksum: string): string {
    if "sha512:" <= checksum || "sha1:" <= checksum then From(checksum, 7) else checksum
  }

  function Command(checksum: string): string {
    if "sha512:" <= checksum then "sha512sum -c -"
    else if "sha1:" <= checksum then "sha1sum -c -"
    else "sha256sum -c -"
  }

  /** A checksum for the download on a line. */
  datatype Insertion = Insertion(index: nat, checksum: string, output: string)

  function VerifyLine(line: string, p: Insertion): string {
    line[..Span(line)] + ("    echo \"" + (Printed(p.checksum) + ("  " + (p.output + ("\" | " + (Command(p.checksum) + " || true"))))))
  }

  /** The download line, made to go on. */
  function Marked(line: string): string {
    if EndsSlash(line) then line else RStrip(line) + " && \\"
  }

  /** `insert_checksum_new`: line is the download line as it was found. */
  function InsertOne(lines: seq<string>, line: string, p: Insertion): seq<string>
    requires p.index < |lines|
  {
    if p.output == "" then lines else
    lines[..p.index] +
    ([if EndsSlash(line) then lines[p.index] else Marked(line), VerifyLine(line, p)] + lines[p.index + 1..])
  }

  /** A hash without the name of its algorithm. */
  function HashOf(checksum: string): string {
    if "sha512:" <= checksum then From(checksum, 7)
    else if "sha1:" <= checksum then From(checksum, 5)
    else if "md5:" <= checksum then From(checksum, 4)
    else checksum
  }

  /** What is printed is the hash, except that a sha1 hash loses two digits and an md5 hash keeps its name. */
  lemma PrintedExactly(checksum: string)
    ensures Printed(checksum) == HashOf(checksum) <==>
            !("sha1:" <= checksum && |checksum| > 5) && !("md5:" <= checksum)
    ensures "sha1:" <= checksum && |checksum| >= 7 ==> Printed(checksum) == HashOf(checksum)[2..]
  {
    assert "sha1:"[3] == '1' && "sha512:"[3] == '5' && "md5:"[0] == 'm';
    assert "sha512:" <= checksum ==> checksum[3] == '5' && checksum[0] == 's';
    assert "sha1:" <= checksum ==> checksum[3] == '1' && checksum[0] == 's';
    assert "md5:" <= checksum ==> checksum[0] == 'm';
  }

  datatype Algorithm = Sha512 | Sha1 | Md5 | Sha256

  /** The algorithm that a checksum names; without a name it is the usual one. */
  function AlgorithmOf(checksum: string): Algorithm {
    if "sha512:" <= checksum then Sha512 else if "sha1:" <= checksum then Sha1 else if "md5:" <= checksum then Md5 else Sha256
  }

  function ProgramOf(a: Algorithm): string {
    match a
    case Sha512 => "sha512sum"
    case Sha1 => "sha1sum"
    case Md5 => "md5sum"
    case Sha256 => "sha256sum"
  }

  /** A hash is checked with the program of its own algorithm, except that an md5 hash is given to the usual one. */
  lemma CheckedExactly(checksum: string)
    ensures Command(checksum) == ProgramOf(AlgorithmOf(checksum)) + " -c -" <==> AlgorithmOf(checksum) != Md5
    ensures AlgorithmOf(checksum) == Md5 ==> Command(checksum) == ProgramOf(Sha256) + " -c -"
  {
    assert "sha1:"[3] == '1' && "sha512:"[3] == '5' && "md5:"[0] == 'm';
    assert "sha512:" <= checksum ==> checksum[3] == '5' && checksum[0] == 's';
    assert "sha1:" <= checksum ==> checksum[3] == '1' && checksum[0] == 's';
    assert "md5:" <= checksum ==> checksum[0] == 'm';
    assert ProgramOf(Md5)[0] == 'm' && ProgramOf(Sha256)[0] == 's';
  }

  // --- All of them at once -------------------------------------------------------------------

  /** The verify lines below line i, the one inserted last on top. */
  function Below(line: string, ps: seq<Insertion>, i: nat): seq<string> {
    if ps == [] then [] else
    var p := ps[|ps| - 1];
    (if p.index == i && p.output != "" then [VerifyLine(line, p)] else []) + Below(line, ps[..|ps| - 1], i)
  }

  /** What line i becomes. */
  function At(lines: seq<string>, ps: seq<Insertion>, i: nat): seq<string>
    requires i < |lines|
  {
    var below := Below(lines[i], ps, i);
    if below == [] then [lines[i]] else [Marked(lines[i])] + below
  }

  /** All insertions at once, from line i on. */
  function AllFrom(lines: seq<string>, ps: seq<Insertion>, i: nat): seq<string>
    requires i <= |lines|
    decreases |lines| - i
  {
    if i == |lines| then [] else At(lines, ps, i) + AllFrom(lines, ps, i + 1)
  }

  predicate Fit(lines: seq<string>, ps: seq<Insertion>) {
    forall k | 0 <= k < |ps| :: ps[k].index < |lines|
  }

  /** The order of the loop: the last line first. */
  predicate LowestFirst(p: Insertion, q: Insertion) {
    p.index >= q.index
  }

  /** The loop: every insertion uses the number that its line had in the original file. */
  method InsertAll(content: seq<string>, insertions: seq<Insertion>) returns (current: seq<string>)
    requires Fit(content, insertions)
    ensures current == AllFrom(content, insertions, 0)
  {
    hide AllFrom;
    hide InsertOne;
    hide Sort;
    var ps := Sort(insertions, LowestFirst);
    SortOrdered(insertions, LowestFirst);
    SortedFit(content, insertions);
    SameBelow(content, insertions, 0);
    current := content;
    NothingYet(content, 0);
    assert content[0..] == content && ps[..0] == [];
    for k := 0 to |ps|
      invariant current == AllFrom(content, ps[..k], 0)
      invariant |current| >= |content|
    {
      OneMore(content, ps[..k], ps[k]);
      assert ps[..k + 1] == ps[..k] + [ps[k]];
      current := InsertOne(current, content[ps[k].index], ps[k]);
    }
    assert ps[..|ps|] == ps;
  }

  // --- Sorting ---------------------------------------------------------------------------------

  lemma SortedFit(lines: seq<string>, ps: seq<Insertion>)
    requires Fit(lines, ps)
    ensures Fit(lines, Sort(ps, LowestFirst))
  {
    SortBag(ps, LowestFirst);
    var s := Sort(ps, LowestFirst);
    SameElements(s, ps);
    forall k | 0 <= k < |s| ensures s[k].index < |lines| {
      assert s[k] in s;
    }
  }

  lemma BelowStep(line: string, ps: seq<Insertion>, i: nat)
    requires ps != []
    ensures var p := ps[|ps| - 1];
            Below(line, ps, i) ==
            (if p.index == i && p.output != "" then [VerifyLine(line, p)] else []) + Below(line, ps[..|ps| - 1], i)
  {
    hide VerifyLine;
  }

  lemma {:induction false} BelowAppend(line: string, a: seq<Insertion>, b: seq<Insertion>, i: nat)
    ensures Below(line, a + b, i) == Below(line, b, i) + Below(line, a, i)
  {
    hide VerifyLine;
    hide Below;
    if b == [] {
      assert a + b == a;
      NoneBelow(line, i);
    } else {
      assert (a + b)[..|a + b| - 1] == a + b[..|b| - 1];
      BelowStep(line, b, i);
      BelowStep(line, a + b, i);
      BelowAppend(line, a, b[..|b| - 1], i);
    }
  }

  lemma NoneBelow(line: string, i: nat)
    ensures Below(line, [], i) == []
  {
  }

  lemma BelowOne(line: string, p: Insertion, i: nat)
    ensures Below(line, [p], i) == if p.index == i && p.output != "" then [VerifyLine(line, p)] else []
  {
    hide VerifyLine;
    assert [p][..0] == [];
  }

  /** Sorting keeps the order of the insertions for one line. */
  lemma {:induction false} InsertedBelow(line: string, p: Insertion, ps: seq<Insertion>, i: nat)
    ensures Below(line, Insert(p, ps, LowestFirst), i) == Below(line, ps, i) + Below(line, [p], i)
  {
    hide VerifyLine;
    hide Below;
    if ps == [] || p.index >= ps[0].index {
      BelowAppend(line, [p], ps, i);
    } else {
      InsertedBelow(line, p, ps[1..], i);
      assert ps == [ps[0]] + ps[1..];
      BelowAppend(line, [ps[0]], ps[1..], i);
      BelowAppend(line, [ps[0]], Insert(p, ps[1..], LowestFirst), i);
      NotBoth(line, ps[1..], ps[0], p, i);
    }
  }

  lemma NotBoth(line: string, rest: seq<Insertion>, q: Insertion, p: Insertion, i: nat)
    requires p.index != q.index
    ensures Below(line, rest, i) + Below(line, [p], i) + Below(line, [q], i) ==
            Below(line, rest, i) + Below(line, [q], i) + Below(line, [p], i)
  {
    hide VerifyLine;
    BelowOne(line, q, i);
    BelowOne(line, p, i);
  }

  lemma {:induction false} SortedBelow(line: string, ps: seq<Insertion>, i: nat)
    ensures Below(line, Sort(ps, LowestFirst), i) == Below(line, ps, i)
  {
    hide VerifyLine;
    if ps != [] {
      SortedBelow(line, ps[1..], i);
      InsertedBelow(line, ps[0], Sort(ps[1..], LowestFirst), i);
      assert ps == [ps[0]] + ps[1..];
      BelowAppend(line, [ps[0]], ps[1..], i);
    }
  }

  lemma {:induction false} SameBelow(lines: seq<string>, ps: seq<Insertion>, i: nat)
    requires i <= |lines|
    ensures AllFrom(lines, Sort(ps, LowestFirst), i) == AllFrom(lines, ps, i)
    decreases |lines| - i
  {
    hide Below;
    hide Marked;
    hide Sort;
    if i < |lines| {
      SortedBelow(lines[i], ps, i);
      SameBelow(lines, ps, i + 1);
    }
  }

  // --- One insertion more -----------------------------------------------------------------------

  lemma {:induction false} NothingYet(lines: seq<string>, i: nat)
    requires i <= |lines|
    ensures AllFrom(lines, [], i) == lines[i..]
    decreases |lines| - i
  {
    if i < |lines| {
      NothingYet(lines, i + 1);
      assert lines[i..] == [lines[i]] + lines[i + 1..];
    }
  }

  lemma {:induction false} NothingBelow(line: string, ps: seq<Insertion>, i: nat)
    requires forall k | 0 <= k < |ps| :: ps[k].index != i
    ensures Below(line, ps, i) == []
  {
    if ps != [] {
      NothingBelow(line, ps[..|ps| - 1], i);
    }
  }

  lemma AloneAt(lines: seq<string>, ps: seq<Insertion>, i: nat)
    requires i < |lines| && Below(lines[i], ps, i) == []
    ensures AllFrom(lines, ps, i) == [lines[i]] + AllFrom(lines, ps, i + 1)
  {
    hide Below;
  }

  /** Above the smallest line number nothing has changed. */
  lemma {:induction false} FrontUntouched(lines: seq<string>, ps: seq<Insertion>, i: nat, j: nat)
    requires i <= j <= |lines| && forall k | 0 <= k < |ps| :: ps[k].index >= j
    ensures AllFrom(lines, ps, i) == lines[i..j] + AllFrom(lines, ps, j)
    decreases j - i
  {
    hide Below;
    hide AllFrom;
    hide At;
    if i < j {
      NothingBelow(lines[i], ps, i);
      AloneAt(lines, ps, i);
      FrontUntouched(lines, ps, i + 1, j);
      assert lines[i..j] == [lines[i]] + lines[i + 1..j];
    } else {
      assert lines[i..j] == [];
    }
  }

  lemma SameAt(lines: seq<string>, ps: seq<Insertion>, qs: seq<Insertion>, i: nat)
    requires i < |lines| && Below(lines[i], ps, i) == Below(lines[i], qs, i)
    ensures AllFrom(lines, ps, i + 1) == AllFrom(lines, qs, i + 1) ==> AllFrom(lines, ps, i) == AllFrom(lines, qs, i)
  {
    hide Below;
    hide Marked;
  }

  /** An insertion changes nothing below its own line. */
  lemma {:induction false} BackUntouched(lines: seq<string>, ps: seq<Insertion>, p: Insertion, i: nat)
    requires p.index < i <= |lines|
    ensures AllFrom(lines, ps + [p], i) == AllFrom(lines, ps, i)
    decreases |lines| - i
  {
    hide Below;
    hide At;
    hide VerifyLine;
    if i < |lines| {
      BelowAppend(lines[i], ps, [p], i);
      BelowOne(lines[i], p, i);
      assert [] + Below(lines[i], ps, i) == Below(lines[i], ps, i);
      BackUntouched(lines, ps, p, i + 1);
      hide AllFrom;
      SameAt(lines, ps + [p], ps, i);
    }
  }

  /** The insertion for the smallest line so far does what all at once would do. */
  lemma OneMore(lines: seq<string>, ps: seq<Insertion>, p: Insertion)
    requires p.index < |lines| && forall k | 0 <= k < |ps| :: ps[k].index >= p.index
    ensures p.index < |AllFrom(lines, ps, 0)|
    ensures InsertOne(AllFrom(lines, ps, 0), lines[p.index], p) == AllFrom(lines, ps + [p], 0)
    ensures |AllFrom(lines, ps + [p], 0)| >= |AllFrom(lines, ps, 0)|
  {
    hide Below;
    hide Marked;
    hide VerifyLine;
    hide EndsSlash;
    hide AllFrom;
    hide At;
    hide InsertOne;
    var j, line := p.index, lines[p.index];
    FrontUntouched(lines, ps, 0, j);
    FrontUntouched(lines, ps + [p], 0, j);
    BackUntouched(lines, ps, p, j + 1);
    BelowAppend(line, ps, [p], j);
    BelowOne(line, p, j);
    AtSplit(lines, ps, j);
    AtSplit(lines, ps + [p], j);
    PartsMore(lines[0..j], line, Below(line, ps, j), AllFrom(lines, ps, j + 1), p);
  }

  lemma PartsMore(front: seq<string>, line: string, below: seq<string>, rest: seq<string>, p: Insertion)
    requires p.index == |front|
    ensures var more := (if p.output != "" then [VerifyLine(line, p)] else []) + below;
            InsertOne(front + ([if below == [] then line else Marked(line)] + (below + rest)), line, p) ==
            front + ([if more == [] then line else Marked(line)] + (more + rest))
  {
    hide VerifyLine;
    hide EndsSlash;
    MarkedSlash(line);
    hide Marked;
    var top := if below == [] then line else Marked(line);
    InsertThere(front, top, below + rest, line, p);
    hide InsertOne;
    assert [VerifyLine(line, p)] + below + rest == [VerifyLine(line, p)] + (below + rest);
    assert [] + below == below;
  }

  /** A line and what stands below it, in two parts. */
  lemma AtSplit(lines: seq<string>, ps: seq<Insertion>, j: nat)
    requires j < |lines|
    ensures var below := Below(lines[j], ps, j);
            AllFrom(lines, ps, j) ==
            [if below == [] then lines[j] else Marked(lines[j])] + (below + AllFrom(lines, ps, j + 1))
  {
    hide Below;
    hide Marked;
    var below, rest := Below(lines[j], ps, j), AllFrom(lines, ps, j + 1);
    assert [Marked(lines[j])] + below + rest == [Marked(lines[j])] + (below + rest);
    assert below == [] ==> below + rest == rest;
  }

  lemma MarkedSlash(line: string)
    ensures EndsSlash(line) ==> Marked(line) == line
  {
  }

  lemma InsertThere(front: seq<string>, top: string, rest: seq<string>, line: string, p: Insertion)
    requires p.index == |front| && (EndsSlash(line) ==> top == line)
    ensures InsertOne(front + ([top] + rest), line, p) ==
            if p.output == "" then front + ([top] + rest) else front + ([Marked(line)] + ([VerifyLine(line, p)] + rest))
  {
    hide EndsSlash;
    hide VerifyLine;
    MarkedSlash(line);
    hide Marked;
    var ls := front + ([top] + rest);
    assert ls[..|front|] == front && ls[|front| + 1..] == rest && ls[|front|] == top;
    assert [Marked(line), VerifyLine(line, p)] + rest == [Marked(line)] + ([VerifyLine(line, p)] + rest);
  }
}
