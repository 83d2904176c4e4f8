/** What a proposal does to the scan of a Dockerfile. */
module PinningTheorem {
  import opened Text
  import opened Lines
  import opened Pinning

  function FromLine(kw: string, gap: string, reference: string, tail: string): string {
    kw + (gap + (reference + tail))
  }

  /** The parts of a FROM line. */
  lemma FromShape(line: string) returns (kw: string, gap: string, tail: string)
    requires FromRef(line).Some?
    ensures line == FromLine(kw, gap, FromRef(line).value, tail) && kw == Word(line)
    ensures |kw| == 4 && Upper(kw) == "FROM" && (forall i | 0 <= i < 4 :: !Space(kw[i]))
    ensures Blank(gap) && gap != "" && Solid(FromRef(line).value)
    ensures (tail == "" || Space(tail[0])) && StageEnd(tail)
  {
    hide StageEnd;
    hide Word;
    hide Tail;
    hide Unspaced;
    kw := Word(line);
    assert |Upper(kw)| == |kw|;
    var rest := Tail(line);
    var t := Unspaced(rest);
    tail := Tail(t);
    WordParts(line);
    WordParts(t);
    gap := GapParts(rest);
    GapBehind(line, rest);
  }

  lemma WordParts(s: string)
    ensures s == Word(s) + Tail(s) && (forall i | 0 <= i < |Word(s)| :: !Space(Word(s)[i]))
    ensures (Tail(s) == "" || Space(Tail(s)[0])) && (s != "" && !Space(s[0]) ==> Word(s) != "")
  {
  }

  lemma GapParts(s: string) returns (gap: string)
    ensures s == gap + Unspaced(s) && Blank(gap) && (Unspaced(s) != "" ==> !Space(Unspaced(s)[0]))
    ensures |gap| == Span(s)
  {
    gap := s[..Span(s)];
  }

  lemma GapBehind(line: string, rest: string)
    requires rest == Tail(line) && Unspaced(rest) != ""
    ensures Span(rest) > 0
  {
    assert rest[0] == line[WordEnd(line)];
  }

  lemma ShapeIsRead(kw: string, gap: string, reference: string, tail: string)
    requires forall i | 0 <= i < |kw| :: !Space(kw[i])
    requires Blank(gap) && gap != "" && Solid(reference)
    requires (tail == "" || Space(tail[0])) && StageEnd(tail)
    ensures FromRef(FromLine(kw, gap, reference, tail)) == if Upper(kw) == "FROM" then Some(reference) else None
  {
    hide StageEnd;
    var t := reference + tail;
    WordOf(kw, gap + t);
    UnspacedOf(gap, t);
    WordOf(reference, tail);
  }

  /** Inner part of a stripped line: the last character stays, whatever the reference. */
  lemma LastStays(kw: string, gap: string, a: string, b: string, tail: string)
    requires kw != "" && Solid(a) && Solid(b)
    requires var l := FromLine(kw, gap, a, tail); !Space(l[|l| - 1])
    ensures var l := FromLine(kw, gap, b, tail); !Space(l[|l| - 1])
  {
    var l, m := FromLine(kw, gap, a, tail), FromLine(kw, gap, b, tail);
    if tail == "" {
      assert m[|m| - 1] == b[|b| - 1];
    } else {
      assert m[|m| - 1] == tail[|tail| - 1] == l[|l| - 1];
    }
  }

  lemma Regroup4(a: string, b: string, c: string, d: string, e: string)
    ensures FromLine(a, b, c, d) + e == a + (b + (c + (d + e)))
  {
  }

  /** The reference stands behind the keyword, and that is where it is replaced. */
  lemma ReplacedReference(pre: string, kw: string, gap: string, r: string, tail: string, post: string, put: string)
    requires Blank(pre) && Blank(gap) && gap != "" && Solid(r) && !Has(kw, r)
    ensures ReplaceFirst(pre + (FromLine(kw, gap, r, tail) + post), r, put) == pre + (FromLine(kw, gap, put, tail) + post)
  {
    hide Has;
    var rest := tail + post;
    Regroup4(kw, gap, r, tail, post);
    Regroup4(kw, gap, put, tail, post);
    hide FromLine;
    ReplaceBehindBlanks(pre, kw + (gap + (r + rest)), r, put);
    ReplaceBehindWord(kw, gap + (r + rest), r, put);
    ReplaceBehindBlanks(gap, r + rest, r, put);
    ReplaceAtOnce(r, rest, put);
  }

  lemma ReplaceAtOnce(r: string, rest: string, put: string)
    ensures ReplaceFirst(r + rest, r, put) == put + rest
  {
    assert (r + rest)[|r|..] == rest;
  }

  /** When the keyword holds the reference, the keyword is what is replaced. */
  lemma ReplacedKeyword(pre: string, kw: string, gap: string, r: string, tail: string, post: string, put: string)
    requires Blank(pre) && Solid(r) && Has(kw, r)
    ensures ReplaceFirst(pre + (FromLine(kw, gap, r, tail) + post), r, put) ==
            pre + (FromLine(ReplaceFirst(kw, r, put), gap, r, tail) + post)
  {
    hide Has;
    var rest := tail + post;
    Regroup4(kw, gap, r, tail, post);
    Regroup4(ReplaceFirst(kw, r, put), gap, r, tail, post);
    hide FromLine;
    hide ReplaceFirst;
    ReplaceBehindBlanks(pre, kw + (gap + (r + rest)), r, put);
    ReplaceInWord(kw, gap + (r + rest), r, put);
  }

  /** A FROM line after the first occurrence of its reference was replaced by something longer. */
  lemma PatchedLine(raw: string, put: string)
    requires FromRef(Strip(raw)).Some? && Solid(put) && |put| > |FromRef(Strip(raw)).value|
    ensures var r := FromRef(Strip(raw)).value;
            FromRef(Strip(ReplaceFirst(raw, r, put))) == if Has(Word(Strip(raw)), r) then None else Some(put)
  {
    hide Has;
    hide StageEnd;
    var line := Strip(raw);
    var r := FromRef(line).value;
    var kw, gap, tail := FromShape(line);
    var pre, post := StripParts(raw);
    hide ReplaceFirst;
    hide Strip;
    hide FromRef;
    if Has(kw, r) {
      var kw' := ReplaceFirst(kw, r, put);
      ReplacedKeyword(pre, kw, gap, r, tail, post, put);
      ReplacedSolid(kw, r, put);
      ShapeIsRead(kw', gap, r, tail);
      assert |Upper(kw')| > 4;
      PatchedStrip(pre, line, FromLine(kw', gap, r, tail), post);
    } else {
      ReplacedReference(pre, kw, gap, r, tail, post, put);
      ShapeIsRead(kw, gap, put, tail);
      LastStays(kw, gap, r, put, tail);
      PatchedStrip(pre, FromLine(kw, gap, put, tail), FromLine(kw, gap, put, tail), post);
    }
  }

  lemma PatchedStrip(pre: string, line: string, patched: string, post: string)
    requires Blank(pre) && Blank(post) && line != "" && !Space(line[|line| - 1])
    requires patched != "" && !Space(patched[0]) && patched[|patched| - 1] == line[|line| - 1]
    ensures Strip(pre + (patched + post)) == patched
  {
    StripOf(pre, patched, post);
  }

  // --- The scan ---------------------------------------------------------------------------------

  function PinnedRef(reference: string, digest: string): string {
    reference + ("@" + digest)
  }

  /** The scan with the entry of one line turned pinned. */
  function TurnPinned(es: seq<Entry>, number: nat, digest: string): seq<Entry> {
    if es == [] then [] else
    [if es[0].line == number then Entry(number, PinnedRef(es[0].reference, digest), true) else es[0]] +
    TurnPinned(es[1..], number, digest)
  }

  /** The scan without the entry of one line. */
  function Drop(es: seq<Entry>, number: nat): seq<Entry> {
    if es == [] then [] else (if es[0].line == number then [] else [es[0]]) + Drop(es[1..], number)
  }

  lemma {:induction false} TurnAppend(a: seq<Entry>, b: seq<Entry>, number: nat, digest: string)
    ensures TurnPinned(a + b, number, digest) == TurnPinned(a, number, digest) + TurnPinned(b, number, digest)
    ensures Drop(a + b, number) == Drop(a, number) + Drop(b, number)
  {
    hide PinnedRef;
    if a == [] {
      assert a + b == b;
    } else {
      assert (a + b)[1..] == a[1..] + b && (a + b)[0] == a[0];
      TurnAppend(a[1..], b, number, digest);
      TurnFirst(a, number, digest);
      TurnFirst(a + b, number, digest);
      hide TurnPinned;
      hide Drop;
    }
  }

  lemma TurnFirst(es: seq<Entry>, number: nat, digest: string)
    requires es != []
    ensures TurnPinned(es, number, digest) ==
            [if es[0].line == number then Entry(number, PinnedRef(es[0].reference, digest), true) else es[0]] +
            TurnPinned(es[1..], number, digest)
    ensures Drop(es, number) == (if es[0].line == number then [] else [es[0]]) + Drop(es[1..], number)
  {
    hide PinnedRef;
  }

  lemma EntryAlone(raw: string, number: nat)
    ensures |EntryOf(raw, number)| <= 1
    ensures EntryOf(raw, number) != [] <==> FromRef(Strip(raw)).Some?
    ensures FromRef(Strip(raw)).Some? ==>
      EntryOf(raw, number) == [Entry(number, FromRef(Strip(raw)).value, Pinned(FromRef(Strip(raw)).value))]
  {
    hide Pinned;
    if FromRef(Strip(raw)).Some? {
      FromNoComment(Strip(raw));
    }
  }

  lemma FromNoComment(line: string)
    requires FromRef(line).Some?
    ensures line != "" && line[0] != '#'
  {
    assert |Word(line)| == |Upper(Word(line))| == 4;
    assert Upper(Word(line))[0] == 'F' && Word(line)[0] == line[0];
  }

  lemma {:induction false} ScanRange(lines: seq<string>, n: nat)
    requires n <= |lines|
    ensures forall e | e in FromLines(lines, n) :: 1 <= e.line <= n
  {
    hide FromRef;
    hide Strip;
    if n > 0 {
      ScanRange(lines, n - 1);
      EntryAlone(lines[n - 1], n);
    }
  }

  lemma {:induction false} Untouched(es: seq<Entry>, number: nat, digest: string)
    requires forall e | e in es :: e.line != number
    ensures TurnPinned(es, number, digest) == es && Drop(es, number) == es
  {
    if es != [] {
      assert es[0] in es;
      assert forall e | e in es[1..] :: e in es;
      Untouched(es[1..], number, digest);
    }
  }

  /** What the scan of the first n lines becomes when line i does. */
  lemma {:induction false} Rescan(lines: seq<string>, i: nat, patched: string, digest: string, n: nat)
    requires i < |lines| && n <= |lines|
    ensures EntryOf(patched, i + 1) == TurnPinned(EntryOf(lines[i], i + 1), i + 1, digest) ==>
      FromLines(lines[i := patched], n) == TurnPinned(FromLines(lines, n), i + 1, digest)
    ensures EntryOf(patched, i + 1) == [] ==> FromLines(lines[i := patched], n) == Drop(FromLines(lines, n), i + 1)
  {
    hide EntryOf;
    hide TurnPinned;
    hide Drop;
    if n == 0 {
      NoEntries(i + 1, digest);
    } else {
      Rescan(lines, i, patched, digest, n - 1);
      var before, es := FromLines(lines, n - 1), EntryOf(lines[n - 1], n);
      TurnAppend(before, es, i + 1, digest);
      DropOne(lines[n - 1], n, i + 1, digest);
      hide FromLines;
      ScanStep(lines, n);
      ScanStep(lines[i := patched], n);
      assert lines[i := patched][n - 1] == if n - 1 == i then patched else lines[n - 1];
    }
  }

  lemma NoEntries(number: nat, digest: string)
    ensures TurnPinned([], number, digest) == [] && Drop([], number) == []
  {
  }

  lemma ScanStep(lines: seq<string>, n: nat)
    requires 0 < n <= |lines|
    ensures FromLines(lines, n) == FromLines(lines, n - 1) + EntryOf(lines[n - 1], n)
  {
  }

  lemma DropOne(raw: string, n: nat, number: nat, digest: string)
    ensures n == number ==> Drop(EntryOf(raw, n), number) == []
    ensures n != number ==> Drop(EntryOf(raw, n), number) == EntryOf(raw, n) == TurnPinned(EntryOf(raw, n), number, digest)
  {
    EntryAlone(raw, n);
    hide FromRef;
    hide Strip;
    hide Pinned;
    var es := EntryOf(raw, n);
    if es != [] {
      assert es[1..] == [];
    }
  }

  // --- The theorem --------------------------------------------------------------------------------

  predicate ProperDigest(digest: string) {
    ValidateDigest(digest) == Some(digest)
  }

  lemma DigestSolid(reference: string, digest: string)
    requires IsDigest(digest)
    ensures reference == "" || Solid(reference) ==> Solid(PinnedRef(reference, digest))
    ensures Has(PinnedRef(reference, digest), "@sha256:")
  {
    assert digest == "sha256:" + digest[7..];
    assert forall i | 0 <= i < 7 :: digest[i] == "sha256:"[i];
    assert forall i | 0 <= i < 7 :: !Space("sha256:"[i]);
    assert forall i | 0 <= i < 71 :: !Space(digest[i]);
    HasInside(reference, "@sha256:", digest[7..]);
    assert "@" + digest == "@sha256:" + digest[7..];
  }

  /**
   A proposal for a scanned entry, with a digest that came out of the validation: the new scan is
   the old one with exactly that entry turned pinned, if and only if the reference does not occur
   in the FROM keyword as it is typed. Otherwise the entry is lost.
   */
  lemma ProposalPins(lines: seq<string>, i: nat, digest: string, expanded: Option<string>, environment: map<string, string>)
    requires i < |lines| && FromRef(Strip(lines[i])).Some? && ProperDigest(digest)
    requires ProposePatch(lines, i + 1, FromRef(Strip(lines[i])).value, digest, expanded, environment).Some?
    ensures var r := FromRef(Strip(lines[i])).value;
            var patched := ProposePatch(lines, i + 1, r, digest, expanded, environment).value;
            && (Scan(lines[i := patched]) == TurnPinned(Scan(lines), i + 1, digest) <==> !Has(Word(Strip(lines[i])), r))
            && (Has(Word(Strip(lines[i])), r) ==> Scan(lines[i := patched]) == Drop(Scan(lines), i + 1))
  {
    var r := FromRef(Strip(lines[i])).value;
    PatchIsReplacement(lines, i + 1, r, digest, expanded, environment);
    hide ProposePatch;
    var put := PinnedRef(r, digest);
    var patched := ReplaceFirst(lines[i], r, put);
    PinPatched(lines[i], digest);
    hide FromRef;
    hide Strip;
    hide Has;
    hide ReplaceFirst;
    hide PinnedRef;
    EntryAlone(lines[i], i + 1);
    EntryAlone(patched, i + 1);
    hide EntryOf;
    Rescan(lines, i, patched, digest, |lines|);
    if Has(Word(Strip(lines[i])), r) {
      InScan(lines, i, |lines|);
      LostDiffers(Scan(lines), i + 1, digest);
    } else {
      TurnOne(EntryOf(lines[i], i + 1), digest);
    }
  }

  lemma TurnOne(es: seq<Entry>, digest: string)
    requires |es| == 1
    ensures TurnPinned(es, es[0].line, digest) == [Entry(es[0].line, PinnedRef(es[0].reference, digest), true)]
  {
    assert es[1..] == [];
  }

  lemma PatchIsReplacement(lines: seq<string>, number: nat, r: string, digest: string, expanded: Option<string>,
                           environment: map<string, string>)
    requires ProposePatch(lines, number, r, digest, expanded, environment).Some?
    ensures 1 <= number <= |lines|
    ensures ProposePatch(lines, number, r, digest, expanded, environment).value ==
            ReplaceFirst(lines[number - 1], r, PinnedRef(r, digest))
  {
    hide ValidateDigest;
    hide ExpandReference;
    hide HasVariable;
    hide Has;
    hide ReplaceFirst;
  }

  lemma PinPatched(raw: string, digest: string)
    requires FromRef(Strip(raw)).Some? && ProperDigest(digest)
    ensures var r := FromRef(Strip(raw)).value;
            var patched := ReplaceFirst(raw, r, PinnedRef(r, digest));
            && FromRef(Strip(patched)) == (if Has(Word(Strip(raw)), r) then None else Some(PinnedRef(r, digest)))
            && Pinned(PinnedRef(r, digest))
  {
    hide Strip;
    hide StageEnd;
    var line := Strip(raw);
    var kw, gap, tail := FromShape(line);
    var r := FromRef(line).value;
    hide FromRef;
    DigestSolid(r, digest);
    hide Has;
    PatchedLine(raw, PinnedRef(r, digest));
  }

  lemma {:induction false} InScan(lines: seq<string>, i: nat, n: nat)
    requires i < n <= |lines| && FromRef(Strip(lines[i])).Some?
    ensures exists e :: e in FromLines(lines, n) && e.line == i + 1
  {
    hide FromRef;
    hide Strip;
    EntryAlone(lines[i], i + 1);
    hide EntryOf;
    if i == n - 1 {
      var e := EntryOf(lines[i], n)[0];
      assert e in FromLines(lines, n);
    } else {
      InScan(lines, i, n - 1);
      var e :| e in FromLines(lines, n - 1) && e.line == i + 1;
      assert e in FromLines(lines, n);
    }
  }

  lemma {:induction false} TurnLength(es: seq<Entry>, number: nat, digest: string)
    ensures |TurnPinned(es, number, digest)| == |es| && |Drop(es, number)| <= |es|
  {
    if es != [] {
      TurnLength(es[1..], number, digest);
    }
  }

  lemma {:induction false} LostDiffers(es: seq<Entry>, number: nat, digest: string)
    requires exists e :: e in es && e.line == number
    ensures |Drop(es, number)| < |TurnPinned(es, number, digest)|
  {
    TurnLength(es[1..], number, digest);
    if es[0].line != number {
      var e :| e in es && e.line == number;
      assert e in es[1..];
      LostDiffers(es[1..], number, digest);
    }
  }

  const SomeDigest := "sha256:" + seq(64, i => 'a')

  lemma SomeDigestIsProper()
    ensures ProperDigest(SomeDigest) && SomeDigest != ""
  {
    var d := SomeDigest;
    assert forall i | 0 <= i < 7 :: d[i] == "sha256:"[i];
    assert forall i | 0 <= i < 71 :: !Space(d[i]) && LowerChar(d[i]) == d[i];
    LStripSame(d);
    RStripSame(d);
    assert Lower(d) == d;
  }

  lemma ShortLine()
    ensures Strip("FROM M") == "FROM M" && Word("FROM M") == "FROM" && FromRef("FROM M") == Some("M")
    ensures LStrip("FROM M") == "FROM M" && Has("FROM", "M") && Has("FROM M", "M")
  {
    LStripSame("FROM M");
    RStripSame("FROM M");
    ShortParts();
    hide FromRef;
    hide Word;
    ShortHas();
    hide Has;
  }

  lemma ShortHas()
    ensures Has("FROM", "M") && Has("FROM M", "M")
  {
    HasInside("FRO", "M", "");
    assert "FROM" == "FRO" + ("M" + "");
    HasInside("FRO", "M", " M");
    assert "FROM M" == "FRO" + ("M" + " M");
    hide Has;
  }

  lemma ShortParts()
    ensures Word("FROM M") == "FROM" && FromRef("FROM M") == Some("M")
  {
    hide Has;
    WordOf("FROM", " M");
    assert "FROM M" == "FROM" + " M";
    UnspacedOf(" ", "M");
    assert " M" == " " + "M";
    WordOf("M", "");
    assert "M" == "M" + "";
    assert Upper("FROM") == "FROM";
  }

  /** A file where the proposal destroys the FROM line: the image is called M. */
  lemma KeywordIsHit()
    ensures ProperDigest(SomeDigest) && Scan(["FROM M"]) == [Entry(1, "M", false)]
    ensures exists patched :: ProposePatch(["FROM M"], 1, "M", SomeDigest, None, map[]) == Some(patched) && Scan([patched]) == []
  {
    SomeDigestIsProper();
    ShortLine();
    var line, digest := "FROM M", SomeDigest;
    hide ValidateDigest;
    hide FromRef;
    hide Strip;
    hide LStrip;
    hide SomeDigest;
    NoVariable("M");
    Unchanged("M", Values([line], 1, map[]));
    assert Upper(line) == line && "FROM " <= line;
    NotPinned();
    hide Pinned;
    hide Has;
    EntryAlone(line, 1);
    assert Scan([line]) == FromLines([line], 0) + EntryOf(line, 1);
    hide EntryOf;
    var m: Option<string> := ProposePatch([line], 1, "M", digest, None, map[]);
    Lengthened(line, digest);
    assert m.Some?;
    ProposalPins([line], 0, digest, None, map[]);
    assert [line][0 := m.value] == [m.value];
    assert Drop([Entry(1, "M", false)], 1) == [] by { assert [Entry(1, "M", false)][1..] == []; }
  }

  lemma NotPinned()
    ensures !Pinned("M")
  {
    assert |Lower("M")| == 1;
    if Has("M", "@sha256:") {
      HasShort("M", "@sha256:");
    }
  }

  lemma Lengthened(line: string, digest: string)
    requires Has(line, "M")
    ensures ReplaceFirst(line, "M", PinnedRef("M", digest)) != line
  {
    Longer(line, "M", PinnedRef("M", digest));
  }

  lemma {:induction false} Longer(s: string, w: string, put: string)
    requires Has(s, w)
    ensures |ReplaceFirst(s, w, put)| == |s| - |w| + |put|
  {
    if !(w <= s) {
      Longer(s[1..], w, put);
    }
  }
}
