/** Which file is converted, and which of its lines. */
module AptSelection {
  import opened Text
  import opened Lines
  import opened AptToApk

  /** Line i goes on with the RUN instruction of the line above; f is the line above the first one looked at. */
  predicate GoesOn(lines: seq<string>, f: int, i: int)
    requires -1 <= f < i <= |lines|
    decreases i - f, 0
  {
    i - 1 > f && (Starts(lines, f, i - 1) || GoesOn(lines, f, i - 1)) && EndsSlash(lines[i - 1])
  }

  /** Line i starts a RUN instruction. */
  predicate Starts(lines: seq<string>, f: int, i: int)
    requires -1 <= f < i < |lines|
    decreases i - f, 1
  {
    Begins(lines[i], "RUN") && !GoesOn(lines, f, i)
  }

  /** An instruction that starts below line f, with all its lines, and holds apt-get. */
  predicate IsApt(lines: seq<string>, f: int, b: Block)
    requires -1 <= f < |lines|
  {
    && f < b.start < b.end <= |lines| && Starts(lines, f, b.start)
    && (forall j | b.start <= j < b.end - 1 :: EndsSlash(lines[j]))
    && (b.end < |lines| ==> !EndsSlash(lines[b.end - 1]))
    && Has(Concat(lines[b.start..b.end]), "apt-get")
  }

  lemma {:induction false} LengthIs(ls: seq<string>)
    requires ls != []
    ensures forall j | 0 <= j < Length(ls) - 1 :: EndsSlash(ls[j])
  {
    hide EndsSlash;
    if EndsSlash(ls[0]) && |ls| > 1 {
      LengthIs(ls[1..]);
    }
  }

  /** The lines of an instruction go on with it, and the line below does not. */
  lemma {:induction false} GoesOnInside(lines: seq<string>, f: int, start: nat, end: nat, i: nat)
    requires -1 <= f < start < i <= end <= |lines| && Starts(lines, f, start)
    requires forall j | start <= j < end - 1 :: EndsSlash(lines[j])
    requires end < |lines| ==> !EndsSlash(lines[end - 1])
    ensures i < end ==> GoesOn(lines, f, i) && !Starts(lines, f, i)
    ensures i == end < |lines| ==> !GoesOn(lines, f, i)
  {
    hide EndsSlash;
    hide Begins;
    if start + 1 < i {
      GoesOnInside(lines, f, start, end, i - 1);
    }
  }

  lemma InstructionAt(lines: seq<string>, f: int, start: nat) returns (end: nat)
    requires -1 <= f < start < |lines| && Starts(lines, f, start)
    ensures start < end <= |lines| && end == start + Length(lines[start..])
    ensures forall j | start <= j < end - 1 :: EndsSlash(lines[j])
    ensures end < |lines| ==> !EndsSlash(lines[end - 1]) && !GoesOn(lines, f, end)
    ensures forall i | start < i < end :: !Starts(lines, f, i)
  {
    hide EndsSlash;
    hide Length;
    hide Starts;
    hide GoesOn;
    LengthIs(lines[start..]);
    end := start + Length(lines[start..]);
    forall j | start <= j < end - 1 ensures EndsSlash(lines[j]) {
      assert lines[start..][j - start] == lines[j];
    }
    assert end < |lines| ==> lines[start..][end - start - 1] == lines[end - 1];
    forall i | start < i <= end ensures i < end ==> !Starts(lines, f, i) {
      GoesOnInside(lines, f, start, end, i);
    }
    GoesOnInside(lines, f, start, end, end);
  }

  /** An instruction has only one end. */
  lemma OneEnd(lines: seq<string>, start: nat, a: nat, b: nat)
    requires start < a <= |lines| && start < b <= |lines|
    requires forall j | start <= j < a - 1 :: EndsSlash(lines[j])
    requires forall j | start <= j < b - 1 :: EndsSlash(lines[j])
    requires (a < |lines| ==> !EndsSlash(lines[a - 1])) && (b < |lines| ==> !EndsSlash(lines[b - 1]))
    ensures a == b
  {
    hide EndsSlash;
  }

  /** bs are exactly the apt instructions that start at line i or below, in order. */
  ghost predicate AreApt(lines: seq<string>, f: int, i: nat, bs: seq<Block>)
    requires -1 <= f < |lines|
  {
    Ordered(bs) && forall b: Block :: b in bs <==> i <= b.start && IsApt(lines, f, b)
  }

  lemma AptAbove(lines: seq<string>, f: int, i: nat, next: nat, first: seq<Block>, rest: seq<Block>)
    requires -1 <= f < |lines| && i < next && AreApt(lines, f, next, rest) && |first| <= 1
    requires forall b: Block :: b in first <==> b.start == i && IsApt(lines, f, b)
    requires forall b: Block :: IsApt(lines, f, b) && i < b.start ==> next <= b.start
    ensures AreApt(lines, f, i, first + rest)
  {
    hide IsApt;
    var bs := first + rest;
    forall j, k | 0 <= j < k < |bs| ensures bs[j].start < bs[k].start {
      if j < |first| {
        assert bs[j] in first && bs[k] in rest;
      }
    }
  }

  /** The blocks found from line i on are exactly the apt instructions that start there, in order. */
  lemma {:induction false} BlocksFrom(lines: seq<string>, f: int, i: nat)
    requires -1 <= f < i <= |lines| && f < |lines| && (i < |lines| ==> !GoesOn(lines, f, i))
    ensures AreApt(lines, f, i, AptBlocks(lines[i..], i))
    decreases |lines| - i
  {
    hide EndsSlash;
    hide Has;
    hide Concat;
    hide AptBlocks;
    hide Begins;
    hide AreApt;
    hide GoesOn;
    if i == |lines| {
      NoLines(lines);
      NoneBelow(lines, f);
    } else if Begins(lines[i], "RUN") {
      var end := InstructionAt(lines, f, i);
      BlocksFrom(lines, f, end);
      RunStep(lines[i..], i);
      NoneInside(lines, f, i, end);
      FirstIsApt(lines, f, i, end);
      hide IsApt;
      assert lines[i..][..end - i] == lines[i..end] && lines[i..][end - i..] == lines[end..];
      AptAbove(lines, f, i, end, if Has(Concat(lines[i..end]), AptGet) then [Block(i, end)] else [], AptBlocks(lines[end..], end));
    } else {
      NotFollowing(lines, f, i);
      BlocksFrom(lines, f, i + 1);
      OtherStep(lines[i..], i);
      OtherNotApt(lines, f, i);
      hide IsApt;
      assert lines[i..][1..] == lines[i + 1..];
      AptAbove(lines, f, i, i + 1, [], AptBlocks(lines[i + 1..], i + 1));
      assert [] + AptBlocks(lines[i + 1..], i + 1) == AptBlocks(lines[i + 1..], i + 1);
    }
  }

  lemma NoneBelow(lines: seq<string>, f: int)
    requires -1 <= f < |lines|
    ensures AreApt(lines, f, |lines|, [])
  {
    hide EndsSlash;
    hide Has;
    hide Concat;
    hide Starts;
  }

  predicate Ordered(bs: seq<Block>) {
    forall j, k | 0 <= j < k < |bs| :: bs[j].start < bs[k].start
  }

  lemma NotFollowing(lines: seq<string>, f: int, i: nat)
    requires -1 <= f < i < |lines| && !GoesOn(lines, f, i) && !Begins(lines[i], "RUN")
    ensures !GoesOn(lines, f, i + 1)
  {
    hide EndsSlash;
    hide Begins;
  }

  lemma NoneInside(lines: seq<string>, f: int, i: nat, end: nat)
    requires -1 <= f < i < end <= |lines| && forall k | i < k < end :: !Starts(lines, f, k)
    ensures forall b: Block :: IsApt(lines, f, b) && i < b.start ==> end <= b.start
  {
    hide Starts;
    hide EndsSlash;
    hide Has;
    hide Concat;
  }

  lemma OtherNotApt(lines: seq<string>, f: int, i: nat)
    requires -1 <= f < i < |lines| && !Begins(lines[i], "RUN")
    ensures forall b: Block :: IsApt(lines, f, b) ==> b.start != i
  {
    hide GoesOn;
    hide EndsSlash;
    hide Has;
    hide Concat;
    hide Begins;
  }

  lemma FirstIsApt(lines: seq<string>, f: int, i: nat, end: nat)
    requires -1 <= f < i < end <= |lines| && Starts(lines, f, i)
    requires forall j | i <= j < end - 1 :: EndsSlash(lines[j])
    requires end < |lines| ==> !EndsSlash(lines[end - 1])
    ensures forall b: Block :: b.start == i && IsApt(lines, f, b) <==> b == Block(i, end) && Has(Concat(lines[i..end]), AptGet)
  {
    hide EndsSlash;
    hide Has;
    hide Concat;
    hide Starts;
    forall b: Block ensures b.start == i && IsApt(lines, f, b) <==> b == Block(i, end) && Has(Concat(lines[i..end]), AptGet) {
      if b.start == i && IsApt(lines, f, b) {
        OneEnd(lines, i, end, b.end);
      }
    }
  }

  /** The instruction is the only one of its kind. */
  ghost predicate Only(lines: seq<string>, f: int, b: Block)
    requires -1 <= f < |lines|
  {
    IsApt(lines, f, b) && forall c: Block :: IsApt(lines, f, c) ==> c == b
  }

  lemma Single(bs: seq<Block>, b: Block)
    requires Ordered(bs)
    ensures bs == [b] <==> b in bs && forall c | c in bs :: c == b
  {
    if |bs| > 1 {
      assert bs[0] in bs && bs[1] in bs && bs[0].start < bs[1].start;
    }
  }

  lemma OneBlock(lines: seq<string>, f: int)
    requires -1 <= f < |lines|
    ensures forall b: Block :: AptBlocks(lines[f + 1..], f + 1) == [b] <==> Only(lines, f, b)
  {
    BlocksFrom(lines, f, f + 1);
    AllBelow(lines, f);
    hide IsApt;
    hide GoesOn;
    var bs := AptBlocks(lines[f + 1..], f + 1);
    hide AptBlocks;
    forall b: Block ensures bs == [b] <==> Only(lines, f, b) {
      Single(bs, b);
    }
  }

  lemma AllBelow(lines: seq<string>, f: int)
    requires -1 <= f < |lines|
    ensures forall b: Block :: IsApt(lines, f, b) ==> f + 1 <= b.start
  {
    hide Starts;
    hide EndsSlash;
    hide Has;
    hide Concat;
  }

  /** What is converted: a single apt instruction below the last FROM line, which adds no repository of its own. */
  ghost predicate Convertible(lines: seq<string>, read: string -> Reading, b: Block) {
    var f := LastFrom(lines, |lines|);
    f >= 0 && Only(lines, f, b) && b.start <= b.end <= |lines| && !read(Concat(lines[b.start..b.end])).customRepository
  }

  /** A file is converted exactly when there is such an instruction, and that is the one converted. */
  lemma ConvertedExactly(lines: seq<string>, read: string -> Reading, table: map<string, string>, b: Block)
    ensures Convert(lines, read, table).Replaced? && Convert(lines, read, table).block == b <==> Convertible(lines, read, b)
  {
    var f := LastFrom(lines, |lines|);
    if f >= 0 {
      OneBlock(lines, f);
      ConvertIs(lines, read, table);
      hide Convert;
      hide Only;
      hide AptBlocks;
      hide Concat;
      hide LastFrom;
      var bs := AptBlocks(lines[f + 1..], f + 1);
      BlockIs(bs, b);
    }
  }

  lemma BlockIs(bs: seq<Block>, b: Block)
    ensures bs == [b] <==> |bs| == 1 && bs[0] == b
  {
  }

  lemma ConvertIs(lines: seq<string>, read: string -> Reading, table: map<string, string>)
    requires LastFrom(lines, |lines|) >= 0
    ensures var f := LastFrom(lines, |lines|);
            var bs, r := AptBlocks(lines[f + 1..], f + 1), Convert(lines, read, table);
            r.Replaced? <==> |bs| == 1 && bs[0].start <= bs[0].end <= |lines| &&
                             !read(Concat(lines[bs[0].start..bs[0].end])).customRepository
    ensures var f := LastFrom(lines, |lines|);
            var bs, r := AptBlocks(lines[f + 1..], f + 1), Convert(lines, read, table);
            |bs| == 1 ==> bs[0].start <= bs[0].end <= |lines| && (r.Replaced? ==> r.block == bs[0])
  {
    hide LastFrom;
    hide AptBlocks;
    hide NewLines;
    hide Concat;
    hide Parts;
    hide CommandsOf;
    hide Converted;
    BlocksInside(lines);
  }
}
