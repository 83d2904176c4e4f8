/** Which block is the shim's, and where a variable goes. */
module ObservabilityBlock {
  import opened Text
  import opened Lines
  import opened Observability

  /** A line `ENV ...` from line start on, with all the members below it, in which a shim variable is named. */
  predicate IsBlock(lines: seq<string>, start: nat, r: Range) {
    && start <= r.first <= r.last < |lines|
    && EnvStart(lines[r.first])
    && (forall j | r.first < j <= r.last :: Member(lines[j]))
    && (r.last + 1 < |lines| ==> !Member(lines[r.last + 1]))
    && HoldsShim(lines[r.first..r.last + 1])
  }

  /** It is such a block, and none starts further down. */
  ghost predicate LastOne(lines: seq<string>, start: nat, r: Range) {
    IsBlock(lines, start, r) && forall s: Range :: IsBlock(lines, start, s) ==> s.first <= r.first
  }

  /** No member starts a block. */
  lemma MemberIsNoStart(line: string)
    ensures Member(line) ==> !EnvStart(line)
  {
    var s := Strip(line);
    if EnvStart(line) {
      assert "ENV "[0] == 'E' && "ENV "[2] == 'V' && "ENV "[3] == ' ';
      assert Upper(s)[0] == 'E' && Upper(s)[2] == 'V' && Upper(s)[3] == ' ';
    }
    hide Strip;
  }

  /** The blocks that start below a block's members are those below its first line. */
  lemma NextBlocks(lines: seq<string>, i: nat, next: nat)
    requires i < next <= |lines| && forall j | i < j < next :: !EnvStart(lines[j])
    ensures forall s: Range :: IsBlock(lines, next, s) <==> IsBlock(lines, i, s) && s.first != i
  {
    hide Member;
    hide EnvStart;
    hide HoldsShim;
  }

  lemma OneEnd(lines: seq<string>, i: nat, last: nat)
    requires i <= last < |lines| && EnvStart(lines[i])
    requires forall j | i < j <= last :: Member(lines[j])
    requires last + 1 < |lines| ==> !Member(lines[last + 1])
    ensures forall s: Range :: IsBlock(lines, i, s) && s.first == i <==> s == Range(i, last) && HoldsShim(lines[i..last + 1])
  {
    hide Member;
    hide EnvStart;
    hide HoldsShim;
    forall s: Range ensures IsBlock(lines, i, s) && s.first == i <==> s == Range(i, last) && HoldsShim(lines[i..last + 1]) {
      if IsBlock(lines, i, s) && s.first == i && s.last != last {
        assert false;
      }
    }
  }

  /** What is found from line i on. */
  ghost predicate FoundExactly(lines: seq<string>, i: nat, found: Option<Range>) {
    match found
    case Some(r) => LastOne(lines, i, r)
    case None => forall s: Range :: !IsBlock(lines, i, s)
  }

  lemma {:induction false} BlocksBelow(lines: seq<string>, i: nat)
    requires i <= |lines|
    ensures FoundExactly(lines, i, Shift(LastBlock(lines[i..]), i))
    decreases |lines| - i
  {
    hide *;
    if i == |lines| {
      NoneLeft(lines);
    } else if EnvStart(lines[i]) {
      var n := Members(lines[i + 1..]);
      MembersAre(lines, i);
      BlocksBelow(lines, i + n + 1);
      BlockAt(lines, i, n);
    } else {
      BlocksBelow(lines, i + 1);
      PlainStep(lines, i);
      NoneHere(lines, i);
      StillExactly(lines, i, Shift(LastBlock(lines[i + 1..]), i + 1));
    }
  }

  lemma NoneLeft(lines: seq<string>)
    ensures FoundExactly(lines, |lines|, Shift(LastBlock(lines[|lines|..]), |lines|))
  {
    hide Member;
    hide EnvStart;
    hide HoldsShim;
  }

  lemma BlockAt(lines: seq<string>, i: nat, n: nat)
    requires i < |lines| && EnvStart(lines[i]) && n == Members(lines[i + 1..]) && i + n < |lines|
    requires FoundExactly(lines, i + n + 1, Shift(LastBlock(lines[i + n + 1..]), i + n + 1))
    ensures FoundExactly(lines, i, Shift(LastBlock(lines[i..]), i))
  {
    hide *;
    MembersAre(lines, i);
    BlockStep(lines, i, None);
    NextBlocks(lines, i, i + n + 1);
    OneEnd(lines, i, i + n);
    var later := Shift(LastBlock(lines[i + n + 1..]), i + n + 1);
    LaterWins(lines, i, i + n, later);
    OrNone(Shift(LastBlock(lines[i..]), i));
  }

  lemma OrNone(later: Option<Range>)
    ensures Either(later, None) == later
  {
  }

  lemma StillExactly(lines: seq<string>, i: nat, found: Option<Range>)
    requires i < |lines| && !EnvStart(lines[i]) && FoundExactly(lines, i + 1, found)
    ensures FoundExactly(lines, i, found)
  {
    hide EnvStart;
    NextBlocks(lines, i, i + 1);
    NoneHere(lines, i);
    hide IsBlock;
  }

  lemma NoneHere(lines: seq<string>, i: nat)
    requires i < |lines| && !EnvStart(lines[i])
    ensures forall s: Range :: IsBlock(lines, i, s) ==> s.first != i
  {
    hide Member;
    hide EnvStart;
    hide HoldsShim;
  }

  lemma MembersAre(lines: seq<string>, i: nat)
    requires i < |lines|
    ensures var n := Members(lines[i + 1..]);
            && i + n < |lines| && (forall j | i < j <= i + n :: Member(lines[j]) && !EnvStart(lines[j]))
            && (i + n + 1 < |lines| ==> !Member(lines[i + n + 1]))
  {
    hide Member;
    hide EnvStart;
    var n := Members(lines[i + 1..]);
    forall j | i < j <= i + n ensures Member(lines[j]) && !EnvStart(lines[j]) {
      assert lines[i + 1..][j - i - 1] == lines[j];
      MemberIsNoStart(lines[j]);
    }
    assert i + n + 1 < |lines| ==> lines[i + 1..][n] == lines[i + n + 1];
  }

  lemma LaterWins(lines: seq<string>, i: nat, last: nat, later: Option<Range>)
    requires i <= last < |lines| && FoundExactly(lines, last + 1, later)
    requires forall s: Range :: IsBlock(lines, last + 1, s) <==> IsBlock(lines, i, s) && s.first != i
    requires forall s: Range :: IsBlock(lines, i, s) && s.first == i <==> s == Range(i, last) && HoldsShim(lines[i..last + 1])
    ensures FoundExactly(lines, i, Either(later, if HoldsShim(lines[i..last + 1]) then Some(Range(i, last)) else None))
  {
    BlocksStart(lines, i);
    BlocksStart(lines, last + 1);
    hide IsBlock;
    hide HoldsShim;
  }

  lemma BlocksStart(lines: seq<string>, i: nat)
    ensures forall s: Range :: IsBlock(lines, i, s) ==> i <= s.first
  {
    hide Member;
    hide EnvStart;
    hide HoldsShim;
  }

  /** The block found is the last one of the final stage that names a shim variable; none is found when there is none. */
  lemma BlockExactly(lines: seq<string>)
    ensures FoundExactly(lines, FinalStart(lines), FindBlock(lines))
  {
    hide FoundExactly;
    hide FinalStart;
    hide LastBlock;
    BlocksBelow(lines, FinalStart(lines));
  }

  /** Without such a block: below the first USER line of the final stage, or at the end, and all other lines stay. */
  lemma NewBlockPlaced(lines: seq<string>, name: string, value: string) returns (at: nat)
    requires FindBlock(lines) == None
    ensures at <= |lines| && AddVar(lines, name, value) == lines[..at] + (["ENV " + (name + ("=\"" + (value + "\"")))] + lines[at..])
    ensures var start := FinalStart(lines);
            if exists i :: start <= i < |lines| && Instr(lines[i], "USER ") then
              start < at && Instr(lines[at - 1], "USER ") && forall i | start <= i < at - 1 :: !Instr(lines[i], "USER ")
            else at == |lines|
  {
    hide FindBlock;
    hide Instr;
    hide FinalStart;
    var u := FirstUser(lines);
    at := if u < |lines| then u + 1 else |lines|;
    hide FirstInstr;
    assert at == |lines| ==> lines[..at] == lines && lines[at..] == [];
  }
}
