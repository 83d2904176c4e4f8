/** remove_healthcheck.py: dropping the HEALTHCHECK blocks of a Dockerfile. */
module Healthcheck {
  import opened Text
  import opened Lines

  // --- Blocks ------------------------------------------------------------------------------

  predicate IsCheck(line: string) {
    "HEALTHCHECK" <= Strip(line)
  }

  predicate IsBlank(line: string) {
    Strip(line) == ""
  }

  /** Behind the first line from i on that does not end with a backslash. */
  function BlockEnd(lines: seq<string>, i: nat): (e: nat)
    requires i <= |lines|
    ensures i <= e <= |lines| && (i < |lines| ==> i < e)
    decreases |lines| - i
  {
    if i == |lines| then i else if EndsSlash(lines[i]) then BlockEnd(lines, i + 1) else i + 1
  }

  /** The numbers of the lines from i on that stay; the search for a block's end starts below its first line. */
  function Staying(lines: seq<string>, i: nat): seq<nat>
    requires i <= |lines|
    decreases |lines| - i
  {
    if i == |lines| then []
    else if IsCheck(lines[i]) then Staying(lines, BlockEnd(lines, i + 1))
    else [i] + Staying(lines, i + 1)
  }

  function Blocks(lines: seq<string>, i: nat): nat
    requires i <= |lines|
    decreases |lines| - i
  {
    if i == |lines| then 0
    else if IsCheck(lines[i]) then 1 + Blocks(lines, BlockEnd(lines, i + 1))
    else Blocks(lines, i + 1)
  }

  function Picked(lines: seq<string>, ns: seq<nat>): (r: seq<string>)
    ensures |r| == |ns| && forall i | 0 <= i < |ns| :: r[i] == if ns[i] < |lines| then lines[ns[i]] else ""
  {
    seq(|ns|, i requires 0 <= i < |ns| => if ns[i] < |lines| then lines[ns[i]] else "")
  }

  // --- Blank lines ----------------------------------------------------------------------------

  /** Of adjacent blank lines the first one; blank says whether the line before was blank. */
  function Squeezed(ls: seq<string>, blank: bool): seq<string> {
    if ls == [] then []
    else if IsBlank(ls[0]) then (if blank then [] else [ls[0]]) + Squeezed(ls[1..], true)
    else [ls[0]] + Squeezed(ls[1..], false)
  }

  function DropFirst(ls: seq<string>): seq<string> {
    if ls != [] && IsBlank(ls[0]) then DropFirst(ls[1..]) else ls
  }

  function DropLast(ls: seq<string>): seq<string> {
    if ls != [] && IsBlank(ls[|ls| - 1]) then DropLast(ls[..|ls| - 1]) else ls
  }

  function Cleaned(ls: seq<string>): seq<string> {
    DropLast(DropFirst(Squeezed(ls, false)))
  }

  /** The lines without the blocks. */
  function WithoutBlocks(lines: seq<string>): seq<string> {
    Picked(lines, Staying(lines, 0))
  }

  /** The result of `remove_healthcheck_lines`: the lines, and how many blocks were removed. */
  function Removed(lines: seq<string>): (seq<string>, nat) {
    if Blocks(lines, 0) > 0 then (Cleaned(WithoutBlocks(lines)), Blocks(lines, 0)) else (WithoutBlocks(lines), 0)
  }

  // --- The script -------------------------------------------------------------------------------

  class Remover {
    var totalBlocksRemoved: nat

    constructor ()
      ensures totalBlocksRemoved == 0
    {
      totalBlocksRemoved := 0;
    }

    method RemoveLines(lines: seq<string>) returns (cleaned: seq<string>, removed: nat)
      modifies this
      ensures (cleaned, removed) == Removed(lines)
      ensures totalBlocksRemoved == old(totalBlocksRemoved) + removed
    {
      hide IsCheck;
      hide EndsSlash;
      hide IsBlank;
      var result: seq<string> := [];
      ghost var numbers: seq<nat> := [];
      var i := 0;
      removed := 0;
      while i < |lines|
        invariant i <= |lines|
        invariant result == Picked(lines, numbers)
        invariant numbers + Staying(lines, i) == Staying(lines, 0)
        invariant removed + Blocks(lines, i) == Blocks(lines, 0)
      {
        if IsCheck(lines[i]) {
          removed := removed + 1;
          ghost var end := BlockEnd(lines, i + 1);
          i := i + 1;
          while i < |lines|
            invariant i <= |lines| && BlockEnd(lines, i) == end
          {
            if EndsSlash(lines[i]) {
              i := i + 1;
            } else {
              i := i + 1;
              break;
            }
          }
          assert i == end;
        } else {
          result := result + [lines[i]];
          numbers := numbers + [i];
          i := i + 1;
        }
      }
      assert numbers + [] == numbers;
      if removed > 0 {
        totalBlocksRemoved := totalBlocksRemoved + removed;
        cleaned := Squeeze(result);
        ghost var squeezed := cleaned;
        while cleaned != [] && IsBlank(cleaned[0])
          invariant DropFirst(cleaned) == DropFirst(squeezed)
        {
          cleaned := cleaned[1..];
        }
        squeezed := cleaned;
        while cleaned != [] && IsBlank(cleaned[|cleaned| - 1])
          invariant DropLast(cleaned) == DropLast(squeezed)
        {
          cleaned := cleaned[..|cleaned| - 1];
        }
      } else {
        cleaned := result;
      }
    }

    method Squeeze(result: seq<string>) returns (cleaned: seq<string>)
      ensures cleaned == Squeezed(result, false)
    {
      hide IsBlank;
      hide Squeezed;
      cleaned := [];
      var prevBlank := false;
      assert result[0..] == result;
      for i := 0 to |result|
        invariant cleaned + Squeezed(result[i..], prevBlank) == Squeezed(result, false)
      {
        SqueezeStep(result, i, prevBlank, cleaned);
        if IsBlank(result[i]) {
          if prevBlank {
            continue;
          }
          prevBlank := true;
          cleaned := cleaned + [result[i]];
        } else {
          prevBlank := false;
          cleaned := cleaned + [result[i]];
        }
      }
      SqueezedNone(result, prevBlank, cleaned);
    }
  }

  lemma SqueezedNone(ls: seq<string>, blank: bool, before: seq<string>)
    ensures before + Squeezed(ls[|ls|..], blank) == before
  {
  }

  lemma SqueezeStep(ls: seq<string>, i: nat, blank: bool, before: seq<string>)
    requires i < |ls|
    ensures before + Squeezed(ls[i..], blank) ==
            (if IsBlank(ls[i]) && blank then before else before + [ls[i]]) + Squeezed(ls[i + 1..], IsBlank(ls[i]))
  {
    hide IsBlank;
    assert ls[i..][1..] == ls[i + 1..];
    var rest := Squeezed(ls[i + 1..], IsBlank(ls[i]));
    assert before + ([ls[i]] + rest) == before + [ls[i]] + rest && [] + rest == rest;
  }

  // --- What the result looks like -----------------------------------------------------------------

  predicate NoCheck(ls: seq<string>) {
    forall i | 0 <= i < |ls| :: !IsCheck(ls[i])
  }

  predicate NoDoubleBlank(ls: seq<string>) {
    forall i | 0 <= i < |ls| - 1 :: !(IsBlank(ls[i]) && IsBlank(ls[i + 1]))
  }

  predicate NoOuterBlank(ls: seq<string>) {
    ls != [] ==> !IsBlank(ls[0]) && !IsBlank(ls[|ls| - 1])
  }

  function Solid(ls: seq<string>): seq<string> {
    if ls == [] then [] else (if IsBlank(ls[0]) then [] else [ls[0]]) + Solid(ls[1..])
  }

  lemma {:induction false} StayingLines(lines: seq<string>, i: nat)
    requires i <= |lines|
    ensures forall n | n in Staying(lines, i) :: i <= n < |lines| && !IsCheck(lines[n])
    decreases |lines| - i
  {
    hide IsCheck;
    hide EndsSlash;
    if i < |lines| {
      StayingLines(lines, if IsCheck(lines[i]) then BlockEnd(lines, i + 1) else i + 1);
    }
  }

  lemma PickedFirst(lines: seq<string>, i: nat, rest: seq<nat>)
    requires i < |lines|
    ensures Picked(lines, [i] + rest) == [lines[i]] + Picked(lines, rest)
  {
  }

  lemma {:induction false} NoBlocks(lines: seq<string>, i: nat)
    requires i <= |lines| && forall k | i <= k < |lines| :: !IsCheck(lines[k])
    ensures Blocks(lines, i) == 0 && Picked(lines, Staying(lines, i)) == lines[i..]
    decreases |lines| - i
  {
    hide IsCheck;
    hide BlockEnd;
    if i < |lines| {
      NoBlocks(lines, i + 1);
      PickedFirst(lines, i, Staying(lines, i + 1));
      assert lines[i..] == [lines[i]] + lines[i + 1..];
    }
  }

  lemma {:induction false} SomeBlocks(lines: seq<string>, i: nat, k: nat)
    requires i <= k < |lines| && IsCheck(lines[k]) && forall j | i <= j < k :: !IsCheck(lines[j])
    ensures Blocks(lines, i) > 0
    decreases k - i
  {
    hide IsCheck;
    if i < k {
      SomeBlocks(lines, i + 1, k);
    }
  }

  /** Without a block nothing changes at all. */
  lemma Untouched(lines: seq<string>)
    requires NoCheck(lines)
    ensures Removed(lines) == (lines, 0)
  {
    NoBlocks(lines, 0);
    hide IsCheck;
    hide Staying;
    assert lines[0..] == lines;
  }

  /** a is what is left of b after dropping some lines. */
  predicate Sub(a: seq<string>, b: seq<string>) {
    a == [] || (b != [] && ((a[0] == b[0] && Sub(a[1..], b[1..])) || Sub(a, b[1..])))
  }

  lemma {:induction false} SubSuffix(a: seq<string>, b: seq<string>, k: nat)
    requires k <= |b| && Sub(a, b[k..])
    ensures Sub(a, b)
  {
    if k == 0 {
      assert b[0..] == b;
    } else {
      assert b[1..][k - 1..] == b[k..];
      SubSuffix(a, b[1..], k - 1);
    }
  }

  lemma {:induction false} SubPrefix(b: seq<string>, k: nat)
    requires k <= |b|
    ensures Sub(b[..k], b)
  {
    if k > 0 {
      SubPrefix(b[1..], k - 1);
      assert b[..k][1..] == b[1..][..k - 1];
    }
  }

  lemma {:induction false} SubTrans(a: seq<string>, b: seq<string>, c: seq<string>)
    requires Sub(a, b) && Sub(b, c)
    ensures Sub(a, c)
    decreases |b| + |c|
  {
    if a != [] {
      if b[0] == c[0] && Sub(b[1..], c[1..]) {
        if a[0] == b[0] && Sub(a[1..], b[1..]) {
          SubTrans(a[1..], b[1..], c[1..]);
        } else {
          SubTrans(a, b[1..], c[1..]);
        }
      } else {
        SubTrans(a, b, c[1..]);
      }
    }
  }

  lemma SubBoth(x: string, a: seq<string>, b: seq<string>)
    requires Sub(a, b)
    ensures Sub([x] + a, [x] + b)
  {
    assert ([x] + a)[1..] == a && ([x] + b)[1..] == b;
  }

  lemma {:induction false} StayingSub(lines: seq<string>, i: nat)
    requires i <= |lines|
    ensures Sub(Picked(lines, Staying(lines, i)), lines[i..])
    decreases |lines| - i
  {
    hide IsCheck;
    hide BlockEnd;
    hide Sub;
    if i < |lines| {
      var next := if IsCheck(lines[i]) then BlockEnd(lines, i + 1) else i + 1;
      StayingSub(lines, next);
      var rest := Picked(lines, Staying(lines, next));
      if IsCheck(lines[i]) {
        assert lines[i..][next - i..] == lines[next..];
        SubSuffix(rest, lines[i..], next - i);
      } else {
        SubBoth(lines[i], rest, lines[next..]);
        PickedFirst(lines, i, Staying(lines, next));
        assert lines[i..] == [lines[i]] + lines[next..];
      }
    } else {
      assert Picked(lines, []) == [] && lines[i..] == [];
      SubWhole([]);
    }
  }

  lemma {:induction false} SqueezedSub(ls: seq<string>, blank: bool)
    ensures Sub(Squeezed(ls, blank), ls)
  {
    hide IsBlank;
    if ls != [] {
      var rest := Squeezed(ls[1..], IsBlank(ls[0]));
      SqueezedSub(ls[1..], IsBlank(ls[0]));
      assert ([ls[0]] + rest)[1..] == rest && [] + rest == rest;
    }
  }

  lemma {:induction false} DropFirstSuffix(ls: seq<string>) returns (k: nat)
    ensures k <= |ls| && DropFirst(ls) == ls[k..]
  {
    hide IsBlank;
    k := 0;
    if ls != [] && IsBlank(ls[0]) {
      var j := DropFirstSuffix(ls[1..]);
      k := j + 1;
    }
  }

  lemma {:induction false} DropLastPrefix(ls: seq<string>) returns (k: nat)
    ensures k <= |ls| && DropLast(ls) == ls[..k]
  {
    hide IsBlank;
    k := |ls|;
    if ls != [] && IsBlank(ls[|ls| - 1]) {
      k := DropLastPrefix(ls[..|ls| - 1]);
    }
  }

  /** The result is the input without some of its lines. */
  lemma RemovalDropsLines(lines: seq<string>)
    ensures Sub(Removed(lines).0, lines)
  {
    hide IsBlank;
    hide Staying;
    hide Blocks;
    hide Sub;
    var kept := WithoutBlocks(lines);
    StayingSub(lines, 0);
    assert lines[0..] == lines;
    var squeezed := Squeezed(kept, false);
    SqueezedSub(kept, false);
    SubTrans(squeezed, kept, lines);
    var k := DropFirstSuffix(squeezed);
    SubWhole(squeezed[k..]);
    SubSuffix(squeezed[k..], squeezed, k);
    SubTrans(squeezed[k..], squeezed, lines);
    var n := DropLastPrefix(squeezed[k..]);
    SubPrefix(squeezed[k..], n);
    SubTrans(squeezed[k..][..n], squeezed[k..], lines);
  }

  lemma SubWhole(b: seq<string>)
    ensures Sub(b, b)
  {
    SubPrefix(b, |b|);
    assert b[..|b|] == b;
  }

  lemma SolidStep(ls: seq<string>)
    ensures Solid(ls) == if ls == [] then [] else (if IsBlank(ls[0]) then [] else [ls[0]]) + Solid(ls[1..])
  {
  }

  lemma {:induction false} SqueezedShape(ls: seq<string>, blank: bool)
    ensures var r := Squeezed(ls, blank);
            NoDoubleBlank(r) && (blank && r != [] ==> !IsBlank(r[0])) && (forall l | l in r :: l in ls)
  {
    hide IsBlank;
    if ls != [] {
      SqueezedShape(ls[1..], IsBlank(ls[0]));
    }
  }

  lemma {:induction false} SqueezedSolid(ls: seq<string>, blank: bool)
    ensures Solid(Squeezed(ls, blank)) == Solid(ls)
  {
    hide IsBlank;
    hide Solid;
    SolidStep(ls);
    if ls != [] {
      var rest := Squeezed(ls[1..], IsBlank(ls[0]));
      SqueezedSolid(ls[1..], IsBlank(ls[0]));
      assert ([ls[0]] + rest)[1..] == rest && [] + rest == rest;
      SolidStep([ls[0]] + rest);
    }
  }

  lemma {:induction false} DropFirstShape(ls: seq<string>)
    requires NoDoubleBlank(ls)
    ensures var r := DropFirst(ls);
            && NoDoubleBlank(r) && (r != [] ==> !IsBlank(r[0])) && Solid(r) == Solid(ls) && (forall l | l in r :: l in ls)
  {
    hide IsBlank;
    if ls != [] && IsBlank(ls[0]) {
      assert NoDoubleBlank(ls[1..]);
      DropFirstShape(ls[1..]);
    }
  }

  lemma {:induction false} DropLastShape(ls: seq<string>)
    requires NoDoubleBlank(ls) && (ls != [] ==> !IsBlank(ls[0]))
    ensures var r := DropLast(ls);
            && NoDoubleBlank(r) && NoOuterBlank(r) && Solid(r) == Solid(ls) && (forall l | l in r :: l in ls)
  {
    hide IsBlank;
    if ls != [] && IsBlank(ls[|ls| - 1]) {
      var head := ls[..|ls| - 1];
      SolidAppend(head, [ls[|ls| - 1]]);
      assert ls == head + [ls[|ls| - 1]];
      assert [ls[|ls| - 1]][1..] == [];
      DropLastShape(head);
    }
  }

  lemma {:induction false} SolidAppend(a: seq<string>, b: seq<string>)
    ensures Solid(a + b) == Solid(a) + Solid(b)
  {
    hide IsBlank;
    if a == [] {
      assert a + b == b;
    } else {
      assert (a + b)[1..] == a[1..] + b;
      SolidAppend(a[1..], b);
    }
  }

  /**
   When a block was removed: no HEALTHCHECK line is left, no two blank lines are adjacent, no blank
   line is outermost, every line that is not blank and not in a block stays, in order, and doing it
   again changes nothing.
   */
  lemma RemovalNormalises(lines: seq<string>)
    requires Removed(lines).1 > 0
    ensures var r := Removed(lines).0;
            && NoCheck(r) && NoDoubleBlank(r) && NoOuterBlank(r)
            && Solid(r) == Solid(WithoutBlocks(lines))
            && Removed(r) == (r, 0)
  {
    hide IsCheck;
    hide IsBlank;
    hide Solid;
    var kept := WithoutBlocks(lines);
    var r := Removed(lines).0;
    StayingLines(lines, 0);
    hide Staying;
    SqueezedShape(kept, false);
    SqueezedSolid(kept, false);
    DropFirstShape(Squeezed(kept, false));
    DropLastShape(DropFirst(Squeezed(kept, false)));
    hide NoDoubleBlank;
    hide NoOuterBlank;
    forall i | 0 <= i < |r| ensures !IsCheck(r[i]) {
      assert r[i] in r && r[i] in kept;
      var k :| 0 <= k < |kept| && kept[k] == r[i];
    }
    Untouched(r);
  }

  /** A block is removed exactly when a line starts with the word. */
  lemma {:induction false} RemovedExactly(lines: seq<string>)
    ensures Removed(lines).1 > 0 <==> exists i :: 0 <= i < |lines| && IsCheck(lines[i])
  {
    hide IsCheck;
    if i :| 0 <= i < |lines| && IsCheck(lines[i]) {
      var k := FirstCheck(lines, 0);
      SomeBlocks(lines, 0, k);
    } else {
      NoBlocks(lines, 0);
    }
  }

  lemma {:induction false} FirstCheck(lines: seq<string>, i: nat) returns (k: nat)
    requires exists j :: i <= j < |lines| && IsCheck(lines[j])
    ensures i <= k < |lines| && IsCheck(lines[k]) && forall j | i <= j < k :: !IsCheck(lines[j])
    decreases |lines| - i
  {
    hide IsCheck;
    if IsCheck(lines[i]) {
      k := i;
    } else {
      k := FirstCheck(lines, i + 1);
    }
  }

  // --- The extra line -------------------------------------------------------------------------------

  /** Where an instruction that starts on line i ends in Docker's sense: its lines but the last are continued. */
  function InstructionEnd(lines: seq<string>, i: nat): nat
    requires i < |lines|
  {
    BlockEnd(lines, i)
  }

  /**
   The removed block is the instruction itself exactly when its first line is continued or is the
   last line of the file; otherwise the line below it goes too, with its own continuation.
   */
  lemma OneLineCheckTakesTheNext(lines: seq<string>, i: nat)
    requires i < |lines| && IsCheck(lines[i])
    ensures Staying(lines, i) == Staying(lines, BlockEnd(lines, i + 1))
    ensures BlockEnd(lines, i + 1) == InstructionEnd(lines, i) <==> EndsSlash(lines[i]) || i + 1 == |lines|
    ensures !EndsSlash(lines[i]) && i + 1 < |lines| ==> i + 1 !in Staying(lines, i)
  {
    hide IsCheck;
    hide EndsSlash;
    StayingLines(lines, BlockEnd(lines, i + 1));
  }

  // --- Which lines are in a block, line by line ------------------------------------------------------

  /** Line n goes on with a block: the line above begins one, or goes on with one and ends in a backslash. */
  predicate GoesOn(lines: seq<string>, n: nat)
    requires n <= |lines|
    decreases n, 0
  {
    n > 0 && (Begins(lines, n - 1) || (GoesOn(lines, n - 1) && EndsSlash(lines[n - 1])))
  }

  /** Line n begins a block. */
  predicate Begins(lines: seq<string>, n: nat)
    requires n < |lines|
    decreases n, 1
  {
    IsCheck(lines[n]) && !GoesOn(lines, n)
  }

  lemma {:induction false} BlockGoesOn(lines: seq<string>, i: nat)
    requires i <= |lines| && GoesOn(lines, i)
    ensures forall j | i <= j < BlockEnd(lines, i) :: GoesOn(lines, j) && !Begins(lines, j)
    ensures BlockEnd(lines, i) < |lines| ==> !GoesOn(lines, BlockEnd(lines, i))
    decreases |lines| - i
  {
    hide IsCheck;
    hide EndsSlash;
    if i < |lines| && EndsSlash(lines[i]) {
      BlockGoesOn(lines, i + 1);
    }
  }

  /** Line n is in no block. */
  predicate Outside(lines: seq<string>, n: nat)
    requires n < |lines|
  {
    !Begins(lines, n) && !GoesOn(lines, n)
  }

  predicate Ascending(ns: seq<nat>) {
    forall a, b | 0 <= a < b < |ns| :: ns[a] < ns[b]
  }

  /** From line i on up to line e. */
  lemma NextOutside(lines: seq<string>, i: nat) returns (e: nat)
    requires i < |lines| && !GoesOn(lines, i)
    ensures i < e <= |lines| && (e < |lines| ==> !GoesOn(lines, e))
    ensures Outside(lines, i) <==> !Begins(lines, i)
    ensures forall n | i < n < e :: !Outside(lines, n) && !Begins(lines, n)
    ensures Staying(lines, i) == (if Outside(lines, i) then [i] else []) + Staying(lines, e)
    ensures Blocks(lines, i) == (if Begins(lines, i) then 1 else 0) + Blocks(lines, e)
  {
    hide IsCheck;
    hide EndsSlash;
    if IsCheck(lines[i]) {
      BlockGoesOn(lines, i + 1);
      e := BlockEnd(lines, i + 1);
    } else {
      e := i + 1;
    }
  }

  /** The lines that stay are those in no block, each once and in order. */
  lemma {:induction false} StayingExactly(lines: seq<string>, i: nat)
    requires i <= |lines| && (i < |lines| ==> !GoesOn(lines, i))
    ensures forall n: nat :: n in Staying(lines, i) <==> i <= n < |lines| && Outside(lines, n)
    ensures Ascending(Staying(lines, i))
    decreases |lines| - i
  {
    hide Outside;
    hide GoesOn;
    hide Begins;
    if i < |lines| {
      var e := NextOutside(lines, i);
      StayingExactly(lines, e);
      var rest := Staying(lines, e);
      hide Staying;
      AscendingFrom(i, rest);
      assert [] + rest == rest;
    }
  }

  /** The lines from i on that begin a block. */
  function Heads(lines: seq<string>, i: nat): set<nat> {
    set n: nat | i <= n < |lines| && Begins(lines, n)
  }

  lemma HeadsStep(lines: seq<string>, i: nat, e: nat)
    requires i < e <= |lines| && forall n | i < n < e :: !Begins(lines, n)
    ensures |Heads(lines, i)| == (if Begins(lines, i) then 1 else 0) + |Heads(lines, e)|
  {
    hide Begins;
    var more := Heads(lines, e);
    if Begins(lines, i) {
      assert Heads(lines, i) == {i} + more && i !in more;
    } else {
      assert Heads(lines, i) == more;
    }
  }

  /** The blocks counted are the lines that begin one. */
  lemma {:induction false} BlocksCounted(lines: seq<string>, i: nat)
    requires i <= |lines| && (i < |lines| ==> !GoesOn(lines, i))
    ensures Blocks(lines, i) == |Heads(lines, i)|
    decreases |lines| - i
  {
    hide Outside;
    hide GoesOn;
    hide Begins;
    if i == |lines| {
      assert Heads(lines, i) == {};
    } else {
      hide Heads;
      var e := NextOutside(lines, i);
      BlocksCounted(lines, e);
      HeadsStep(lines, i, e);
    }
  }

  lemma AscendingFrom(n: nat, ns: seq<nat>)
    requires Ascending(ns) && forall x | x in ns :: n < x
    ensures Ascending([n] + ns)
  {
    forall a, b | 0 <= a < b < |[n] + ns| ensures ([n] + ns)[a] < ([n] + ns)[b] {
      assert ([n] + ns)[b] == ns[b - 1] && ns[b - 1] in ns;
    }
  }
}
