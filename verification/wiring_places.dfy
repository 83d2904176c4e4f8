/** Where the new lines of a wired Dockerfile stand, and that there are no others. */
module WiringPlaces {
  import opened Text
  import opened Lines
  import opened Wiring
  import opened WiringChecks
  import opened WiringTheorem

  // --- Around a line of the input ------------------------------------------------------------

  /** The pieces of line i, with those above it and below it; as many input lines stand above as survive. */
  lemma {:induction false} AroundLine(lines: seq<string>, sh: Shim, i: nat, n: nat)
    returns (before: seq<Piece>, after: seq<Piece>)
    requires i < n <= |lines|
    ensures var k := MarksOf(lines);
            Upto(lines, k, sh, n, true) == before + (Above(lines, k, sh, i) + (Self(k, sh, i, true) + after))
    ensures before == Upto(lines, MarksOf(lines), sh, i, true)
  {
    hide MarksOf;
    hide Above;
    hide Self;
    var k := MarksOf(lines);
    var above, self := Above(lines, k, sh, i), Self(k, sh, i, true);
    if i == n - 1 {
      before, after := Upto(lines, k, sh, i, true), [];
      assert above + (self + []) == above + self;
    } else {
      var after' := [];
      before, after' := AroundLine(lines, sh, i, n - 1);
      var step := Above(lines, k, sh, n - 1) + Self(k, sh, n - 1, true);
      after := after' + step;
      Longer(before, above, self, after', step);
    }
  }

  lemma Longer(a: seq<Piece>, b: seq<Piece>, c: seq<Piece>, d: seq<Piece>, e: seq<Piece>)
    ensures a + (b + (c + d)) + e == a + (b + (c + (d + e)))
  {
  }

  lemma InWire(lines: seq<string>, sh: Shim, i: nat) returns (before: seq<Piece>, after: seq<Piece>)
    requires i < |lines|
    ensures var k := MarksOf(lines);
            Wire(lines, sh) == before + (Above(lines, k, sh, i) + (Self(k, sh, i, true) + after))
    ensures before == Upto(lines, MarksOf(lines), sh, i, true) && KeptIn(before) == Survivors(MarksOf(lines), i)
  {
    hide MarksOf;
    hide Above;
    hide Self;
    hide Upto;
    hide KeptIn;
    hide Survivors;
    hide Checks;
    var k := MarksOf(lines);
    UptoKept(lines, sh, i);
    var after' := [];
    before, after' := AroundLine(lines, sh, i, |lines|);
    var tail := End(lines, k) + if k.entry < |lines| then [] else [Added("")] + Checks(sh);
    after := after' + tail;
    Longer(before, Above(lines, k, sh, i), Self(k, sh, i, true), after', tail);
    var upto := Upto(lines, k, sh, |lines|, true);
    assert Wire(lines, sh) == upto + tail;
  }

  // --- The shim in the final stage --------------------------------------------------------------

  /**
   For every input with a FROM line: below the last FROM line of the wired file stand the copy, the
   chmod and an empty line; and when no stage was there, the shim stage stands right above it.
   */
  lemma ShimInFinalStage(lines: seq<string>, sh: Shim)
    requires LastInstr(lines, "FROM ", |lines|) < |lines|
    ensures var wired := ShownAll(lines, Wire(lines, sh));
            var last := LastInstr(wired, "FROM ", |wired|);
            && last + 3 < |wired| && wired[last + 1..last + 4] == [CopyShim, ChmodShim, ""]
            && (!sh.staged ==> last >= 2 && wired[last - 2..last] == [ShimFrom, ""])
  {
    hide *;
    var head, line, rest := FinalParts(lines, sh);
    FinalStage(ShownAll(lines, Wire(lines, sh)), head, line, rest);
  }

  /** Around the last FROM line of the wired file. */
  lemma FinalParts(lines: seq<string>, sh: Shim) returns (head: seq<string>, line: string, rest: seq<string>)
    requires LastInstr(lines, "FROM ", |lines|) < |lines|
    ensures ShownAll(lines, Wire(lines, sh)) == head + ([line] + rest)
    ensures Setup <= rest && Instr(line, "FROM ") && NoFrom(rest)
    ensures !sh.staged ==> |head| >= 2 && head[|head| - 2..] == [ShimFrom, ""]
  {
    hide Instr;
    hide NoFrom;
    hide ShownAll;
    hide Wire;
    hide Upto;
    hide Checks;
    hide Setup;
    hide ShimFrom;
    hide CheckCall;
    hide CopyShim;
    hide ChmodShim;
    hide End;
    var k := MarksOf(lines);
    line := lines[k.finalFrom];
    assert Instr(line, "FROM ");
    var below;
    head, below := UptoFinal(lines, sh, |lines|);
    WireShown(lines, sh);
    TailNoFrom(lines, sh);
    hide MarksOf;
    var tail := ShownAll(lines, End(lines, k)) + ShownAll(lines, if k.entry < |lines| then [] else [Added("")] + Checks(sh));
    rest := below + tail;
    NoFromAppend(below, tail);
    LongerStill(below, tail);
    assert ShownAll(lines, Wire(lines, sh)) == head + ([line] + below) + tail;
    assert head + ([line] + below) + tail == head + ([line] + rest);
  }

  lemma LongerStill(rest: seq<string>, tail: seq<string>)
    requires Setup <= rest
    ensures Setup <= rest + tail
  {
    hide Setup;
  }

  lemma FinalStage(wired: seq<string>, head: seq<string>, line: string, rest: seq<string>)
    requires wired == head + ([line] + rest) && Setup <= rest && Instr(line, "FROM ") && NoFrom(rest)
    ensures var last := LastInstr(wired, "FROM ", |wired|);
            && last == |head| && last + 3 < |wired| && wired[last + 1..last + 4] == [CopyShim, ChmodShim, ""]
            && (last >= 2 ==> wired[last - 2..last] == head[last - 2..])
  {
    hide *;
    LastAt(head, line, rest);
    Around(head, line, rest);
  }

  lemma Around(head: seq<string>, line: string, rest: seq<string>)
    requires Setup <= rest
    ensures var all := head + ([line] + rest);
            && |all| > |head| + 3 && all[|head| + 1..|head| + 4] == [CopyShim, ChmodShim, ""]
            && (|head| >= 2 ==> all[|head| - 2..|head|] == head[|head| - 2..])
  {
    hide CopyShim;
    hide ChmodShim;
  }

  /** The new argument stands right above the first FROM line of the wired file. */
  lemma ArgAboveTheFirst(lines: seq<string>, sh: Shim)
    requires var f := FirstInstr(lines, "FROM ", 0); f < |lines| && !sh.staged && !HasArgAbove(lines, f)
    ensures var wired := ShownAll(lines, Wire(lines, sh));
            var first := FirstInstr(wired, "FROM ", 0);
            2 <= first < |wired| && wired[first - 2..first] == [ArgLine(sh.version), ""]
  {
    hide Instr;
    hide ShownAll;
    hide Wire;
    hide Upto;
    hide NoFrom;
    hide KeptIn;
    hide Survivors;
    var f := FirstInstr(lines, "FROM ", 0);
    var k := MarksOf(lines);
    var before, after := InWire(lines, sh, f);
    UptoNoFrom(lines, sh, f);
    SetupNoFrom(sh);
    FromIsFrom();
    hide HasArgAbove;
    hide ArgLine;
    hide ShimFrom;
    var line, more := FirstShown(lines, sh, f);
    var head, arg := ShownAll(lines, before), [ArgLine(sh.version), ""];
    var rest := more + ShownAll(lines, after);
    WholeShown(lines, before, Above(lines, k, sh, f), Self(k, sh, f, true), after);
    hide Above;
    hide Self;
    hide MarksOf;
    var wired := ShownAll(lines, Wire(lines, sh));
    NoFromAppend(head, arg);
    Rearranged(head, ShownAll(lines, Above(lines, k, sh, f)), ShownAll(lines, Self(k, sh, f, true)), ShownAll(lines, after),
               arg, [line] + more);
    assert [line] + more + ShownAll(lines, after) == [line] + rest;
    assert wired == head + arg + ([line] + rest);
    FirstAt(head + arg, line, rest);
    assert (head + arg + ([line] + rest))[|head|..|head| + 2] == arg;
  }

  lemma Rearranged(a: seq<string>, b: seq<string>, c: seq<string>, d: seq<string>, x: seq<string>, y: seq<string>)
    requires b + c == x + y
    ensures a + (b + (c + d)) == a + x + (y + d)
  {
    assert b + (c + d) == (b + c) + d;
    assert (x + y) + d == x + (y + d);
  }

  lemma WholeShown(lines: seq<string>, a: seq<Piece>, b: seq<Piece>, c: seq<Piece>, d: seq<Piece>)
    ensures ShownAll(lines, a + (b + (c + d))) ==
            ShownAll(lines, a) + (ShownAll(lines, b) + (ShownAll(lines, c) + ShownAll(lines, d)))
  {
    hide ShownAll;
    ShownAppend(lines, c, d);
    ShownAppend(lines, b, c + d);
    ShownAppend(lines, a, b + (c + d));
  }

  lemma FromIsFrom()
    ensures Instr(ShimFrom, "FROM ")
  {
    LStripSame(ShimFrom);
    var stage := " AS " + "shim";
    assert ShimFrom[|ShimFrom| - 1] == stage[|stage| - 1] == 'm';
    RStripSame(ShimFrom);
    assert ShimFrom[..5] == "FROM ";
    assert Upper(ShimFrom)[..5] == "FROM ";
  }

  /** The first FROM line of the input, or the shim stage above it, behind the argument. */
  lemma FirstShown(lines: seq<string>, sh: Shim, f: nat) returns (line: string, more: seq<string>)
    requires f == FirstInstr(lines, "FROM ", 0) < |lines| && !sh.staged && !HasArgAbove(lines, f)
    requires Instr(ShimFrom, "FROM ")
    ensures Instr(line, "FROM ")
    ensures var k := MarksOf(lines);
            ShownAll(lines, Above(lines, k, sh, f)) + ShownAll(lines, Self(k, sh, f, true)) ==
            [ArgLine(sh.version), ""] + ([line] + more)
  {
    hide Instr;
    hide ArgLine;
    hide HasArgAbove;
    hide ShimFrom;
    hide CopyShim;
    hide ChmodShim;
    MarksApart(lines);
    var k := MarksOf(lines);
    SelfShown(lines, k, sh, f);
    AboveFirst(lines, k, sh, f);
    if f == k.finalFrom {
      line, more := ShimFrom, [""] + SelfText(lines, k, sh, f);
    } else {
      line, more := lines[f], [];
    }
  }

  lemma AboveFirst(lines: seq<string>, k: Marks, sh: Shim, i: nat)
    requires i < |lines| && i == k.firstFrom && !sh.staged && !HasArgAbove(lines, i)
    ensures ShownAll(lines, Above(lines, k, sh, i)) ==
            [ArgLine(sh.version), ""] + if i == k.finalFrom then [ShimFrom, ""] else []
  {
    hide ArgLine;
    hide HasArgAbove;
    hide ShimFrom;
  }

  lemma FirstAt(head: seq<string>, line: string, rest: seq<string>)
    requires Instr(line, "FROM ") && NoFrom(head)
    ensures FirstInstr(head + ([line] + rest), "FROM ", 0) == |head|
  {
    hide Instr;
    FirstIs(head + ([line] + rest), "FROM ", 0, |head|);
  }

  // --- The healthcheck --------------------------------------------------------------------------

  /** Right above the first entrypoint of the wired file, which is the new one; or at the end of the file. */
  lemma CheckAboveTheEntry(lines: seq<string>, sh: Shim)
    ensures var wired := ShownAll(lines, Wire(lines, sh));
            var entry := FirstInstr(wired, "ENTRYPOINT ", 0);
            if FirstInstr(lines, "ENTRYPOINT ", 0) < |lines|
            then 3 <= entry < |wired| && wired[entry - 3..entry + 1] == [CheckHead, CheckCall(sh.port), "", ShimEntry]
            else |wired| >= 3 && wired[|wired| - 3..] == ["", CheckHead, CheckCall(sh.port)]
  {
    hide Instr;
    hide ShownAll;
    hide NoEntry;
    hide Upto;
    hide CheckCall;
    hide Checks;
    var k := MarksOf(lines);
    if k.entry < |lines| {
      hide Wire;
      var rest := EntryShape(lines, sh);
      UptoEntry(lines, sh, k.entry);
      hide MarksOf;
      ChecksNoEntry(sh.port);
      var head, checks := ShownAll(lines, Upto(lines, k, sh, k.entry, false)), [CheckHead, CheckCall(sh.port), ""];
      NoEntryAppend(head, checks);
      FirstBehind(head + checks, rest);
      Around4(head, checks, ShimEntry, rest);
    } else {
      var upto := Upto(lines, k, sh, |lines|, true) + End(lines, k);
      ShownAppend(lines, upto, [Added("")] + Checks(sh));
      ChecksShown(lines, sh);
    }
  }

  lemma Around4(head: seq<string>, checks: seq<string>, entry: string, rest: seq<string>)
    requires |checks| == 3
    ensures var all := head + checks + ([entry] + rest); all[|head|..|head| + 4] == checks + [entry]
  {
  }

  lemma ChecksNoEntry(port: string)
    ensures NoEntry([CheckHead, CheckCall(port), ""])
  {
    OtherInstr("", "ENTRYPOINT ");
    OtherInstr(CheckHead, "ENTRYPOINT ");
    IndentedOther(port, "ENTRYPOINT ");
    hide Instr;
    hide CheckCall;
  }

  // --- In the place of the old ones ----------------------------------------------------------------

  /** The new entrypoint takes the place of the first old one: as many input lines stand above it. */
  lemma EntryInPlace(lines: seq<string>, sh: Shim) returns (j: nat)
    requires FirstInstr(lines, "ENTRYPOINT ", 0) < |lines|
    ensures j < |Wire(lines, sh)| && Wire(lines, sh)[j] == Added(ShimEntry)
    ensures KeptIn(Wire(lines, sh)[..j]) == Survivors(MarksOf(lines), FirstInstr(lines, "ENTRYPOINT ", 0))
  {
    hide Instr;
    hide Wire;
    hide Upto;
    hide KeptIn;
    hide Survivors;
    var k := MarksOf(lines);
    var before, after := InWire(lines, sh, k.entry);
    MarksApart(lines);
    hide ShimEntry;
    hide CheckHead;
    hide CheckCall;
    hide HasArgAbove;
    hide ArgLine;
    var checks := Checks(sh) + [Added("")];
    assert Above(lines, k, sh, k.entry) == [] && Self(k, sh, k.entry, true) == checks + [Added(ShimEntry)];
    j := |before| + |checks|;
    PlaceIs(before, checks, Added(ShimEntry), after);
    ChecksAdded(sh);
    NothingKept(checks);
    KeptAppend(before, checks);
  }

  lemma PlaceIs(before: seq<Piece>, more: seq<Piece>, p: Piece, after: seq<Piece>)
    ensures var all := before + ([] + (more + [p] + after));
            all[|before| + |more|] == p && all[..|before| + |more|] == before + more
  {
  }

  lemma ChecksAdded(sh: Shim)
    ensures forall p | p in Checks(sh) + [Added("")] :: p.Added?
  {
    hide CheckCall;
  }

  /** And so does the new command. */
  lemma CommandInPlace(lines: seq<string>, sh: Shim) returns (j: nat)
    requires FirstInstr(lines, "CMD ", 0) < |lines|
    ensures j < |Wire(lines, sh)| && Wire(lines, sh)[j] == Added("CMD " + sh.cmd)
    ensures KeptIn(Wire(lines, sh)[..j]) == Survivors(MarksOf(lines), FirstInstr(lines, "CMD ", 0))
  {
    hide Instr;
    hide Wire;
    hide Upto;
    hide KeptIn;
    hide Survivors;
    var k := MarksOf(lines);
    var before, after := InWire(lines, sh, k.cmd);
    MarksApart(lines);
    hide HasArgAbove;
    hide ArgLine;
    hide Checks;
    var command := Added("CMD " + sh.cmd);
    assert Above(lines, k, sh, k.cmd) == [] && Self(k, sh, k.cmd, true) == [] + [command];
    j := |before|;
    PlaceIs(before, [], command, after);
    assert before + [] == before;
  }

  // --- Nothing else is new ---------------------------------------------------------------------------

  function AddedIn(ps: seq<Piece>): seq<string> {
    if ps == [] then [] else (if ps[0].Added? then [ps[0].text] else []) + AddedIn(ps[1..])
  }

  lemma {:induction false} AddedAppend(a: seq<Piece>, b: seq<Piece>)
    ensures AddedIn(a + b) == AddedIn(a) + AddedIn(b)
  {
    if a == [] {
      assert a + b == b;
    } else {
      assert (a + b)[1..] == a[1..] + b;
      AddedAppend(a[1..], b);
    }
  }

  /** How often x is among the texts, if they are there. */
  function If(yes: bool, texts: seq<string>, x: string): nat {
    if yes then multiset(texts)[x] else 0
  }

  /** How often x is among the new lines for the instructions of the first n lines. */
  function NewLines(lines: seq<string>, sh: Shim, n: nat, x: string): nat
    requires n <= |lines|
  {
    var first, last := FirstInstr(lines, "FROM ", 0), LastInstr(lines, "FROM ", |lines|);
    If(first < n && !sh.staged && !HasArgAbove(lines, first), [ArgLine(sh.version), ""], x) +
    If(last < n && !sh.staged, [ShimFrom, ""], x) +
    If(last < n, [CopyShim, ChmodShim, ""], x) +
    If(FirstInstr(lines, "ENTRYPOINT ", 0) < n, [CheckHead, CheckCall(sh.port), "", ShimEntry], x) +
    If(FirstInstr(lines, "CMD ", 0) < n, ["CMD " + sh.cmd], x)
  }

  /** What line i adds. */
  function NewAt(lines: seq<string>, k: Marks, sh: Shim, i: nat, x: string): nat
    requires i < |lines|
  {
    NewAbove(lines, k, sh, i, x) + NewSelf(k, sh, i, x)
  }

  function NewAbove(lines: seq<string>, k: Marks, sh: Shim, i: nat, x: string): nat
    requires i < |lines|
  {
    If(i == k.firstFrom && !sh.staged && !HasArgAbove(lines, i), [ArgLine(sh.version), ""], x) +
    If(i == k.finalFrom && !sh.staged, [ShimFrom, ""], x)
  }

  function NewSelf(k: Marks, sh: Shim, i: nat, x: string): nat {
    If(i == k.finalFrom, [CopyShim, ChmodShim, ""], x) +
    If(i == k.entry, [CheckHead, CheckCall(sh.port), "", ShimEntry], x) +
    If(i == k.cmd, ["CMD " + sh.cmd], x)
  }

  lemma IfNo(texts: seq<string>, x: string)
    ensures If(false, texts, x) == 0
  {
  }

  lemma NewStep(lines: seq<string>, sh: Shim, i: nat, x: string)
    requires i < |lines|
    ensures NewLines(lines, sh, i + 1, x) == NewLines(lines, sh, i, x) + NewAt(lines, MarksOf(lines), sh, i, x)
  {
    IfNo([ArgLine(sh.version), ""], x);
    IfNo([ShimFrom, ""], x);
    IfNo([CopyShim, ChmodShim, ""], x);
    IfNo([CheckHead, CheckCall(sh.port), "", ShimEntry], x);
    IfNo(["CMD " + sh.cmd], x);
    hide If;
    hide ArgLine;
    hide CheckCall;
    hide HasArgAbove;
    hide Instr;
    hide ShimFrom;
    hide CopyShim;
    hide ChmodShim;
    hide CheckHead;
    hide ShimEntry;
  }

  lemma {:induction false} AllAdded(texts: seq<string>)
    ensures AddedIn(AsAdded(texts)) == texts
  {
    if texts != [] {
      assert AsAdded(texts)[1..] == AsAdded(texts[1..]);
      AllAdded(texts[1..]);
      assert texts == [texts[0]] + texts[1..];
    }
  }

  function AsAdded(texts: seq<string>): (r: seq<Piece>)
    ensures |r| == |texts| && forall i | 0 <= i < |r| :: r[i] == Added(texts[i])
  {
    seq(|texts|, i requires 0 <= i < |texts| => Added(texts[i]))
  }

  lemma AboveNew(lines: seq<string>, k: Marks, sh: Shim, i: nat, x: string)
    requires i < |lines|
    ensures multiset(AddedIn(Above(lines, k, sh, i)))[x] == NewAbove(lines, k, sh, i, x)
  {
    hide ArgLine;
    hide HasArgAbove;
    hide ShimFrom;
    hide AddedIn;
    var arg, stage := i == k.firstFrom && !sh.staged && !HasArgAbove(lines, i), i == k.finalFrom && !sh.staged;
    var a, b := if arg then [Added(ArgLine(sh.version)), Added("")] else [], if stage then [Added(ShimFrom), Added("")] else [];
    PairNew(arg, ArgLine(sh.version), x);
    PairNew(stage, ShimFrom, x);
    hide If;
    CountAppend(a, b, x);
  }

  lemma PairNew(yes: bool, text: string, x: string)
    ensures multiset(AddedIn(if yes then [Added(text), Added("")] else []))[x] == If(yes, [text, ""], x)
  {
    AllAdded([text, ""]);
    assert [Added(text), Added("")] == AsAdded([text, ""]);
  }

  lemma SelfNew(lines: seq<string>, k: Marks, sh: Shim, i: nat, x: string)
    requires i < |lines| && (i == k.finalFrom ==> i != k.check && i != k.entry && i != k.cmd)
    requires (i == k.entry ==> i != k.check && i != k.cmd) && (i == k.check ==> i != k.cmd)
    ensures multiset(AddedIn(Self(k, sh, i, true)))[x] ==
            If(i == k.finalFrom, [CopyShim, ChmodShim, ""], x) +
            If(i == k.entry, [CheckHead, CheckCall(sh.port), "", ShimEntry], x) + If(i == k.cmd, ["CMD " + sh.cmd], x)
  {
    SelfParts(k, sh, i);
    IfNo([CopyShim, ChmodShim, ""], x);
    IfNo([CheckHead, CheckCall(sh.port), "", ShimEntry], x);
    IfNo(["CMD " + sh.cmd], x);
    hide Self;
    hide CheckCall;
    hide CheckHead;
    hide ShimEntry;
    hide CopyShim;
    hide ChmodShim;
  }

  lemma SelfParts(k: Marks, sh: Shim, i: nat)
    ensures AddedIn(Self(k, sh, i, true)) ==
            if i == k.finalFrom then [CopyShim, ChmodShim, ""]
            else if i == k.check then []
            else if i == k.entry then [CheckHead, CheckCall(sh.port), "", ShimEntry]
            else if i == k.cmd then ["CMD " + sh.cmd] else []
  {
    hide CheckCall;
    hide CheckHead;
    hide ShimEntry;
    hide CopyShim;
    hide ChmodShim;
    var self := Self(k, sh, i, true);
    if i == k.finalFrom {
      AllAdded([CopyShim, ChmodShim, ""]);
      assert self[1..] == AsAdded([CopyShim, ChmodShim, ""]);
    } else if i == k.check {
    } else if i == k.entry {
      AllAdded([CheckHead, CheckCall(sh.port), "", ShimEntry]);
      assert self == AsAdded([CheckHead, CheckCall(sh.port), "", ShimEntry]);
    } else if i == k.cmd {
      AllAdded(["CMD " + sh.cmd]);
      assert self == AsAdded(["CMD " + sh.cmd]);
    } else {
      assert self[1..] == [];
    }
  }

  lemma CountAppend(a: seq<Piece>, b: seq<Piece>, x: string)
    ensures multiset(AddedIn(a + b))[x] == multiset(AddedIn(a))[x] + multiset(AddedIn(b))[x]
  {
    AddedAppend(a, b);
  }

  lemma SelfSum(k: Marks, sh: Shim, i: nat, x: string)
    ensures NewSelf(k, sh, i, x) ==
            If(i == k.finalFrom, [CopyShim, ChmodShim, ""], x) +
            If(i == k.entry, [CheckHead, CheckCall(sh.port), "", ShimEntry], x) + If(i == k.cmd, ["CMD " + sh.cmd], x)
  {
    hide If;
    hide CheckCall;
  }

  lemma StepNew(lines: seq<string>, sh: Shim, i: nat, x: string)
    requires i < |lines|
    ensures var k := MarksOf(lines);
            multiset(AddedIn(Above(lines, k, sh, i) + Self(k, sh, i, true)))[x] == NewAt(lines, k, sh, i, x)
  {
    var k := MarksOf(lines);
    MarksApart(lines);
    hide MarksOf;
    AboveNew(lines, k, sh, i, x);
    SelfNew(lines, k, sh, i, x);
    SelfSum(k, sh, i, x);
    hide Above;
    hide Self;
    hide If;
    hide AddedIn;
    hide NewAbove;
    hide NewSelf;
    CountAppend(Above(lines, k, sh, i), Self(k, sh, i, true), x);
  }

  lemma {:induction false} NewUpto(lines: seq<string>, sh: Shim, n: nat, x: string)
    requires n <= |lines|
    ensures multiset(AddedIn(Upto(lines, MarksOf(lines), sh, n, true)))[x] == NewLines(lines, sh, n, x)
  {
    hide MarksOf;
    hide Above;
    hide Self;
    hide AddedIn;
    hide If;
    var k := MarksOf(lines);
    if n == 0 {
      NoneNew(lines, sh, x);
    } else {
      hide NewLines;
      hide NewAt;
      NewUpto(lines, sh, n - 1, x);
      NewStep(lines, sh, n - 1, x);
      StepNew(lines, sh, n - 1, x);
      CountAppend(Upto(lines, k, sh, n - 1, true), Above(lines, k, sh, n - 1) + Self(k, sh, n - 1, true), x);
    }
  }

  lemma NoneNew(lines: seq<string>, sh: Shim, x: string)
    ensures multiset(AddedIn(Upto(lines, MarksOf(lines), sh, 0, true)))[x] == NewLines(lines, sh, 0, x) == 0
  {
  }

  lemma EndNew(lines: seq<string>, sh: Shim, x: string)
    ensures var k := MarksOf(lines);
            && k.entry <= |lines| && multiset(AddedIn(End(lines, k)))[x] == If(k.finalFrom == |lines|, [CopyShim], x)
            && multiset(AddedIn(if k.entry < |lines| then [] else [Added("")] + Checks(sh)))[x] ==
               If(k.entry == |lines|, ["", CheckHead, CheckCall(sh.port)], x)
  {
    hide CheckCall;
    hide CheckHead;
    hide CopyShim;
    hide Instr;
    hide Checks;
    var k := MarksOf(lines);
    assert k.entry <= |lines|;
    hide MarksOf;
    AllAdded([]);
    AllAdded([CopyShim]);
    assert [Added(CopyShim)] == AsAdded([CopyShim]);
    TailNew(sh);
  }

  lemma TailNew(sh: Shim)
    ensures AddedIn([Added("")] + Checks(sh)) == ["", CheckHead, CheckCall(sh.port)]
  {
    hide CheckCall;
    hide CheckHead;
    AllAdded(["", CheckHead, CheckCall(sh.port)]);
    assert [Added("")] + Checks(sh) == AsAdded(["", CheckHead, CheckCall(sh.port)]);
  }

  lemma NewInAll(lines: seq<string>, sh: Shim, k: Marks, x: string)
    requires k == MarksOf(lines)
    ensures multiset(AddedIn(Wire(lines, sh)))[x] ==
            NewLines(lines, sh, |lines|, x) +
            If(k.finalFrom == |lines|, [CopyShim], x) + If(k.entry == |lines|, ["", CheckHead, CheckCall(sh.port)], x)
  {
    hide *;
    NewUpto(lines, sh, |lines|, x);
    EndNew(lines, sh, x);
    WireParts(lines, sh);
    var upto, end := Upto(lines, k, sh, |lines|, true), End(lines, k);
    var checks := if k.entry < |lines| then [] else [Added("")] + Checks(sh);
    CountAppend(upto, end, x);
    CountAppend(upto + end, checks, x);
  }

  /** The new lines of a wired file are these and no others: any text is new as often as it is listed. */
  lemma NewLinesExactly(lines: seq<string>, sh: Shim, x: string)
    ensures multiset(AddedIn(Wire(lines, sh)))[x] ==
            NewLines(lines, sh, |lines|, x) +
            If(LastInstr(lines, "FROM ", |lines|) == |lines|, [CopyShim], x) +
            If(FirstInstr(lines, "ENTRYPOINT ", 0) == |lines|, ["", CheckHead, CheckCall(sh.port)], x)
  {
    hide *;
    NewInAll(lines, sh, MarksOf(lines), x);
    MarksAre(lines);
  }

  lemma MarksAre(lines: seq<string>)
    ensures MarksOf(lines).finalFrom == LastInstr(lines, "FROM ", |lines|)
    ensures MarksOf(lines).entry == FirstInstr(lines, "ENTRYPOINT ", 0)
  {
    hide Instr;
  }

  lemma WireParts(lines: seq<string>, sh: Shim)
    ensures var k := MarksOf(lines);
            Wire(lines, sh) == Upto(lines, k, sh, |lines|, true) + End(lines, k) +
                               (if k.entry < |lines| then [] else [Added("")] + Checks(sh))
  {
    hide MarksOf;
    hide Upto;
    hide End;
    hide Checks;
  }
}
