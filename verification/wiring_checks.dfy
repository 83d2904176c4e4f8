/** verify_shim_wiring.py, and what the wiring establishes for it. */
module WiringChecks {
  import opened Text
  import opened Lines
  import opened Wiring

  // --- What is kept -------------------------------------------------------------------------

  /** The numbers of the input lines in a wired file, in order. */
  function KeptIn(ps: seq<Piece>): seq<nat> {
    if ps == [] then [] else (if ps[0].Kept? then [ps[0].index] else []) + KeptIn(ps[1..])
  }

  /** All line numbers but those of the three replaced instructions. */
  function Survivors(k: Marks, n: nat): seq<nat> {
    if n == 0 then [] else
    Survivors(k, n - 1) + if n - 1 == k.check || n - 1 == k.entry || n - 1 == k.cmd then [] else [n - 1]
  }

  lemma {:induction false} KeptAppend(a: seq<Piece>, b: seq<Piece>)
    ensures KeptIn(a + b) == KeptIn(a) + KeptIn(b)
  {
    hide KeptIn;
    if a == [] {
      assert a + b == b;
      KeptNone();
    } else {
      KeptAppend(a[1..], b);
      KeptStep(a);
      KeptStep(a + b);
      assert (a + b)[1..] == a[1..] + b;
      Regroup(if a[0].Kept? then [a[0].index] else [], KeptIn(a[1..]), KeptIn(b));
    }
  }

  lemma Regroup(a: seq<nat>, b: seq<nat>, c: seq<nat>)
    ensures a + (b + c) == a + b + c
  {
  }

  lemma KeptNone()
    ensures KeptIn([]) == []
  {
  }

  lemma KeptStep(ps: seq<Piece>)
    requires ps != []
    ensures KeptIn(ps) == (if ps[0].Kept? then [ps[0].index] else []) + KeptIn(ps[1..])
  {
  }

  lemma {:induction false} NothingKept(ps: seq<Piece>)
    requires forall p | p in ps :: p.Added?
    ensures KeptIn(ps) == []
  {
    if ps != [] {
      assert ps[0] in ps;
      NothingKept(ps[1..]);
    }
  }

  lemma SelfKept(k: Marks, sh: Shim, i: nat)
    requires i == k.finalFrom ==> i != k.check && i != k.entry && i != k.cmd
    ensures KeptIn(Self(k, sh, i, true)) == if i == k.check || i == k.entry || i == k.cmd then [] else [i]
  {
    hide CheckCall;
    if i == k.finalFrom {
      NothingKept([Added(CopyShim), Added(ChmodShim), Added("")]);
      KeptAppend([Kept(i)], [Added(CopyShim), Added(ChmodShim), Added("")]);
      assert [Kept(i)] + [Added(CopyShim), Added(ChmodShim), Added("")] == Self(k, sh, i, true);
      OneKept(i);
    } else if i == k.check || i == k.entry || i == k.cmd {
      NothingKept(Self(k, sh, i, true));
    } else {
      OneKept(i);
    }
  }

  lemma OneKept(i: nat)
    ensures KeptIn([Kept(i)]) == [i]
  {
    assert KeptIn([Kept(i)][1..]) == [];
  }

  lemma AboveKept(lines: seq<string>, k: Marks, sh: Shim, i: nat)
    requires i < |lines|
    ensures KeptIn(Above(lines, k, sh, i)) == []
  {
    hide ArgLine;
    hide KeptIn;
    NothingKept(Above(lines, k, sh, i));
  }

  lemma {:induction false} UptoKept(lines: seq<string>, sh: Shim, n: nat)
    requires n <= |lines|
    ensures KeptIn(Upto(lines, MarksOf(lines), sh, n, true)) == Survivors(MarksOf(lines), n)
  {
    hide MarksOf;
    hide Above;
    hide Self;
    hide KeptIn;
    var k := MarksOf(lines);
    if n == 0 {
      NothingKept([]);
    } else {
      UptoKept(lines, sh, n - 1);
      MarksApart(lines);
      SelfKept(k, sh, n - 1);
      AboveKept(lines, k, sh, n - 1);
      KeptAppend(Above(lines, k, sh, n - 1), Self(k, sh, n - 1, true));
      KeptAppend(Upto(lines, k, sh, n - 1, true), Above(lines, k, sh, n - 1) + Self(k, sh, n - 1, true));
    }
  }

  /**
   The wired file without its new lines is the input, in order, without the first HEALTHCHECK,
   the first ENTRYPOINT and the first CMD line.
   */
  lemma WiringKeepsTheRest(lines: seq<string>, sh: Shim)
    ensures KeptIn(Wire(lines, sh)) == Survivors(MarksOf(lines), |lines|)
  {
    hide MarksOf;
    hide Survivors;
    hide Upto;
    hide KeptIn;
    var k := MarksOf(lines);
    var upto, end := Upto(lines, k, sh, |lines|, true), End(lines, k);
    var last := if k.entry < |lines| then [] else [Added("")] + Checks(sh);
    UptoKept(lines, sh, |lines|);
    EndsAdded(lines, k, sh);
    NothingKept(end);
    NothingKept(last);
    hide End;
    hide Checks;
    KeptAppend(upto, end);
    KeptAppend(upto + end, last);
  }

  lemma EndsAdded(lines: seq<string>, k: Marks, sh: Shim)
    ensures forall p | p in End(lines, k) :: p.Added?
    ensures forall p | p in [Added("")] + Checks(sh) :: p.Added?
  {
    hide CheckCall;
  }

  // --- The final stage -------------------------------------------------------------------------

  datatype Base = Scratch | Wolfi | Distroless | Debian | Alpine | Other | Unknown

  function KindOf(line: string): Base {
    var lower := Lower(Strip(line));
    if Has(lower, "scratch") then Scratch
    else if Has(lower, "wolfi") then Wolfi
    else if Has(lower, "distroless") then Distroless
    else if Has(lower, "debian") || Has(lower, "ubuntu") then Debian
    else if Has(lower, "alpine") then Alpine
    else Other
  }

  /** `detect_base_type` of both scripts: the last FROM line decides. */
  function BaseType(lines: seq<string>): Base {
    var n := LastInstr(lines, "FROM ", |lines|);
    if n == |lines| then Unknown else KindOf(lines[n])
  }

  predicate NoFrom(ls: seq<string>) {
    forall i | 0 <= i < |ls| :: !Instr(ls[i], "FROM ")
  }

  lemma {:induction false} LastIs(lines: seq<string>, i: nat, n: nat)
    requires n < i <= |lines| && Instr(lines[n], "FROM ")
    requires forall j | n < j < i :: !Instr(lines[j], "FROM ")
    ensures LastInstr(lines, "FROM ", i) == n
  {
    hide Instr;
    if n < i - 1 {
      LastIs(lines, i - 1, n);
    }
  }

  lemma SetupNoFrom(sh: Shim)
    ensures NoFrom([ArgLine(sh.version), ""]) && NoFrom([CopyShim, ChmodShim, ""]) && NoFrom([CopyShim]) && NoFrom([])
  {
    OtherInstr("", "FROM ");
    OtherInstr(ArgLine(sh.version), "FROM ");
    OtherInstr(CopyShim, "FROM ");
    OtherInstr(ChmodShim, "FROM ");
    hide Instr;
  }

  lemma CallsNoFrom(sh: Shim)
    ensures NoFrom([CheckHead, CheckCall(sh.port), "", ShimEntry]) && NoFrom(["", CheckHead, CheckCall(sh.port)])
    ensures NoFrom(["CMD " + sh.cmd])
  {
    OtherInstr("", "FROM ");
    OtherInstr("CMD " + sh.cmd, "FROM ");
    OtherInstr(CheckHead, "FROM ");
    OtherInstr(ShimEntry, "FROM ");
    IndentedOther(sh.port, "FROM ");
    hide Instr;
    hide CheckCall;
  }

  lemma IndentedOther(port: string, word: string)
    requires word != "" && word[0] != 'C'
    ensures !Instr(CheckCall(port), word)
  {
    var line := CheckCall(port);
    var tail := line[2..];
    assert tail[0] == 'C';
    assert line[1..][1..] == tail;
    LStripSame(tail);
    assert LStrip(line) == tail;
    RStripFirst(tail);
    assert Upper(Strip(line))[0] == 'C';
  }

  lemma NoFromAppend(a: seq<string>, b: seq<string>)
    requires NoFrom(a) && NoFrom(b)
    ensures NoFrom(a + b)
  {
    hide Instr;
  }

  /** The text of what a line turns into, healthcheck included. */
  lemma SelfShown(lines: seq<string>, k: Marks, sh: Shim, i: nat)
    requires i < |lines|
    ensures ShownAll(lines, Self(k, sh, i, true)) ==
            if i == k.entry && i != k.finalFrom && i != k.check then [CheckHead, CheckCall(sh.port), "", ShimEntry]
            else SelfText(lines, k, sh, i)
  {
    hide CheckCall;
  }

  lemma NothingAbove(lines: seq<string>, sh: Shim, i: nat)
    requires i < |lines| && !Instr(lines[i], "FROM ")
    ensures Above(lines, MarksOf(lines), sh, i) == [] && i != MarksOf(lines).finalFrom
  {
    hide Instr;
    hide ArgLine;
    hide HasArgAbove;
  }

  /** Where no FROM line is, none appears. */
  lemma StepNoFrom(lines: seq<string>, sh: Shim, i: nat)
    requires i < |lines| && !Instr(lines[i], "FROM ")
    ensures NoFrom(ShownAll(lines, Above(lines, MarksOf(lines), sh, i) + Self(MarksOf(lines), sh, i, true)))
  {
    hide Instr;
    hide MarksOf;
    hide CheckCall;
    hide ArgLine;
    hide ShownAll;
    hide Above;
    hide Self;
    var k := MarksOf(lines);
    NothingAbove(lines, sh, i);
    CallsNoFrom(sh);
    SetupNoFrom(sh);
    SelfShown(lines, k, sh, i);
    assert [] + Self(k, sh, i, true) == Self(k, sh, i, true);
    assert NoFrom([lines[i]]);
    assert [CheckHead, CheckCall(sh.port), "", ShimEntry][3] == ShimEntry;
  }

  lemma {:induction false} UptoNoFrom(lines: seq<string>, sh: Shim, n: nat)
    requires n <= |lines| && forall i | 0 <= i < n :: !Instr(lines[i], "FROM ")
    ensures NoFrom(ShownAll(lines, Upto(lines, MarksOf(lines), sh, n, true)))
  {
    hide Instr;
    hide MarksOf;
    hide NoFrom;
    hide ShownAll;
    hide Above;
    hide Self;
    var k := MarksOf(lines);
    if n == 0 {
      ShownNone(lines);
      SetupNoFrom(sh);
    } else {
      UptoNoFrom(lines, sh, n - 1);
      StepNoFrom(lines, sh, n - 1);
      var before, step := Upto(lines, k, sh, n - 1, true), Above(lines, k, sh, n - 1) + Self(k, sh, n - 1, true);
      ShownAppend(lines, before, step);
      NoFromAppend(ShownAll(lines, before), ShownAll(lines, step));
    }
  }

  lemma NoFromBehind(lines: seq<string>, i: nat)
    requires MarksOf(lines).finalFrom < i < |lines|
    ensures !Instr(lines[i], "FROM ")
  {
    hide Instr;
  }

  lemma {:induction false} UptoFinal(lines: seq<string>, sh: Shim, n: nat) returns (head: seq<string>, rest: seq<string>)
    requires MarksOf(lines).finalFrom < n <= |lines|
    ensures NoFrom(rest) && Setup <= rest && (!sh.staged ==> |head| >= 2 && head[|head| - 2..] == [ShimFrom, ""])
    ensures ShownAll(lines, Upto(lines, MarksOf(lines), sh, n, true)) == head + ([lines[MarksOf(lines).finalFrom]] + rest)
  {
    hide Instr;
    hide MarksOf;
    hide NoFrom;
    hide ShownAll;
    hide Above;
    hide Self;
    var k := MarksOf(lines);
    var before, above, self := Upto(lines, k, sh, n - 1, true), Above(lines, k, sh, n - 1), Self(k, sh, n - 1, true);
    ShownAppend(lines, before, above + self);
    if n == k.finalFrom + 1 {
      SelfShown(lines, k, sh, n - 1);
      SetupNoFrom(sh);
      ShownAppend(lines, above, self);
      AboveShown(lines, k, sh, n - 1);
      head, rest := ShownAll(lines, before) + ShownAll(lines, above), Setup;
      assert ShownAll(lines, self) == [lines[k.finalFrom]] + rest;
    } else {
      head, rest := UptoFinal(lines, sh, n - 1);
      NoFromBehind(lines, n - 1);
      StepNoFrom(lines, sh, n - 1);
      var step := ShownAll(lines, above + self);
      NoFromAppend(rest, step);
      assert head + ([lines[k.finalFrom]] + rest) + step == head + ([lines[k.finalFrom]] + (rest + step));
      rest := rest + step;
    }
  }

  /** What the final stage starts with. */
  const Setup := [CopyShim, ChmodShim, ""]

  lemma AboveShown(lines: seq<string>, k: Marks, sh: Shim, i: nat)
    requires i < |lines| && i == k.finalFrom
    ensures !sh.staged ==>
              var above := ShownAll(lines, Above(lines, k, sh, i));
              |above| >= 2 && above[|above| - 2..] == [ShimFrom, ""]
  {
    hide HasArgAbove;
    hide ArgLine;
    hide ShimFrom;
  }

  /** What stands behind the last input line. */
  lemma TailNoFrom(lines: seq<string>, sh: Shim)
    ensures var k := MarksOf(lines);
            NoFrom(ShownAll(lines, End(lines, k)) + ShownAll(lines, if k.entry < |lines| then [] else [Added("")] + Checks(sh)))
  {
    hide Instr;
    hide MarksOf;
    hide NoFrom;
    hide ShownAll;
    hide CheckCall;
    SetupNoFrom(sh);
    CallsNoFrom(sh);
    EndShown(lines);
    ChecksShown(lines, sh);
    ShownNone(lines);
    NoFromAppend(ShownAll(lines, End(lines, MarksOf(lines))),
                 ShownAll(lines, if MarksOf(lines).entry < |lines| then [] else [Added("")] + Checks(sh)));
  }

  lemma WireShown(lines: seq<string>, sh: Shim)
    ensures var k := MarksOf(lines);
            ShownAll(lines, Wire(lines, sh)) == ShownAll(lines, Upto(lines, k, sh, |lines|, true)) +
            (ShownAll(lines, End(lines, k)) + ShownAll(lines, if k.entry < |lines| then [] else [Added("")] + Checks(sh)))
  {
    hide MarksOf;
    hide ShownAll;
    hide Upto;
    hide Checks;
    var k := MarksOf(lines);
    var upto, end := Upto(lines, k, sh, |lines|, true), End(lines, k);
    var last := if k.entry < |lines| then [] else [Added("")] + Checks(sh);
    ShownAppend(lines, upto, end);
    ShownAppend(lines, upto + end, last);
  }

  /** The final FROM line stays the final one, so the detected base type does not change. */
  lemma WiringKeepsTheBase(lines: seq<string>, sh: Shim)
    ensures var wired, final := ShownAll(lines, Wire(lines, sh)), LastInstr(lines, "FROM ", |lines|);
            var last := LastInstr(wired, "FROM ", |wired|);
            && (final < |lines| <==> last < |wired|)
            && (final < |lines| ==> wired[last] == lines[final])
            && BaseType(wired) == BaseType(lines)
  {
    hide Instr;
    hide Wire;
    hide Upto;
    hide ShownAll;
    hide CheckCall;
    hide KindOf;
    var k := MarksOf(lines);
    WireShown(lines, sh);
    TailNoFrom(lines, sh);
    var wired := ShownAll(lines, Wire(lines, sh));
    var tail := ShownAll(lines, End(lines, k)) + ShownAll(lines, if k.entry < |lines| then [] else [Added("")] + Checks(sh));
    if k.finalFrom < |lines| {
      var head, rest := UptoFinal(lines, sh, |lines|);
      NoFromAppend(rest, tail);
      assert wired == head + ([lines[k.finalFrom]] + (rest + tail));
      LastAt(head, lines[k.finalFrom], rest + tail);
    } else {
      UptoNoFrom(lines, sh, |lines|);
      NoFromAppend(ShownAll(lines, Upto(lines, k, sh, |lines|, true)), tail);
      LastNone(wired);
    }
  }

  lemma LastAt(head: seq<string>, line: string, rest: seq<string>)
    requires Instr(line, "FROM ") && NoFrom(rest)
    ensures var ls := head + ([line] + rest); LastInstr(ls, "FROM ", |ls|) == |head|
  {
    hide Instr;
    var ls := head + ([line] + rest);
    assert forall j | |head| < j < |ls| :: ls[j] == rest[j - |head| - 1];
    LastIs(ls, |ls|, |head|);
  }

  lemma LastNone(ls: seq<string>)
    requires NoFrom(ls)
    ensures LastInstr(ls, "FROM ", |ls|) == |ls|
  {
    hide Instr;
  }
}
