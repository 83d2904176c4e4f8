/** wire_health_shim.py: wiring the health shim into a Dockerfile. */
module Wiring {
  import opened Text
  import opened Lines

  const ShimBin := "/usr/local/bin/shim"
  const Registry := "ghcr.io/wyattau/" + "evergreenshim/"
  const StageName := "health-shim:" + "${SHIM_VERSION}"

  const CopyShim := "COPY --from=shim" + (" /shim " + ShimBin)
  const ChmodShim := "RUN chmod +x " + (ShimBin + " || true")
  const ShimEntry := "ENTRYPOINT " + ("[\"" + (ShimBin + ("\", " + ("\"run\"" + "]"))))
  const ShimFrom := "FROM " + (Registry + (StageName + (" AS " + "shim")))

  function ArgLine(version: string): string {
    "ARG " + ("SHIM_VERSION" + ("=" + version))
  }

  const CheckHead := "HEALTHCHECK " + ("--interval=10s " + ("--timeout=5s " + ("--start-period=5s " + "--retries=3 \\")))

  function CheckCall(port: string): string {
    "  CMD " + ("[\"" + (ShimBin + ("\", " + ("\"healthcheck\"" + (", \"--tcp\", \"127.0.0.1:" + (port + "\"]"))))))
  }

  /** `has_shim_stage` */
  predicate HasStage(content: string) {
    Has(Lower(content), "evergreenshim/" + "health-shim")
  }

  /** `has_shim_wiring` */
  predicate HasWiring(content: string) {
    Has(content, "COPY --from=shim") && (Has(content, "/shim") || Has(content, "/usr/local/bin/shim"))
  }

  /** What the wiring is given besides the file: the rewritten CMD arguments are already printed. */
  datatype Shim = Shim(version: string, port: string, cmd: string, staged: bool)

  /** A line of the wired file: a line of the input, known by its number, or a new one. */
  datatype Piece = Kept(index: nat) | Added(text: string)

  function Checks(sh: Shim): seq<Piece> {
    [Added(CheckHead), Added(CheckCall(sh.port))]
  }

  /** The instructions that the wiring looks for, by line number. */
  datatype Marks = Marks(firstFrom: nat, finalFrom: nat, check: nat, entry: nat, cmd: nat)

  function MarksOf(lines: seq<string>): (k: Marks)
  {
    Marks(FirstInstr(lines, "FROM ", 0), LastInstr(lines, "FROM ", |lines|), FirstInstr(lines, "HEALTHCHECK ", 0),
          FirstInstr(lines, "ENTRYPOINT ", 0), FirstInstr(lines, "CMD ", 0))
  }

  predicate HasArgAbove(lines: seq<string>, i: nat)
    requires i <= |lines|
  {
    i > 0 && Has(lines[i - 1], "ARG SHIM_VERSION")
  }

  /** What stands above line i: the argument and the shim stage. */
  function Above(lines: seq<string>, k: Marks, sh: Shim, i: nat): seq<Piece>
    requires i < |lines|
  {
    (if i == k.firstFrom && !sh.staged && !HasArgAbove(lines, i) then [Added(ArgLine(sh.version)), Added("")] else []) +
    (if i == k.finalFrom && !sh.staged then [Added(ShimFrom), Added("")] else [])
  }

  /** What line i turns into; checks says whether the healthcheck is put above the entrypoint. */
  function Self(k: Marks, sh: Shim, i: nat, checks: bool): seq<Piece> {
    if i == k.finalFrom then [Kept(i), Added(CopyShim), Added(ChmodShim), Added("")]
    else if i == k.check then []
    else if i == k.entry then (if checks then Checks(sh) + [Added("")] else []) + [Added(ShimEntry)]
    else if i == k.cmd then [Added("CMD " + sh.cmd)]
    else [Kept(i)]
  }

  function Upto(lines: seq<string>, k: Marks, sh: Shim, n: nat, checks: bool): seq<Piece>
    requires n <= |lines|
  {
    if n == 0 then [] else
    Upto(lines, k, sh, n - 1, checks) + (Above(lines, k, sh, n - 1) + Self(k, sh, n - 1, checks))
  }

  function End(lines: seq<string>, k: Marks): seq<Piece> {
    if k.finalFrom == |lines| then [Added(CopyShim)] else []
  }

  /** The wired file: the healthcheck stands above the entrypoint, or at the end. */
  function Wire(lines: seq<string>, sh: Shim): seq<Piece> {
    var k := MarksOf(lines);
    Upto(lines, k, sh, |lines|, true) + End(lines, k) +
    if k.entry < |lines| then [] else [Added("")] + Checks(sh)
  }

  function Shown(lines: seq<string>, p: Piece): string {
    match p
    case Kept(i) => if i < |lines| then lines[i] else ""
    case Added(text) => text
  }

  function ShownAll(lines: seq<string>, ps: seq<Piece>): (r: seq<string>)
    ensures |r| == |ps| && forall i | 0 <= i < |ps| :: r[i] == Shown(lines, ps[i])
  {
    seq(|ps|, i requires 0 <= i < |ps| => Shown(lines, ps[i]))
  }

  // --- The method of the script ---------------------------------------------------------

  method BuildWired(lines: seq<string>, sh: Shim) returns (wired: seq<string>)
    ensures wired == ShownAll(lines, Wire(lines, sh))
  {
    ghost var k := MarksOf(lines);
    var final := |lines|;
    for i := 0 to |lines|
      invariant final == if LastInstr(lines, "FROM ", i) < |lines| then LastInstr(lines, "FROM ", i) else |lines|
    {
      if Instr(lines[i], "FROM ") {
        final := i;
      }
    }
    var result := MainLoop(lines, sh, final);
    wired := CheckLoop(result, sh);
    ChecksInPlace(lines, sh);
  }

  lemma ShownNone(lines: seq<string>)
    ensures ShownAll(lines, []) == []
  {
  }

  lemma ShownAppend(lines: seq<string>, a: seq<Piece>, b: seq<Piece>)
    ensures ShownAll(lines, a + b) == ShownAll(lines, a) + ShownAll(lines, b)
  {
  }

  lemma UptoNone(lines: seq<string>, k: Marks, sh: Shim)
    ensures ShownAll(lines, Upto(lines, k, sh, 0, false)) == []
  {
  }

  function AboveText(lines: seq<string>, k: Marks, sh: Shim, i: nat): seq<string>
    requires i < |lines|
  {
    (if i == k.firstFrom && !sh.staged && !HasArgAbove(lines, i) then [ArgLine(sh.version), ""] else []) +
    (if i == k.finalFrom && !sh.staged then [ShimFrom, ""] else [])
  }

  function SelfText(lines: seq<string>, k: Marks, sh: Shim, i: nat): seq<string>
    requires i < |lines|
  {
    if i == k.finalFrom then [lines[i], CopyShim, ChmodShim, ""]
    else if i == k.check then []
    else if i == k.entry then [ShimEntry]
    else if i == k.cmd then ["CMD " + sh.cmd]
    else [lines[i]]
  }

  lemma StepShown(lines: seq<string>, k: Marks, sh: Shim, i: nat)
    requires i < |lines|
    ensures ShownAll(lines, Above(lines, k, sh, i)) == AboveText(lines, k, sh, i)
    ensures ShownAll(lines, Self(k, sh, i, false)) == SelfText(lines, k, sh, i)
  {
    hide ArgLine;
  }

  lemma UptoShown(lines: seq<string>, k: Marks, sh: Shim, i: nat)
    requires i < |lines|
    ensures ShownAll(lines, Upto(lines, k, sh, i + 1, false)) ==
            ShownAll(lines, Upto(lines, k, sh, i, false)) + AboveText(lines, k, sh, i) + SelfText(lines, k, sh, i)
  {
    hide ShownAll;
    hide Above;
    hide Self;
    hide AboveText;
    hide SelfText;
    StepShown(lines, k, sh, i);
    ShownAppend(lines, Above(lines, k, sh, i), Self(k, sh, i, false));
    ShownAppend(lines, Upto(lines, k, sh, i, false), Above(lines, k, sh, i) + Self(k, sh, i, false));
  }

  lemma OneInstr(line: string, a: string, b: string)
    requires a != "" && b != "" && a[0] != b[0]
    ensures !(Instr(line, a) && Instr(line, b))
  {
  }

  /** No line is two of the instructions at once. */
  lemma MarksApart(lines: seq<string>)
    ensures var k := MarksOf(lines);
            && (k.finalFrom < |lines| ==> k.finalFrom != k.check && k.finalFrom != k.entry && k.finalFrom != k.cmd)
            && (k.firstFrom < |lines| ==> k.firstFrom != k.check && k.firstFrom != k.entry && k.firstFrom != k.cmd)
            && (k.entry < |lines| ==> k.entry != k.check && k.entry != k.cmd)
            && (k.check < |lines| ==> k.check != k.cmd)
            && (k.firstFrom < |lines| <==> k.finalFrom < |lines|) && k.firstFrom <= k.finalFrom <= |lines|
  {
    forall i | 0 <= i < |lines|
      ensures !(Instr(lines[i], "FROM ") && Instr(lines[i], "HEALTHCHECK "))
      ensures !(Instr(lines[i], "FROM ") && Instr(lines[i], "ENTRYPOINT "))
      ensures !(Instr(lines[i], "FROM ") && Instr(lines[i], "CMD "))
      ensures !(Instr(lines[i], "ENTRYPOINT ") && Instr(lines[i], "HEALTHCHECK "))
      ensures !(Instr(lines[i], "ENTRYPOINT ") && Instr(lines[i], "CMD "))
      ensures !(Instr(lines[i], "HEALTHCHECK ") && Instr(lines[i], "CMD "))
    {
      OneInstr(lines[i], "FROM ", "HEALTHCHECK ");
      OneInstr(lines[i], "FROM ", "ENTRYPOINT ");
      OneInstr(lines[i], "FROM ", "CMD ");
      OneInstr(lines[i], "ENTRYPOINT ", "HEALTHCHECK ");
      OneInstr(lines[i], "ENTRYPOINT ", "CMD ");
      OneInstr(lines[i], "HEALTHCHECK ", "CMD ");
    }
  }

  /** `not flag and the line is the instruction` holds at the first such line only. */
  lemma FirstOnly(lines: seq<string>, i: nat)
    requires i < |lines|
    ensures var k := MarksOf(lines);
            && (Instr(lines[i], "FROM ") && !(k.firstFrom < i) <==> i == k.firstFrom)
            && (Instr(lines[i], "HEALTHCHECK ") && !(k.check < i) <==> i == k.check)
            && (Instr(lines[i], "ENTRYPOINT ") && !(k.entry < i) <==> i == k.entry)
            && (Instr(lines[i], "CMD ") && !(k.cmd < i) <==> i == k.cmd)
  {
    hide Instr;
  }

  /** The first part of the loop body: the argument and the shim stage. */
  method PutAbove(lines: seq<string>, sh: Shim, i: nat, final: nat, argued: bool)
    returns (above: seq<string>, argued': bool)
    requires i < |lines| && final == MarksOf(lines).finalFrom
    requires argued <==> MarksOf(lines).firstFrom < i && !sh.staged
    ensures above == AboveText(lines, MarksOf(lines), sh, i)
    ensures argued' <==> MarksOf(lines).firstFrom < i + 1 && !sh.staged
  {
    hide Instr;
    hide MarksOf;
    FirstOnly(lines, i);
    above, argued' := [], argued;
    if !argued && Instr(lines[i], "FROM ") && !sh.staged {
      if i > 0 && Has(lines[i - 1], "ARG SHIM_VERSION") {
        argued' := true;
      } else {
        above := above + [ArgLine(sh.version)];
        above := above + [""];
        argued' := true;
      }
    }
    if i == final && !sh.staged {
      above := above + [ShimFrom];
      above := above + [""];
    }
  }

  /** The first loop over the lines, with its five flags. */
  method MainLoop(lines: seq<string>, sh: Shim, final: nat) returns (result: seq<string>)
    requires final == MarksOf(lines).finalFrom
    ensures result == ShownAll(lines, Upto(lines, MarksOf(lines), sh, |lines|, false) + End(lines, MarksOf(lines)))
  {
    hide Instr;
    hide ShownAll;
    hide ArgLine;
    hide Has;
    hide MarksOf;
    hide Upto;
    ghost var k := MarksOf(lines);
    MarksApart(lines);
    UptoNone(lines, k, sh);
    var copied, entered, commanded, checked, argued := false, false, false, false, false;
    result := [];
    for i := 0 to |lines|
      invariant copied <==> final < i
      invariant entered <==> k.entry < i
      invariant commanded <==> k.cmd < i
      invariant checked <==> k.check < i
      invariant argued <==> k.firstFrom < i && !sh.staged
      invariant result == ShownAll(lines, Upto(lines, k, sh, i, false))
    {
      FirstOnly(lines, i);
      UptoShown(lines, k, sh, i);
      var above;
      above, argued := PutAbove(lines, sh, i, final, argued);
      hide AboveText;
      result := result + above;
      ghost var before := result;
      if i == final && !copied {
        result := result + [lines[i]];
        copied := true;
        result := result + [CopyShim];
        result := result + [ChmodShim];
        result := result + [""];
      } else if Instr(lines[i], "HEALTHCHECK ") && !checked {
        checked := true;
      } else if Instr(lines[i], "ENTRYPOINT ") && !entered {
        entered := true;
        result := result + [ShimEntry];
      } else if Instr(lines[i], "CMD ") && !commanded {
        commanded := true;
        result := result + ["CMD " + sh.cmd];
      } else {
        result := result + [lines[i]];
      }
      assert result == before + SelfText(lines, k, sh, i);
    }
    if !copied {
      result := result + [CopyShim];
    }
    EndShown(lines);
    ShownAppend(lines, Upto(lines, k, sh, |lines|, false), End(lines, k));
  }

  lemma EndShown(lines: seq<string>)
    ensures ShownAll(lines, End(lines, MarksOf(lines))) == if MarksOf(lines).finalFrom == |lines| then [CopyShim] else []
  {
    hide MarksOf;
  }

  /** The second loop: the healthcheck goes above the first entrypoint, or to the end. */
  function WithChecks(result: seq<string>, sh: Shim): seq<string> {
    var e := FirstInstr(result, "ENTRYPOINT ", 0);
    if e < |result| then result[..e] + [CheckHead, CheckCall(sh.port), ""] + result[e..]
    else result + ["", CheckHead, CheckCall(sh.port)]
  }

  /** The text appended for the healthcheck holds a newline: it is two lines here. */
  method CheckLoop(result: seq<string>, sh: Shim) returns (wired: seq<string>)
    ensures wired == WithChecks(result, sh)
  {
    hide Instr;
    hide CheckCall;
    var check := [CheckHead, CheckCall(sh.port)];
    wired := [];
    var inserted := false;
    ghost var e := FirstInstr(result, "ENTRYPOINT ", 0);
    for i := 0 to |result|
      invariant inserted <==> e < i
      invariant wired == if i <= e then result[..i] else result[..e] + (check + [""]) + result[e..i]
    {
      if Instr(result[i], "ENTRYPOINT ") && !inserted {
        wired := wired + check;
        wired := wired + [""];
        inserted := true;
      }
      wired := wired + [result[i]];
    }
    if !inserted {
      wired := wired + [""];
      wired := wired + check;
    }
  }

  lemma {:induction false} FirstIs(lines: seq<string>, word: string, i: nat, n: nat)
    requires i <= n < |lines|
    requires forall j | i <= j < n :: !Instr(lines[j], word)
    requires Instr(lines[n], word)
    ensures FirstInstr(lines, word, i) == n
    decreases n - i
  {
    hide Instr;
    if i < n {
      FirstIs(lines, word, i + 1, n);
    }
  }

  predicate NoEntry(ls: seq<string>) {
    forall l | l in ls :: !Instr(l, "ENTRYPOINT ")
  }

  lemma NoEntryAppend(a: seq<string>, b: seq<string>)
    requires NoEntry(a) && NoEntry(b)
    ensures NoEntry(a + b)
  {
    hide Instr;
  }

  lemma NewLinesNoEntry(sh: Shim)
    ensures NoEntry([ArgLine(sh.version), ""]) && NoEntry([ShimFrom, ""]) && NoEntry([])
    ensures NoEntry([CopyShim, ChmodShim, ""]) && NoEntry(["CMD " + sh.cmd])
  {
    OtherInstr("", "ENTRYPOINT ");
    OtherInstr(ArgLine(sh.version), "ENTRYPOINT ");
    OtherInstr(ShimFrom, "ENTRYPOINT ");
    OtherInstr(CopyShim, "ENTRYPOINT ");
    OtherInstr(ChmodShim, "ENTRYPOINT ");
    OtherInstr("CMD " + sh.cmd, "ENTRYPOINT ");
    hide Instr;
  }

  lemma EntryIsEntry()
    ensures Instr(ShimEntry, "ENTRYPOINT ")
  {
    LStripSame(ShimEntry);
    RStripSame(ShimEntry);
    assert ShimEntry[..11] == "ENTRYPOINT ";
    assert Upper(ShimEntry)[..11] == "ENTRYPOINT ";
  }

  /** Up to the entrypoint the two forms agree, and no entrypoint is in sight. */
  lemma {:induction false} UptoEntry(lines: seq<string>, sh: Shim, n: nat)
    requires n <= MarksOf(lines).entry
    ensures var k := MarksOf(lines);
            && Upto(lines, k, sh, n, true) == Upto(lines, k, sh, n, false)
            && NoEntry(ShownAll(lines, Upto(lines, k, sh, n, false)))
  {
    hide Instr;
    hide ArgLine;
    hide NoEntry;
    hide ShownAll;
    hide Above;
    hide Self;
    hide AboveText;
    hide SelfText;
    var k := MarksOf(lines);
    if n == 0 {
      NewLinesNoEntry(sh);
      ShownNone(lines);
    } else {
      UptoEntry(lines, sh, n - 1);
      UptoShown(lines, k, sh, n - 1);
      SelfSame(k, sh, n - 1);
      hide Upto;
      StepNoEntry(lines, sh, n - 1);
      var above, self := AboveText(lines, k, sh, n - 1), SelfText(lines, k, sh, n - 1);
      NoEntryAppend(ShownAll(lines, Upto(lines, k, sh, n - 1, false)), above);
      NoEntryAppend(ShownAll(lines, Upto(lines, k, sh, n - 1, false)) + above, self);
    }
  }

  lemma StepNoEntry(lines: seq<string>, sh: Shim, i: nat)
    requires i < MarksOf(lines).entry
    ensures NoEntry(AboveText(lines, MarksOf(lines), sh, i))
    ensures NoEntry(SelfText(lines, MarksOf(lines), sh, i))
  {
    NewLinesNoEntry(sh);
    hide Instr;
    hide ArgLine;
    hide Has;
    var k := MarksOf(lines);
    assert !Instr(lines[i], "ENTRYPOINT ");
    assert "" in [CopyShim, ChmodShim, ""] && CopyShim in [CopyShim, ChmodShim, ""] && ChmodShim in [CopyShim, ChmodShim, ""];
    assert ArgLine(sh.version) in [ArgLine(sh.version), ""] && ShimFrom in [ShimFrom, ""];
    assert "CMD " + sh.cmd in ["CMD " + sh.cmd];
  }

  lemma SelfSame(k: Marks, sh: Shim, i: nat)
    requires i != k.entry
    ensures Self(k, sh, i, true) == Self(k, sh, i, false)
  {
  }

  /** From the entrypoint on, the two forms differ in the healthcheck only. */
  lemma {:induction false} UptoAfter(lines: seq<string>, sh: Shim, n: nat) returns (rest: seq<Piece>)
    requires MarksOf(lines).entry < n <= |lines|
    ensures var k := MarksOf(lines);
            var head := Upto(lines, k, sh, k.entry, false);
            && Upto(lines, k, sh, n, false) == head + ([Added(ShimEntry)] + rest)
            && Upto(lines, k, sh, n, true) == head + (Checks(sh) + [Added("")]) + ([Added(ShimEntry)] + rest)
  {
    hide MarksOf;
    hide Checks;
    hide ShimEntry;
    hide HasArgAbove;
    hide ArgLine;
    var k := MarksOf(lines);
    MarksApart(lines);
    if n == k.entry + 1 {
      UptoEntry(lines, sh, k.entry);
      rest := [];
    } else {
      var rest' := UptoAfter(lines, sh, n - 1);
      hide Above;
      hide Self;
      SelfSame(k, sh, n - 1);
      var step := Above(lines, k, sh, n - 1) + Self(k, sh, n - 1, false);
      rest := rest' + step;
      var head, entry := Upto(lines, k, sh, k.entry, false), [Added(ShimEntry)];
      Assoc(head, entry, rest', step);
      Assoc(head + (Checks(sh) + [Added("")]), entry, rest', step);
    }
  }

  lemma Assoc(a: seq<Piece>, b: seq<Piece>, c: seq<Piece>, d: seq<Piece>)
    ensures a + (b + c) + d == a + (b + (c + d))
  {
  }

  lemma FirstNone(lines: seq<string>)
    requires NoEntry(lines)
    ensures FirstInstr(lines, "ENTRYPOINT ", 0) == |lines|
  {
  }

  lemma FirstBehind(head: seq<string>, rest: seq<string>)
    requires NoEntry(head)
    ensures FirstInstr(head + ([ShimEntry] + rest), "ENTRYPOINT ", 0) == |head|
  {
    EntryIsEntry();
    hide Instr;
    var ls := head + ([ShimEntry] + rest);
    assert ls[|head|] == ShimEntry;
    assert forall j | 0 <= j < |head| :: ls[j] in head;
    FirstIs(ls, "ENTRYPOINT ", 0, |head|);
  }

  lemma ChecksShown(lines: seq<string>, sh: Shim)
    ensures ShownAll(lines, Checks(sh) + [Added("")]) == [CheckHead, CheckCall(sh.port), ""]
    ensures ShownAll(lines, [Added("")] + Checks(sh)) == ["", CheckHead, CheckCall(sh.port)]
    ensures ShownAll(lines, [Added(ShimEntry)]) == [ShimEntry]
  {
    hide CheckCall;
  }

  lemma ChecksInPlace(lines: seq<string>, sh: Shim)
    ensures var k := MarksOf(lines);
            WithChecks(ShownAll(lines, Upto(lines, k, sh, |lines|, false) + End(lines, k)), sh) ==
            ShownAll(lines, Wire(lines, sh))
  {
    hide MarksOf;
    hide ShownAll;
    hide NoEntry;
    hide Checks;
    hide CheckCall;
    var k := MarksOf(lines);
    var end := End(lines, k);
    ChecksShown(lines, sh);
    if k.entry < |lines| {
      var rest := UptoAfter(lines, sh, |lines|);
      UptoEntry(lines, sh, k.entry);
      var head := Upto(lines, k, sh, k.entry, false);
      var entry, checks := [Added(ShimEntry)], Checks(sh) + [Added("")];
      Shown3(lines, head, entry, rest, end);
      Shown4(lines, head, checks, entry, rest, end);
      var h, r := ShownAll(lines, head), ShownAll(lines, rest) + ShownAll(lines, end);
      FirstBehind(h, r);
      assert (h + ([ShimEntry] + r))[..|h|] == h && (h + ([ShimEntry] + r))[|h|..] == [ShimEntry] + r;
    } else {
      UptoEntry(lines, sh, |lines|);
      var all := Upto(lines, k, sh, |lines|, false);
      ShownAppend(lines, all, end);
      ShownAppend(lines, all + end, [Added("")] + Checks(sh));
      EndNoEntry(lines);
      NoEntryAppend(ShownAll(lines, all), ShownAll(lines, end));
      FirstNone(ShownAll(lines, all + end));
    }
  }

  lemma EndNoEntry(lines: seq<string>)
    ensures NoEntry(ShownAll(lines, End(lines, MarksOf(lines))))
  {
    EndShown(lines);
    OtherInstr(CopyShim, "ENTRYPOINT ");
    hide Instr;
  }

  lemma Shown3(lines: seq<string>, head: seq<Piece>, entry: seq<Piece>, rest: seq<Piece>, end: seq<Piece>)
    ensures ShownAll(lines, head + (entry + rest) + end) ==
            ShownAll(lines, head) + (ShownAll(lines, entry) + (ShownAll(lines, rest) + ShownAll(lines, end)))
  {
    hide ShownAll;
    ShownAppend(lines, entry, rest);
    ShownAppend(lines, head, entry + rest);
    ShownAppend(lines, head + (entry + rest), end);
  }

  lemma Shown4(lines: seq<string>, head: seq<Piece>, checks: seq<Piece>, entry: seq<Piece>, rest: seq<Piece>, end: seq<Piece>)
    ensures ShownAll(lines, head + checks + (entry + rest) + end) ==
            ShownAll(lines, head) + ShownAll(lines, checks) +
            (ShownAll(lines, entry) + (ShownAll(lines, rest) + ShownAll(lines, end)))
  {
    hide ShownAll;
    ShownAppend(lines, head, checks);
    Shown3(lines, head + checks, entry, rest, end);
  }
}
