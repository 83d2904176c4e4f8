/** What wiring a Dockerfile establishes for verify_shim_wiring.py. */
module WiringTheorem {
  import opened Text
  import opened Lines
  import opened Wiring
  import opened WiringChecks
  import opened WiringVerdict

  function WiredLines(lines: seq<string>, sh: Shim): seq<string> {
    ShownAll(lines, Wire(lines, sh))
  }

  function WiredText(lines: seq<string>, sh: Shim): string {
    Joined(WiredLines(lines, sh))
  }

  // --- New lines in the wired text ---------------------------------------------------------

  lemma PieceInText(lines: seq<string>, sh: Shim, p: Piece) returns (i: nat, rest: string)
    requires p in Wire(lines, sh)
    ensures var text := WiredText(lines, sh); i <= |text| && text[i..] == Shown(lines, p) + rest
  {
    hide Wire;
    hide Joined;
    hide Shown;
    var ps := Wire(lines, sh);
    var j :| 0 <= j < |ps| && ps[j] == p;
    var ls := WiredLines(lines, sh);
    assert ls == ls[..j] + [ls[j]] + ls[j + 1..];
    i, rest := LineInside(ls[..j], ls[j], ls[j + 1..]);
  }

  lemma {:induction false} UptoHolds(lines: seq<string>, sh: Shim, n: nat, i: nat, p: Piece)
    requires i < n <= |lines|
    requires p in Above(lines, MarksOf(lines), sh, i) || p in Self(MarksOf(lines), sh, i, true)
    ensures p in Upto(lines, MarksOf(lines), sh, n, true)
  {
    hide MarksOf;
    hide Above;
    hide Self;
    if i < n - 1 {
      UptoHolds(lines, sh, n - 1, i, p);
    }
  }

  lemma WireHolds(lines: seq<string>, sh: Shim, i: nat, p: Piece)
    requires i < |lines|
    requires p in Above(lines, MarksOf(lines), sh, i) || p in Self(MarksOf(lines), sh, i, true)
    ensures p in Wire(lines, sh)
  {
    hide MarksOf;
    hide Above;
    hide Self;
    hide Upto;
    UptoHolds(lines, sh, |lines|, i, p);
  }

  lemma AbovePieces(lines: seq<string>, k: Marks, sh: Shim, i: nat)
    requires i < |lines| && !sh.staged
    ensures i == k.firstFrom && !HasArgAbove(lines, i) ==> Added(ArgLine(sh.version)) in Above(lines, k, sh, i)
    ensures i == k.finalFrom ==> Added(ShimFrom) in Above(lines, k, sh, i)
  {
    hide ArgLine;
    hide HasArgAbove;
    assert [Added(ArgLine(sh.version)), Added("")][0] == Added(ArgLine(sh.version));
    assert [Added(ShimFrom), Added("")][0] == Added(ShimFrom);
  }

  /** The line above the first FROM is the place for the argument, unless it is there. */
  lemma ArgEstablished(lines: seq<string>, sh: Shim)
    requires var f := FirstInstr(lines, "FROM ", 0); f < |lines| && !sh.staged && !HasArgAbove(lines, f)
    ensures HasArg(WiredText(lines, sh))
  {
    hide ArgHere;
    hide Wire;
    hide WiredText;
    hide ArgLine;
    hide Above;
    hide Self;
    hide Instr;
    hide Has;
    var k := MarksOf(lines);
    AbovePieces(lines, k, sh, k.firstFrom);
    WireHolds(lines, sh, k.firstFrom, Added(ArgLine(sh.version)));
    var i, rest := PieceInText(lines, sh, Added(ArgLine(sh.version)));
    ArgLineHere(sh.version, rest);
  }

  lemma FromEstablished(lines: seq<string>, sh: Shim)
    requires LastInstr(lines, "FROM ", |lines|) < |lines| && !sh.staged
    ensures HasFrom(WiredText(lines, sh))
  {
    hide FromHere;
    hide Wire;
    hide WiredText;
    hide Above;
    hide Self;
    hide Instr;
    var k := MarksOf(lines);
    AbovePieces(lines, k, sh, k.finalFrom);
    WireHolds(lines, sh, k.finalFrom, Added(ShimFrom));
    var i, rest := PieceInText(lines, sh, Added(ShimFrom));
    ShimFromHere(rest);
  }

  lemma {:induction false} HasLater(text: string, i: nat, w: string)
    requires i <= |text| && Has(text[i..], w)
    ensures Has(text, w)
  {
    if i == 0 {
      assert text[0..] == text;
    } else {
      assert text[1..][i - 1..] == text[i..];
      HasLater(text[1..], i - 1, w);
    }
  }

  lemma CopyParts(rest: string)
    ensures Has(CopyShim + rest, "COPY --from=shim") && Has(CopyShim + rest, "/shim")
  {
    HasInside("", "COPY --from=shim", " /shim " + ShimBin + rest);
    assert CopyShim + rest == "" + ("COPY --from=shim" + (" /shim " + ShimBin + rest));
    HasInside("COPY --from=shim ", "/shim", " " + ShimBin + rest);
    assert CopyShim + rest == "COPY --from=shim " + ("/shim" + (" " + ShimBin + rest));
  }

  lemma CopyIn(lines: seq<string>, sh: Shim)
    ensures Added(CopyShim) in Wire(lines, sh)
  {
    hide Upto;
    hide Above;
    hide Checks;
    var k := MarksOf(lines);
    if k.finalFrom < |lines| {
      assert Self(k, sh, k.finalFrom, true)[1] == Added(CopyShim);
      WireHolds(lines, sh, k.finalFrom, Added(CopyShim));
    }
  }

  /** Every wired text is recognised as wired. */
  lemma WiringEstablished(lines: seq<string>, sh: Shim)
    ensures HasWiring(WiredText(lines, sh))
  {
    hide Wire;
    hide WiredText;
    hide Has;
    CopyIn(lines, sh);
    var i, rest := PieceInText(lines, sh, Added(CopyShim));
    CopyParts(rest);
    HasLater(WiredText(lines, sh), i, "COPY --from=shim");
    HasLater(WiredText(lines, sh), i, "/shim");
  }

  // --- The healthcheck and the entrypoint -------------------------------------------------------

  /** Around the new healthcheck. */
  lemma ChecksShape(lines: seq<string>, sh: Shim) returns (a: seq<string>, b: seq<string>)
    ensures WiredLines(lines, sh) == a + [CheckHead] + ([CheckCall(sh.port)] + b)
  {
    hide MarksOf;
    hide ShownAll;
    hide CheckCall;
    hide Checks;
    var k := MarksOf(lines);
    if k.entry < |lines| {
      var rest := EntryShape(lines, sh);
      a, b := ShownAll(lines, Upto(lines, k, sh, k.entry, false)), [""] + ([ShimEntry] + rest);
    } else {
      var upto := Upto(lines, k, sh, |lines|, true) + End(lines, k);
      ShownAppend(lines, upto, [Added("")] + Checks(sh));
      ChecksShown(lines, sh);
      a, b := ShownAll(lines, upto) + [""], [];
    }
  }

  /** Around the new entrypoint. */
  lemma EntryShape(lines: seq<string>, sh: Shim) returns (rest: seq<string>)
    requires MarksOf(lines).entry < |lines|
    ensures WiredLines(lines, sh) ==
            ShownAll(lines, Upto(lines, MarksOf(lines), sh, MarksOf(lines).entry, false)) +
            [CheckHead, CheckCall(sh.port), ""] + ([ShimEntry] + rest)
  {
    hide MarksOf;
    hide ShownAll;
    hide CheckCall;
    hide Checks;
    var k := MarksOf(lines);
    var after := UptoAfter(lines, sh, |lines|);
    var head, end := Upto(lines, k, sh, k.entry, false), End(lines, k);
    hide Upto;
    hide End;
    Shown4(lines, head, Checks(sh) + [Added("")], [Added(ShimEntry)], after, end);
    ChecksShown(lines, sh);
    rest := ShownAll(lines, after) + ShownAll(lines, end);
    var upto := head + (Checks(sh) + [Added("")]) + ([Added(ShimEntry)] + after);
    assert upto + end + [] == upto + end;
  }

  /** The healthcheck is found, under one of the two paths. */
  lemma CheckEstablished(lines: seq<string>, sh: Shim)
    ensures HasCheck(WiredText(lines, sh), ShimBin)
  {
    hide WiredLines;
    hide CheckHere;
    hide CheckCall;
    var a, b := ChecksShape(lines, sh);
    var i, rest := LineInside(a, CheckHead, [CheckCall(sh.port)] + b);
    var tail := if b == [] then "" else "\n" + Joined(b);
    assert ([CheckCall(sh.port)] + b)[1..] == b;
    assert rest == "\n" + (CheckCall(sh.port) + tail);
    ChecksHere(sh.port, tail);
  }

  /**
   The entrypoint check on a wired text: it passes exactly when the first bracketed entrypoint
   names the shim, or the text holds another entrypoint that calls the shim at its root path.
   */
  lemma EntryExactly(lines: seq<string>, sh: Shim)
    requires FirstInstr(lines, "ENTRYPOINT ", 0) < |lines|
    ensures var text := WiredText(lines, sh);
            HasEntry(text, ShimPath(text)) <==>
            (FirstBracket(text).Some? && Has(FirstBracket(text).value, ShimBin)) || HasEntry(text, "/shim")
  {
    hide Wire;
    hide WiredText;
    hide HasEntry;
    hide FirstBracket;
    hide Has;
    EntryEstablished(lines, sh);
    assert |ShimBin| > 5;
  }

  lemma EntryEstablished(lines: seq<string>, sh: Shim)
    requires FirstInstr(lines, "ENTRYPOINT ", 0) < |lines|
    ensures HasEntry(WiredText(lines, sh), ShimBin)
  {
    hide WiredText;
    hide EntryHere;
    hide Wire;
    EntryIn(lines, sh);
    var i, rest := PieceInText(lines, sh, Added(ShimEntry));
    ShimEntryHere(rest);
  }

  lemma EntryIn(lines: seq<string>, sh: Shim)
    requires FirstInstr(lines, "ENTRYPOINT ", 0) < |lines|
    ensures Added(ShimEntry) in Wire(lines, sh)
  {
    hide Wire;
    hide Instr;
    hide Checks;
    hide ShimEntry;
    hide CopyShim;
    hide ChmodShim;
    var k := MarksOf(lines);
    MarksApart(lines);
    assert k.entry < |lines|;
    hide MarksOf;
    var self := Self(k, sh, k.entry, true);
    assert self[|self| - 1] == Added(ShimEntry);
    hide Self;
    WireHolds(lines, sh, k.entry, Added(ShimEntry));
  }

  // --- Nothing but the shim in the first bracket --------------------------------------------------

  predicate Digits(s: string) {
    forall i | 0 <= i < |s| :: Digit(s[i])
  }

  /** Nothing above the entrypoint reads as a bracketed entrypoint. */
  predicate ColdAbove(lines: seq<string>, sh: Shim, closed: bool) {
    var k := MarksOf(lines);
    && (forall i | 0 <= i < k.entry :: Cold(lines[i], closed))
    && Cold(ArgLine(sh.version), closed)
    && (k.cmd < k.entry ==> Cold("CMD " + sh.cmd, closed))
  }

  lemma FixedCold(port: string, closed: bool)
    requires Digits(port)
    ensures Cold("", closed) && Cold(ShimFrom, closed) && Cold(CopyShim, closed) && Cold(ChmodShim, closed)
    ensures Cold(CheckHead, closed) && Cold(CheckCall(port), closed)
  {
    hide Cold;
    hide Bracketed;
    FixedUnbracketed(port);
    ColdWithout("", 'Y', closed);
    assert Without(ShimFrom, 'Y') by { assert Without(Registry, 'Y'); assert Without(StageName, 'Y'); }
    ColdWithout(ShimFrom, 'Y', closed);
    ColdWithout(CopyShim, 'N', closed);
    ColdWithout(ChmodShim, 'Y', closed);
    HeadPlain();
    ColdWithout(CheckHead, 'Y', closed);
    CallPlain(port);
    ColdWithout(CheckCall(port), 'Y', closed);
    hide CheckCall;
  }

  lemma FixedUnbracketed(port: string)
    ensures !Bracketed("") && !Bracketed(ShimFrom) && !Bracketed(CopyShim) && !Bracketed(ChmodShim)
    ensures !Bracketed(CheckHead) && !Bracketed(CheckCall(port))
  {
    var s := CheckCall(port);
    assert s[0] == ' ' && s[1] == ' ' && s[2] == 'C';
    assert s[1..][1..] == s[2..];
  }

  lemma HeadPlain()
    ensures Without(CheckHead, 'Y')
  {
  }

  lemma CallPlain(port: string)
    requires Digits(port)
    ensures Without(CheckCall(port), 'Y')
  {
    var a := "\", " + ("\"healthcheck\"" + (", \"--tcp\", \"127.0.0.1:" + (port + "\"]")));
    assert Without(a, 'Y');
    assert Without("[\"" + (ShimBin + a), 'Y');
  }

  lemma {:induction false} UptoCold(lines: seq<string>, sh: Shim, n: nat, closed: bool)
    requires n <= |lines| && n <= MarksOf(lines).entry && ColdAbove(lines, sh, closed) && Digits(sh.port)
    ensures AllCold(ShownAll(lines, Upto(lines, MarksOf(lines), sh, n, false)), closed)
  {
    hide MarksOf;
    hide ColdAbove;
    hide AllCold;
    hide ShownAll;
    hide Above;
    hide Self;
    hide AboveText;
    hide SelfText;
    hide Digits;
    if n == 0 {
      ShownNone(lines);
      NoneCold(closed);
    } else {
      var k := MarksOf(lines);
      UptoCold(lines, sh, n - 1, closed);
      UptoShown(lines, k, sh, n - 1);
      StepCold(lines, sh, n - 1, closed);
      var before, above, self := ShownAll(lines, Upto(lines, k, sh, n - 1, false)), AboveText(lines, k, sh, n - 1),
                                 SelfText(lines, k, sh, n - 1);
      AllColdAppend(before, above, closed);
      AllColdAppend(before + above, self, closed);
    }
  }

  lemma NoneCold(closed: bool)
    ensures AllCold([], closed)
  {
  }

  lemma StepCold(lines: seq<string>, sh: Shim, i: nat, closed: bool)
    requires i < MarksOf(lines).entry && ColdAbove(lines, sh, closed) && Digits(sh.port)
    ensures AllCold(AboveText(lines, MarksOf(lines), sh, i), closed) && AllCold(SelfText(lines, MarksOf(lines), sh, i), closed)
  {
    FixedCold(sh.port, closed);
    hide Cold;
    var k := MarksOf(lines);
    assert i == k.cmd ==> Cold("CMD " + sh.cmd, closed);
    hide MarksOf;
    AboveCold(lines, k, sh, i, closed);
    SelfCold(lines, k, sh, i, closed);
  }

  lemma AboveCold(lines: seq<string>, k: Marks, sh: Shim, i: nat, closed: bool)
    requires i < |lines| && Cold(ArgLine(sh.version), closed) && Cold("", closed) && Cold(ShimFrom, closed)
    ensures AllCold(AboveText(lines, k, sh, i), closed)
  {
    hide Cold;
    hide ArgLine;
    hide HasArgAbove;
    hide ShimFrom;
  }

  lemma SelfCold(lines: seq<string>, k: Marks, sh: Shim, i: nat, closed: bool)
    requires i < |lines| && i != k.entry && Cold(lines[i], closed) && Cold("", closed)
    requires Cold(CopyShim, closed) && Cold(ChmodShim, closed) && (i == k.cmd ==> Cold("CMD " + sh.cmd, closed))
    ensures AllCold(SelfText(lines, k, sh, i), closed)
  {
    hide Cold;
    hide CopyShim;
    hide ChmodShim;
  }

  /** The first bracket is the one of the new entrypoint. */
  lemma FirstBracketIsTheShim(lines: seq<string>, sh: Shim, closed: bool)
    requires FirstInstr(lines, "ENTRYPOINT ", 0) < |lines| && ColdAbove(lines, sh, closed) && Digits(sh.port)
    ensures ShimPath(WiredText(lines, sh)) == ShimBin
  {
    var k := MarksOf(lines);
    assert k.entry < |lines| && WiredText(lines, sh) == Joined(WiredLines(lines, sh));
    hide *;
    var rest := EntryShape(lines, sh);
    UptoCold(lines, sh, k.entry, closed);
    ChecksCold(sh.port, closed);
    var checks := [CheckHead, CheckCall(sh.port), ""];
    var head := ShownAll(lines, Upto(lines, k, sh, k.entry, false));
    AllColdAppend(head, checks, closed);
    EntryUnbracketed(rest);
    ColdSkipAll(head + checks, [ShimEntry] + rest, closed);
    EntryFirst(rest);
    PathFound(WiredText(lines, sh));
  }

  lemma PathFound(content: string)
    ensures FirstBracket(content).Some? && Has(FirstBracket(content).value, ShimBin) ==> ShimPath(content) == ShimBin
  {
    hide FirstBracket;
    hide Has;
  }

  lemma EntryUnbracketed(rest: seq<string>)
    ensures !Bracketed(Joined([ShimEntry] + rest))
  {
    assert ShimEntry[0] == 'E';
    assert Joined([ShimEntry] + rest)[0] == 'E';
  }

  lemma ChecksCold(port: string, closed: bool)
    requires Digits(port)
    ensures AllCold([CheckHead, CheckCall(port), ""], closed)
  {
    FixedCold(port, closed);
    hide Cold;
    ThreeCold(CheckHead, CheckCall(port), "", closed);
  }

  lemma ThreeCold(a: string, b: string, c: string, closed: bool)
    requires Cold(a, closed) && Cold(b, closed) && Cold(c, closed)
    ensures AllCold([a, b, c], closed)
  {
    hide Cold;
  }

  lemma EntryFirst(rest: seq<string>)
    ensures var b := FirstBracket(Joined([ShimEntry] + rest)); b.Some? && Has(b.value, ShimBin)
  {
    hide FirstBracket;
    hide Has;
    assert ([ShimEntry] + rest)[1..] == rest;
    if rest == [] {
      assert ShimEntry == ShimEntry + "";
      EntryBracket("");
    } else {
      EntryBracket("\n" + Joined(rest));
    }
  }

  lemma EntryBracket(tail: string)
    ensures FirstBracket(ShimEntry + tail).Some? && Has(FirstBracket(ShimEntry + tail).value, ShimBin)
  {
    hide BracketHere;
    hide Has;
    ShimBracketHere(tail);
    HasInside("\"", ShimBin, "\", " + "\"run\"");
    assert ShimEntry + tail != "";
  }

  // --- The theorem ------------------------------------------------------------------------------

  /**
   Wiring establishes its checker: with a FROM line, an ENTRYPOINT line, no shim stage yet, no
   argument line above the first FROM, and no earlier `ENTRYPOINT [` text, in one line or (unless
   the lines are closed or none begins with a bracket) across two, the wired text passes the first
   five checks.
   */
  lemma WiringPasses(lines: seq<string>, sh: Shim)
    requires var f := FirstInstr(lines, "FROM ", 0); f < |lines| && !sh.staged && !HasArgAbove(lines, f)
    requires FirstInstr(lines, "ENTRYPOINT ", 0) < |lines| && Digits(sh.port)
    requires ColdAbove(lines, sh, true) || ColdAbove(lines, sh, false)
    ensures Check(WiredText(lines, sh)) == Verdict(true, true, true, true, true)
  {
    hide HasArg;
    hide HasFrom;
    hide HasWiring;
    hide HasCheck;
    hide HasEntry;
    hide ColdAbove;
    hide Instr;
    hide WiredText;
    MarksApart(lines);
    ArgEstablished(lines, sh);
    FromEstablished(lines, sh);
    WiringEstablished(lines, sh);
    CheckEstablished(lines, sh);
    EntryExactly(lines, sh);
    FirstBracketIsTheShim(lines, sh, ColdAbove(lines, sh, true));
  }

  /** Whatever the input, the copy and the healthcheck are found in the wired text. */
  lemma WiringAlwaysPasses(lines: seq<string>, sh: Shim)
    ensures Check(WiredText(lines, sh)).copy && Check(WiredText(lines, sh)).check
  {
    hide HasWiring;
    hide HasCheck;
    hide WiredText;
    WiringEstablished(lines, sh);
    CheckEstablished(lines, sh);
  }

  // --- A whole file -------------------------------------------------------------------------------

  datatype Outcome = Skipped | WouldWire | Wired(content: string)

  /** `process_image`; what is detected in a text is given as a function of it. */
  function Process(content: string, detect: string -> Option<Shim>, exempt: bool, force: bool, dryRun: bool): Outcome {
    if exempt || (HasWiring(content) && !force) then Skipped else
    match detect(content)
    case None => Skipped
    case Some(found) =>
      if dryRun then WouldWire
      else Wired(WiredText(Split(content, '\n'), found.(staged := HasStage(content))))
  }

  /** A file that was wired is left alone by every later run that is not forced. */
  lemma WiredOnce(content: string, detect: string -> Option<Shim>, exempt: bool, force: bool, exempt': bool, dryRun': bool)
    requires Process(content, detect, exempt, force, false).Wired?
    ensures Process(Process(content, detect, exempt, force, false).content, detect, exempt', false, dryRun') == Skipped
  {
    hide WiredText;
    hide HasWiring;
    var sh := detect(content).value.(staged := HasStage(content));
    WiringEstablished(Split(content, '\n'), sh);
  }

  /** Every line that the wiring can add. */
  function NewTexts(sh: Shim): seq<string> {
    ["", ArgLine(sh.version), ShimFrom, CopyShim, ChmodShim, CheckHead, CheckCall(sh.port), ShimEntry, "CMD " + sh.cmd]
  }

  predicate Sound(lines: seq<string>, sh: Shim, p: Piece) {
    match p
    case Kept(i) => i < |lines|
    case Added(text) => text in NewTexts(sh)
  }

  predicate AllSound(lines: seq<string>, sh: Shim, ps: seq<Piece>) {
    forall i | 0 <= i < |ps| :: Sound(lines, sh, ps[i])
  }

  lemma SoundAppend(lines: seq<string>, sh: Shim, a: seq<Piece>, b: seq<Piece>)
    requires AllSound(lines, sh, a) && AllSound(lines, sh, b)
    ensures AllSound(lines, sh, a + b)
  {
    hide Sound;
  }

  lemma TextsSound(lines: seq<string>, sh: Shim)
    ensures forall i | 0 <= i < 9 :: Sound(lines, sh, Added(NewTexts(sh)[i]))
  {
    hide ArgLine;
    hide CheckCall;
  }

  lemma AboveSound(lines: seq<string>, k: Marks, sh: Shim, i: nat)
    requires i < |lines|
    ensures AllSound(lines, sh, Above(lines, k, sh, i)) && AllSound(lines, sh, End(lines, k))
  {
    TextsSound(lines, sh);
    hide ArgLine;
    hide CheckCall;
    hide HasArgAbove;
    var t := NewTexts(sh);
    assert t[0] == "" && t[1] == ArgLine(sh.version) && t[2] == ShimFrom && t[3] == CopyShim;
    hide NewTexts;
  }

  lemma SelfSound(lines: seq<string>, k: Marks, sh: Shim, i: nat)
    requires i < |lines|
    ensures AllSound(lines, sh, Self(k, sh, i, true)) && AllSound(lines, sh, [Added("")] + Checks(sh))
  {
    TextsSound(lines, sh);
    hide ArgLine;
    hide CheckCall;
    var t := NewTexts(sh);
    assert t[0] == "" && t[3] == CopyShim && t[4] == ChmodShim;
    assert t[5] == CheckHead && t[6] == CheckCall(sh.port) && t[7] == ShimEntry && t[8] == "CMD " + sh.cmd;
    hide NewTexts;
  }

  lemma {:induction false} UptoSound(lines: seq<string>, sh: Shim, n: nat)
    requires n <= |lines|
    ensures AllSound(lines, sh, Upto(lines, MarksOf(lines), sh, n, true))
  {
    hide MarksOf;
    hide Above;
    hide Self;
    hide Sound;
    hide AllSound;
    if n == 0 {
      NoneSound(lines, sh);
    } else {
      var k := MarksOf(lines);
      UptoSound(lines, sh, n - 1);
      AboveSound(lines, k, sh, n - 1);
      SelfSound(lines, k, sh, n - 1);
      SoundAppend(lines, sh, Above(lines, k, sh, n - 1), Self(k, sh, n - 1, true));
      SoundAppend(lines, sh, Upto(lines, k, sh, n - 1, true), Above(lines, k, sh, n - 1) + Self(k, sh, n - 1, true));
    }
  }

  lemma NoneSound(lines: seq<string>, sh: Shim)
    ensures AllSound(lines, sh, [])
  {
  }

  lemma WireSound(lines: seq<string>, sh: Shim)
    requires lines != []
    ensures AllSound(lines, sh, Wire(lines, sh))
  {
    hide MarksOf;
    hide AllSound;
    hide Upto;
    hide End;
    hide Checks;
    var k := MarksOf(lines);
    UptoSound(lines, sh, |lines|);
    AboveSound(lines, k, sh, 0);
    SelfSound(lines, k, sh, 0);
    NoneSound(lines, sh);
    var upto, end := Upto(lines, k, sh, |lines|, true), End(lines, k);
    SoundAppend(lines, sh, upto, end);
    SoundAppend(lines, sh, upto + end, if k.entry < |lines| then [] else [Added("")] + Checks(sh));
  }

  /** Splitting the wired text at its newlines gives the wired lines back. */
  lemma WiredSplit(content: string, sh: Shim)
    requires OneLine(sh.version) && OneLine(sh.port) && OneLine(sh.cmd)
    ensures var lines := Split(content, '\n'); Split(WiredText(lines, sh), '\n') == WiredLines(lines, sh)
  {
    hide Wire;
    hide OneLine;
    hide NewTexts;
    var lines := Split(content, '\n');
    WireSound(lines, sh);
    NewOneLines(sh);
    SplitWithout(content, '\n', '\n');
    KeptOneLines(lines);
    var wired := WiredLines(lines, sh);
    forall i | 0 <= i < |wired| ensures OneLine(wired[i]) {
      assert Sound(lines, sh, Wire(lines, sh)[i]);
    }
    CopyIn(lines, sh);
    SplitJoined(wired);
  }

  lemma KeptOneLines(lines: seq<string>)
    requires forall part | part in lines :: Without(part, '\n')
    ensures OneLines(lines)
  {
    assert forall i | 0 <= i < |lines| :: lines[i] in lines;
  }

  /** `detect_base_type` on texts: wiring does not change it. */
  lemma WiredBase(content: string, sh: Shim)
    requires OneLine(sh.version) && OneLine(sh.port) && OneLine(sh.cmd)
    ensures BaseType(Split(WiredText(Split(content, '\n'), sh), '\n')) == BaseType(Split(content, '\n'))
  {
    hide BaseType;
    hide WiredText;
    hide LastInstr;
    hide Wire;
    WiredSplit(content, sh);
    WiringKeepsTheBase(Split(content, '\n'), sh);
  }

  /**
   A continuation line `CMD ...` of the healthcheck counts as the first CMD: it is the one that is
   rewritten, and every later CMD line is kept as it is.
   */
  lemma ContinuationIsTheCommand(lines: seq<string>, sh: Shim, c: nat, later: nat)
    requires c + 1 < later < |lines| && c == FirstInstr(lines, "HEALTHCHECK ", 0)
    requires Instr(lines[c + 1], "CMD ") && Instr(lines[later], "CMD ")
    requires forall j | 0 <= j < c :: !Instr(lines[j], "CMD ")
    ensures Added("CMD " + sh.cmd) in Wire(lines, sh) && later in KeptIn(Wire(lines, sh))
  {
    hide Wire;
    hide KeptIn;
    hide FirstInstr;
    hide LastInstr;
    hide Instr;
    ContinuationMarks(lines, c, later);
    CommandWired(lines, sh, later);
  }

  lemma CommandWired(lines: seq<string>, sh: Shim, later: nat)
    requires var k := MarksOf(lines);
             && k.cmd == k.check + 1 < later < |lines| && k.cmd != k.finalFrom && k.cmd != k.entry && later != k.entry
    ensures Added("CMD " + sh.cmd) in Wire(lines, sh) && later in KeptIn(Wire(lines, sh))
  {
    hide Wire;
    hide KeptIn;
    hide MarksOf;
    hide Above;
    var k := MarksOf(lines);
    WiringKeepsTheRest(lines, sh);
    SurvivorsHold(k, |lines|, later);
    CommandPiece(k, sh);
    WireHolds(lines, sh, k.cmd, Added("CMD " + sh.cmd));
  }

  lemma ContinuationMarks(lines: seq<string>, c: nat, later: nat)
    requires c + 1 < later < |lines| && c == FirstInstr(lines, "HEALTHCHECK ", 0)
    requires Instr(lines[c + 1], "CMD ") && Instr(lines[later], "CMD ")
    requires forall j | 0 <= j < c :: !Instr(lines[j], "CMD ")
    ensures var k := MarksOf(lines);
            && k.cmd == k.check + 1 < later
            && k.cmd != k.finalFrom && k.cmd != k.entry && later != k.entry
  {
    hide Instr;
    hide FirstInstr;
    hide LastInstr;
    CommandMark(lines, c);
    CommandOnly(lines[later]);
    MarksApart(lines);
  }

  lemma CommandMark(lines: seq<string>, c: nat)
    requires c + 1 < |lines| && Instr(lines[c], "HEALTHCHECK ") && Instr(lines[c + 1], "CMD ")
    requires forall j | 0 <= j < c :: !Instr(lines[j], "CMD ")
    ensures FirstInstr(lines, "CMD ", 0) == c + 1
  {
    hide Instr;
    hide FirstInstr;
    CommandOnly(lines[c]);
    FirstIs(lines, "CMD ", 0, c + 1);
  }

  lemma CommandOnly(line: string)
    ensures Instr(line, "CMD ") ==> !Instr(line, "HEALTHCHECK ") && !Instr(line, "ENTRYPOINT ")
  {
    OneInstr(line, "CMD ", "ENTRYPOINT ");
    OneInstr(line, "CMD ", "HEALTHCHECK ");
  }

  lemma CommandPiece(k: Marks, sh: Shim)
    requires k.cmd != k.finalFrom && k.cmd != k.check && k.cmd != k.entry
    ensures Added("CMD " + sh.cmd) in Self(k, sh, k.cmd, true)
  {
    assert Self(k, sh, k.cmd, true)[0] == Added("CMD " + sh.cmd);
  }

  lemma {:induction false} SurvivorsHold(k: Marks, n: nat, i: nat)
    requires i < n && i != k.check && i != k.entry && i != k.cmd
    ensures i in Survivors(k, n)
  {
    if i < n - 1 {
      SurvivorsHold(k, n - 1, i);
    }
  }

  predicate OneLines(ls: seq<string>) {
    forall i | 0 <= i < |ls| :: OneLine(ls[i])
  }

  lemma NewOneLines(sh: Shim)
    requires OneLine(sh.version) && OneLine(sh.port) && OneLine(sh.cmd)
    ensures OneLines(NewTexts(sh))
  {
    FromOneLine();
    HeadOneLine();
    CallOneLine(sh.port);
    EntryOneLine();
    assert OneLine("") && OneLine(ArgLine(sh.version)) && OneLine(CopyShim) && OneLine(ChmodShim) && OneLine("CMD " + sh.cmd);
    hide OneLine;
    hide ArgLine;
    hide CheckCall;
  }

  lemma FromOneLine()
    ensures OneLine(ShimFrom)
  {
    assert OneLine(Registry) && OneLine(StageName);
  }

  lemma HeadOneLine()
    ensures OneLine(CheckHead)
  {
  }

  lemma EntryOneLine()
    ensures OneLine(ShimEntry)
  {
    assert OneLine(ShimBin);
  }

  lemma CallOneLine(port: string)
    requires OneLine(port)
    ensures OneLine(CheckCall(port))
  {
    var a := "\", " + ("\"healthcheck\"" + (", \"--tcp\", \"127.0.0.1:" + (port + "\"]")));
    assert OneLine(a);
    assert OneLine("[\"" + (ShimBin + a));
  }
}
