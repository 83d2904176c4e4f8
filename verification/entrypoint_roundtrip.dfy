/** The entrypoint list read back from a generated Dockerfile. */
module EntrypointRoundTrip {
  import opened Text
  import opened Patterns
  import opened Silence
  import opened Manifests
  import opened Generator
  import opened Sections
  import opened Extract
  import opened RoundTrip
  import opened RuntimeRoundTrip

  /** An argument that survives the splitting, trimming and unquoting of the extractor. */
  predicate ArgOk(a: string) {
    && a != "" && a[0] != '"' && a[|a| - 1] != '"'
    && Without(a, ',') && Without(a, ']')
  }

  // --- What the extractor can return -----------------------------------------------------

  lemma {:induction false} TrimLeftWithout(s: string, d: char)
    requires Without(s, d)
    ensures Without(TrimLeft(s), d)
  {
    if s != "" && White(s[0]) {
      TrimLeftWithout(s[1..], d);
    }
  }

  lemma {:induction false} TrimRightWithout(s: string, d: char)
    requires Without(s, d)
    ensures Without(TrimRight(s), d)
  {
    if s != "" && White(s[|s| - 1]) {
      TrimRightWithout(s[..|s| - 1], d);
    }
  }

  lemma CleanedWithout(s: string, d: char)
    requires Without(s, d)
    ensures Without(Unquote(Trim(s)), d)
  {
    TrimLeftWithout(s, d);
    TrimRightWithout(TrimLeft(s), d);
    var t := Trim(s);
    var u := UnquoteLeft(t);
    assert Without(u, d) by {
      forall i | 0 <= i < |u| ensures u[i] != d {
        assert u[i] == t[|t| - |u| + i];
      }
    }
  }

  lemma CleanedEdges(s: string)
    ensures var a := Unquote(Trim(s)); a != "" ==> a[0] != '"' && a[|a| - 1] != '"'
  {
    var u := UnquoteLeft(Trim(s));
    var a := UnquoteRight(u);
    assert a != "" ==> a[0] == u[0];
  }

  lemma ParsedOk(list: string)
    requires Without(list, ']')
    ensures forall a | a in ParseArgs(list) :: ArgOk(a)
  {
    var parts := Split(list, ',');
    SplitWithout(list, ',', ',');
    SplitWithout(list, ',', ']');
    forall a | a in ParseArgs(list) ensures ArgOk(a) {
      var i :| 0 <= i < |parts| && a == Unquote(Trim(parts[i]));
      assert parts[i] in parts;
      CleanedWithout(parts[i], ',');
      CleanedWithout(parts[i], ']');
      CleanedEdges(parts[i]);
    }
  }

  lemma ExtractedOk(content: string)
    ensures forall a | a in ExtractEntrypoint(content) :: ArgOk(a)
  {
    hide Captures;
    hide ParseArgs;
    AllCaptured(content, Entrypoint);
    var found := Captures(content, Entrypoint);
    if found != [] {
      assert Captured(found[0], Entrypoint);
      ParsedOk(found[0][0]);
    } else {
      assert ArgOk("/app/entrypoint");
    }
  }

  // --- Printing and parsing a list ------------------------------------------------------------

  lemma TrimQuoted(pad: string, a: string)
    requires pad == "" || pad == " "
    ensures Trim(pad + Quoted(a)) == Quoted(a)
  {
    var q := Quoted(a);
    assert q[0] == '"' && q[|q| - 1] == '"';
    assert TrimLeft(q) == q && TrimRight(q) == q;
    if pad == " " {
      assert (pad + q)[1..] == q;
    } else {
      assert pad + q == q;
    }
  }

  lemma UnquoteQuoted(a: string)
    requires a != "" && a[0] != '"' && a[|a| - 1] != '"'
    ensures Unquote(Quoted(a)) == a
  {
    var q, r := Quoted(a), a + "\"";
    assert q[1..] == r;
    assert UnquoteLeft(r) == r;
    assert UnquoteLeft(q) == r;
    assert r[..|r| - 1] == a;
    assert UnquoteRight(a) == a;
    assert UnquoteRight(r) == a;
  }

  lemma CleanedQuoted(pad: string, a: string)
    requires pad == "" || pad == " "
    requires a != "" && a[0] != '"' && a[|a| - 1] != '"'
    ensures Unquote(Trim(pad + Quoted(a))) == a
  {
    hide Unquote;
    hide Trim;
    hide Quoted;
    TrimQuoted(pad, a);
    UnquoteQuoted(a);
  }

  lemma CleanedCons(part: string, parts: seq<string>)
    ensures NonEmpty(Cleaned([part] + parts)) ==
            (if Unquote(Trim(part)) == "" then [] else [Unquote(Trim(part))]) + NonEmpty(Cleaned(parts))
  {
    hide Unquote;
    hide Trim;
    assert Cleaned([part] + parts)[1..] == Cleaned(parts);
  }

  lemma QuotedWithout(pad: string, a: string)
    requires (pad == "" || pad == " ") && Without(a, ',')
    ensures Without(pad + Quoted(a), ',')
  {
  }

  /** Printing a list of clean arguments and parsing it again gives the list. */
  lemma {:induction false} ParseJoin(pad: string, parts: seq<string>)
    requires pad == "" || pad == " "
    requires parts != [] && forall a | a in parts :: ArgOk(a)
    ensures ParseArgs(pad + Join(QuotedAll(parts), ", ")) == parts
    decreases |parts|
  {
    hide Unquote;
    hide Trim;
    hide Split;
    hide NonEmpty;
    var a := parts[0];
    assert a in parts;
    var one := pad + Quoted(a);
    CleanedQuoted(pad, a);
    QuotedWithout(pad, a);
    if |parts| == 1 {
      SplitWhole(one, ',');
      CleanedCons(one, []);
      assert NonEmpty(Cleaned([])) == [] by { NothingClean(); }
      assert [one] + [] == [one];
    } else {
      assert QuotedAll(parts)[1..] == QuotedAll(parts[1..]);
      var more := " " + Join(QuotedAll(parts[1..]), ", ");
      assert pad + Join(QuotedAll(parts), ", ") == one + ([','] + more);
      SplitPart(one, more, ',');
      CleanedCons(one, Split(more, ','));
      ParseJoin(" ", parts[1..]);
    }
  }

  lemma NothingClean()
    ensures NonEmpty(Cleaned([])) == []
  {
  }

  // --- The entrypoint line ------------------------------------------------------------------------

  /** The first capture of `ENTRYPOINT [args]` reaches to the first closing bracket. */
  lemma BracketArgIs(args: string, n: nat, rest: string)
    requires 0 < n <= |args|
    requires forall i | 0 <= i < n :: args[i] != ']'
    requires n < |args| ==> args[n] == ']'
    ensures BracketArg("[" + (args + ("]" + rest))) == Hit([args[..n]], n + 2)
  {
    var body := args + ("]" + rest);
    var s := "[" + body;
    assert s[0] == '[' && s[1..] == body;
    assert forall i | 0 <= i < n :: body[i] == args[i];
    assert body[n] == ']';
    RunIs(body, n, InBracket);
    assert s[1..n + 1] == args[..n];
  }

  lemma BracketFound(args: string, n: nat, rest: string)
    requires 0 < n <= |args|
    requires forall i | 0 <= i < n :: args[i] != ']'
    requires n < |args| ==> args[n] == ']'
    ensures var found := Captures(BracketLine(args) + rest, Entrypoint); found != [] && found[0] == [args[..n]]
  {
    hide Captures;
    hide BracketArg;
    var list := "[" + (args + ("]" + ("\n\n" + rest)));
    BracketArgIs(args, n, "\n\n" + rest);
    var arg := " " + list;
    var s := "ENTRYPOINT" + arg;
    assert BracketLine(args) + rest == s;
    assert s[10..] == arg;
    assert arg[1] == '[';
    RunIs(arg, 1, Blank);
    assert arg[1..] == list;
    assert Argument(arg, Entrypoint) == Skipping(1, BracketArg(list));
    CapturesStep(s, Entrypoint);
  }

  lemma {:induction false} JoinWithout(parts: seq<string>)
    requires forall a | a in parts :: Without(a, ']')
    ensures Without(Join(QuotedAll(parts), ", "), ']')
  {
    if parts != [] {
      assert parts[0] in parts;
      assert Without(Quoted(parts[0]), ']');
    }
    if |parts| > 1 {
      assert QuotedAll(parts)[1..] == QuotedAll(parts[1..]);
      JoinWithout(parts[1..]);
    }
  }

  lemma JoinNonEmpty(parts: seq<string>)
    requires parts != []
    ensures Join(QuotedAll(parts), ", ") != ""
  {
  }

  lemma GivenRead(parts: seq<string>, rest: string)
    requires parts != [] && forall a | a in parts :: ArgOk(a)
    ensures ExtractEntrypoint(BracketLine(Join(QuotedAll(parts), ", ")) + rest) == parts
  {
    hide Captures;
    hide BracketLine;
    hide ParseArgs;
    var args := Join(QuotedAll(parts), ", ");
    JoinWithout(parts);
    JoinNonEmpty(parts);
    BracketFound(args, |args|, rest);
    assert args[..|args|] == args;
    ParseJoin("", parts);
    assert "" + args == args;
  }

  lemma ShimBinPlain()
    ensures ShimBin[0] != '"' && ShimBin[|ShimBin| - 1] != '"'
    ensures Without(ShimBin, ',') && Without(ShimBin, ']')
  {
  }

  /** The shim call that is printed for an empty list is never read back as an empty list. */
  lemma DefaultRead(tail: string, rest: string)
    ensures ExtractEntrypoint(BracketLine(ShimQuoted + tail) + rest) != []
  {
    hide Captures;
    hide BracketLine;
    hide Unquote;
    hide Trim;
    hide Split;
    hide NonEmpty;
    ShimBinPlain();
    var args := ShimQuoted + tail;
    var n := FirstClose(args, |ShimQuoted|);
    assert Without(Quoted(ShimBin), ']');
    assert args[..|ShimQuoted|] == ShimQuoted && Without(ShimQuoted, ']');
    BracketFound(args, n, rest);
    var more := " " + args[|ShimQuoted|..n];
    assert args[..n] == Quoted(ShimBin) + ([','] + more);
    assert Without(Quoted(ShimBin), ',');
    SplitPart(Quoted(ShimBin), more, ',');
    CleanedCons(Quoted(ShimBin), Split(more, ','));
    CleanedQuoted("", ShimBin);
    assert "" + Quoted(ShimBin) == Quoted(ShimBin);
  }

  /** The first closing bracket from index i on. */
  function FirstClose(s: string, i: nat): (n: nat)
    requires i <= |s|
    ensures i <= n <= |s|
    ensures forall j | i <= j < n :: s[j] != ']'
    ensures n < |s| ==> s[n] == ']'
    decreases |s| - i
  {
    if i == |s| || s[i] == ']' then i else FirstClose(s, i + 1)
  }

  lemma RepackRead(m: Manifest, sh: Scripts, order: seq<string>)
    requires forall k | k in order :: k in m.labels
    requires Clean(m, Entrypoint) && CleanScripts(m, sh, Entrypoint) && !Wrapped(m)
    ensures ExtractEntrypoint(Generate(m, sh, order)) == ["/app/entrypoint"]
  {
    hide Captures;
    hide Calm;
    hide Clean;
    hide CleanScripts;
    hide Generate;
    hide LabelBlock;
    hide StopLine;
    var p := Entrypoint;
    ScanToEntrypoint(m, sh, order, p);
    LabelsQuiet(m, order, p);
    LabelBlockCalm(Labels(m, order), p);
    StopLineCalm(m, p);
    CalmAppend(LabelBlock(Labels(m, order)), StopLine(m), p);
    CalmNothing(FromLabels(m, order), p);
    assert FromEntrypoint(m, order) == FromLabels(m, order);
  }

  /**
   For the images that get an entrypoint: the list comes back exactly when it is not empty and
   every argument is clean. The repacked images answer with the extractor's default.
   */
  lemma EntrypointRead(m: Manifest, sh: Scripts, order: seq<string>)
    requires forall k | k in order :: k in m.labels
    requires Clean(m, Entrypoint) && CleanScripts(m, sh, Entrypoint)
    ensures ExtractEntrypoint(Generate(m, sh, order)) == m.entrypoint <==>
            if Wrapped(m) then m.entrypoint != [] && forall a | a in m.entrypoint :: ArgOk(a)
            else m.entrypoint == ["/app/entrypoint"]
  {
    hide Captures;
    hide Clean;
    hide CleanScripts;
    hide Generate;
    hide ArgOk;
    hide BracketLine;
    hide ParseArgs;
    if !Wrapped(m) {
      RepackRead(m, sh, order);
    } else {
      ExtractedOk(Generate(m, sh, order));
      ScanToEntrypoint(m, sh, order, Entrypoint);
      if m.entrypoint == [] {
        DefaultRead(RunArgs + Put(BinDir, m.Name(), Quote), FromLabels(m, order));
      } else if forall a | a in m.entrypoint :: ArgOk(a) {
        GivenRead(m.entrypoint, FromLabels(m, order));
      }
    }
  }
}
