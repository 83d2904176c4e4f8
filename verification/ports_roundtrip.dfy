/** The exposed ports read back from a generated Dockerfile. */
module PortsRoundTrip {
  import opened Text
  import opened Patterns
  import opened Silence
  import opened Manifests
  import opened Generator
  import opened Sections
  import opened Extract
  import opened RoundTrip
  import opened RuntimeRoundTrip

  // --- Numbers ---------------------------------------------------------------------------

  lemma {:induction false} DecimalValue(n: nat)
    ensures Value(Decimal(n)) == n
  {
    var s := Decimal(n);
    if n < 10 {
      assert s[..|s| - 1] == "";
    } else {
      assert s[..|s| - 1] == Decimal(n / 10);
      DecimalValue(n / 10);
    }
  }

  lemma DecimalParses(n: nat)
    requires n < 0x1_0000
    ensures ParseU16(Decimal(n)) == Some(n)
  {
    DecimalValue(n);
    assert Digit(Decimal(n)[0]);
  }

  // --- What the extractor can return -----------------------------------------------------

  lemma {:induction false} PortsInCanonical(parts: seq<string>)
    ensures forall p | p in PortsIn(parts) :: Canonical(p)
  {
    if parts != [] {
      PortsInCanonical(parts[1..]);
      match ParseU16(Before(parts[0], '/'))
      case None =>
      case Some(n) => DecimalParses(n);
    }
  }

  lemma {:induction false} PortsCanonical(found: seq<seq<string>>)
    ensures forall p | p in PortsFound(found) :: Canonical(p)
  {
    if found != [] {
      PortsCanonical(found[1..]);
      if found[0] != [] {
        PortsInCanonical(Words(found[0][0]));
      }
    }
  }

  // --- Printing and parsing the list ------------------------------------------------------------

  predicate Digits(s: string) {
    s != "" && forall i | 0 <= i < |s| :: Digit(s[i])
  }

  lemma WordsNext(word: string, rest: string)
    requires Digits(word) && rest != "" && White(rest[0])
    ensures Words(word + rest) == [word] + Words(rest[1..])
  {
    var s := word + rest;
    assert !White(s[0]) by { assert Digit(word[0]); }
    RunIs(s, |word|, NonBlank);
    assert s[..|word|] == word && s[|word|..] == rest;
  }

  lemma {:induction false} WordsOfJoin(parts: seq<string>)
    requires parts != [] && forall p | p in parts :: Digits(p)
    ensures Words(Join(parts, " ") + "\n\n") == parts
  {
    hide Digits;
    if |parts| == 1 {
      WordsNext(parts[0], "\n\n");
      assert "\n\n"[1..] == "\n";
      assert Words("\n") == [] by { assert "\n"[1..] == ""; }
      assert Words("\n\n"[1..]) == [];
    } else {
      var more := Join(parts[1..], " ") + "\n\n";
      assert Join(parts, " ") + "\n\n" == parts[0] + (" " + more);
      WordsNext(parts[0], " " + more);
      assert (" " + more)[1..] == more;
      WordsOfJoin(parts[1..]);
    }
  }

  lemma CanonicalDigits(port: string)
    requires Canonical(port)
    ensures Digits(port) && PortOf(port) == [port]
  {
    assert Digits(port);
    assert Without(port, '/');
    SplitWhole(port, '/');
  }

  lemma {:induction false} PortsInSame(parts: seq<string>)
    requires forall p | p in parts :: Canonical(p)
    ensures PortsIn(parts) == parts
  {
    hide Canonical;
    hide PortOf;
    if parts != [] {
      CanonicalDigits(parts[0]);
      PortsInSame(parts[1..]);
    }
  }

  lemma {:induction false} JoinPortList(parts: seq<string>)
    requires parts != [] && forall p | p in parts :: Digits(p)
    ensures var j := Join(parts, " "); j != "" && Digit(j[0]) && forall i | 0 <= i < |j| :: In(j[i], PortList)
  {
    assert parts[0] in parts;
    if |parts| > 1 {
      JoinPortList(parts[1..]);
      assert forall i | 0 <= i < |parts[0]| :: Digit(parts[0][i]);
    }
  }

  // --- The port line ----------------------------------------------------------------------------

  lemma PortsArgIs(list: string, rest: string)
    requires list != "" && Digit(list[0]) && forall i | 0 <= i < |list| :: In(list[i], PortList)
    requires rest != "" && rest[0] == 'H'
    ensures Argument(" " + (list + ("\n\n" + rest)), Expose) == Hit([list + "\n\n"], 3 + |list|)
  {
    var body := list + ("\n\n" + rest);
    var arg := " " + body;
    RunIs(arg, 1, Blank);
    assert arg[1..] == body;
    assert forall i | 0 <= i < |list| + 2 :: In(body[i], PortList);
    assert body[|list| + 2] == 'H' && !In('H', PortList);
    RunIs(body, |list| + 2, PortList);
    assert arg[1..3 + |list|] == list + "\n\n";
  }

  lemma PortsScan(list: string, rest: string)
    requires list != "" && Digit(list[0]) && forall i | 0 <= i < |list| :: In(list[i], PortList)
    requires rest != "" && rest[0] == 'H'
    ensures Captures("EXPOSE" + (" " + (list + ("\n\n" + rest))), Expose) == [[list + "\n\n"]] + Captures(rest, Expose)
  {
    hide Captures;
    hide Argument;
    PortsArgIs(list, rest);
    var arg := " " + (list + ("\n\n" + rest));
    var s := "EXPOSE" + arg;
    assert s[6..] == arg;
    assert s[9 + |list|..] == rest;
    CapturesStep(s, Expose);
  }

  lemma BelowPortsCalm(m: Manifest, order: seq<string>)
    requires forall k | k in order :: k in m.labels
    requires Clean(m, Expose)
    ensures Calm(Healthcheck(m, StartPeriod(m)) + FromEntrypoint(m, order), Expose)
  {
    hide Calm;
    hide Clean;
    hide Healthcheck;
    hide FromEntrypoint;
    HealthcheckCalm(m, Expose);
    FromEntrypointCalm(m, order, Expose);
    CalmAppend(Healthcheck(m, StartPeriod(m)), FromEntrypoint(m, order), Expose);
  }

  lemma HealthStarts(m: Manifest)
    ensures Healthcheck(m, StartPeriod(m)) != "" && Healthcheck(m, StartPeriod(m))[0] == 'H'
  {
  }

  /** The ports come back in order, repetitions included, exactly when all are canonical. */
  lemma PortsRead(m: Manifest, sh: Scripts, order: seq<string>)
    requires forall k | k in order :: k in m.labels
    requires Clean(m, Expose) && CleanScripts(m, sh, Expose)
    ensures PortsOf(Generate(m, sh, order)) == m.expose <==> forall p | p in m.expose :: Canonical(p)
  {
    hide Captures;
    hide Calm;
    hide Clean;
    hide CleanScripts;
    hide Generate;
    hide Canonical;
    hide Digits;
    hide Healthcheck;
    hide FromEntrypoint;
    PortsCanonical(Captures(Generate(m, sh, order), Expose));
    if forall p | p in m.expose :: Canonical(p) {
      ScanToExpose(m, sh, order, Expose);
      var rest := Healthcheck(m, StartPeriod(m)) + FromEntrypoint(m, order);
      BelowPortsCalm(m, order);
      CalmNothing(rest, Expose);
      HealthStarts(m);
      assert FromExpose(m, order) == ExposeLine(m) + rest;
      if m.expose == [] {
        Ends(Newline, Expose);
        TailCalm(Newline, Expose);
        IdleScan(Newline, rest, Expose);
      } else {
        forall p | p in m.expose ensures Digits(p) { CanonicalDigits(p); }
        var list := Join(m.expose, " ");
        JoinPortList(m.expose);
        assert FromExpose(m, order) == "EXPOSE" + (" " + (list + ("\n\n" + rest)));
        PortsScan(list, rest);
        WordsOfJoin(m.expose);
        PortsInSame(m.expose);
        assert PortsFound([[list + "\n\n"]]) == m.expose by { assert PortsFound([]) == []; }
      }
    }
  }

  /** The same for the sets that the drift check compares. */
  lemma PortSetRead(m: Manifest, sh: Scripts, order: seq<string>)
    requires forall k | k in order :: k in m.labels
    requires Clean(m, Expose) && CleanScripts(m, sh, Expose)
    ensures SetOf(PortsOf(Generate(m, sh, order))) == SetOf(m.expose) <==>
            forall p | p in m.expose :: Canonical(p)
  {
    hide Captures;
    hide Clean;
    hide CleanScripts;
    hide Generate;
    hide Canonical;
    PortsRead(m, sh, order);
    var found := PortsOf(Generate(m, sh, order));
    PortsCanonical(Captures(Generate(m, sh, order), Expose));
    if SetOf(found) == SetOf(m.expose) {
      forall p | p in m.expose ensures Canonical(p) {
        assert p in SetOf(found);
      }
    }
  }
}
