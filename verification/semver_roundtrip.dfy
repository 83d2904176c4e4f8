/** The texts that are versions: exactly the printed ones. */
module SemverRoundTrip {
  import opened Text
  import opened Semver
  import Extract

  // --- Printing ------------------------------------------------------------------------------

  function Digits(n: nat): string {
    (if n < 10 then "" else Digits(n / 10)) + [('0' as int + n % 10) as char]
  }

  function Dotted(parts: seq<string>): string
    requires parts != []
  {
    if |parts| == 1 then parts[0] else parts[0] + ("." + Dotted(parts[1..]))
  }

  function ShowIdentifier(id: Identifier): string {
    match id
    case Number(n) => Digits(n)
    case Word(text) => text
  }

  function ShownAll(ids: seq<Identifier>): (r: seq<string>)
    ensures |r| == |ids| && forall i | 0 <= i < |ids| :: r[i] == ShowIdentifier(ids[i])
  {
    seq(|ids|, i requires 0 <= i < |ids| => ShowIdentifier(ids[i]))
  }

  function ShowCore(v: Version): string {
    Dotted([Digits(v.major), Digits(v.minor), Digits(v.patch)])
  }

  /** `major.minor.patch`, then `-pre` and `+build` if there are any. */
  function Show(v: Version): string {
    ShowCore(v) + ((if v.pre == [] then "" else "-" + Dotted(ShownAll(v.pre))) + if v.build == "" then "" else "+" + v.build)
  }

  predicate ProperIdentifier(id: Identifier) {
    id.Word? ==> Alphanumeric(id.text) && !Numeral(id.text)
  }

  predicate ProperBuild(build: string) {
    forall part | part in Split(build, '.') :: Alphanumeric(part)
  }

  /** Numbers of 64 bits, words that are no numbers, and build parts that are words. */
  predicate Proper(v: Version) {
    && v.major < 0x1_0000_0000_0000_0000 && v.minor < 0x1_0000_0000_0000_0000 && v.patch < 0x1_0000_0000_0000_0000
    && (forall i | 0 <= i < |v.pre| :: ProperIdentifier(v.pre[i]))
    && (v.build != "" ==> ProperBuild(v.build))
  }

  // --- Numbers -------------------------------------------------------------------------------

  lemma {:induction false} DigitsRead(n: nat)
    ensures Numeric(Digits(n)) && Extract.Value(Digits(n)) == n && (n > 0 ==> Digits(n)[0] != '0')
  {
    var last := [('0' as int + n % 10) as char];
    if n >= 10 {
      DigitsRead(n / 10);
      assert Digits(n)[..|Digits(n)| - 1] == Digits(n / 10);
      assert Digits(n)[0] == Digits(n / 10)[0];
    } else {
      assert Digits(n) == last && last[..0] == "";
    }
  }

  lemma {:induction false} DigitsBack(s: string)
    requires Numeric(s)
    ensures Digits(Extract.Value(s)) == s
  {
    hide Digits;
    hide Extract.Value;
    hide Extract.DigitValue;
    var t, c := s[..|s| - 1], s[|s| - 1];
    assert s == t + [c];
    if t == "" {
      assert s == [c];
      OneDigit(c);
    } else {
      assert Numeric(t) && t[0] != '0';
      DigitsBack(t);
      ZeroDigits();
      ValueStep(t, c);
      DigitsStep(Extract.Value(t), Extract.DigitValue(c));
    }
  }

  lemma ValueStep(t: string, c: char)
    requires Numeral(t) && Digit(c)
    ensures Extract.Value(t + [c]) == 10 * Extract.Value(t) + Extract.DigitValue(c)
    ensures Extract.DigitValue(c) < 10 && ('0' as int + Extract.DigitValue(c)) as char == c
  {
    assert (t + [c])[..|t|] == t;
  }

  lemma ZeroDigits()
    ensures Digits(0) == "0"
  {
  }

  lemma OneDigit(c: char)
    requires Digit(c)
    ensures Extract.Value([c]) == Extract.DigitValue(c) && Digits(Extract.Value([c])) == [c]
  {
    assert [c][..0] == "";
  }

  lemma DigitsStep(n: nat, d: nat)
    requires d < 10 && n > 0
    ensures Digits(10 * n + d) == Digits(n) + [('0' as int + d) as char]
  {
    LastDigit(n, d);
  }

  lemma LastDigit(n: nat, d: nat)
    requires d < 10
    ensures (10 * n + d) / 10 == n && (10 * n + d) % 10 == d
  {
  }

  lemma NumberExactly(s: string, n: nat)
    ensures ParseNumber(s) == Some(n) <==> n < 0x1_0000_0000_0000_0000 && s == Digits(n)
  {
    DigitsRead(n);
    if Numeric(s) {
      DigitsBack(s);
    }
  }

  lemma NumeralPlain(s: string)
    requires Numeral(s)
    ensures Alphanumeric(s)
  {
  }

  lemma IdentifierExactly(s: string, id: Identifier)
    ensures ParseIdentifier(s) == Some(id) <==> ProperIdentifier(id) && s == ShowIdentifier(id)
  {
    if id.Number? {
      DigitsRead(id.value);
      NumeralPlain(Digits(id.value));
    }
    if Numeric(s) {
      DigitsBack(s);
    }
    hide Digits;
  }

  // --- Parts -----------------------------------------------------------------------------------

  lemma {:induction false} SplitDotted(parts: seq<string>)
    requires parts != [] && forall i | 0 <= i < |parts| :: Without(parts[i], '.')
    ensures Split(Dotted(parts), '.') == parts
  {
    if |parts| == 1 {
      SplitWhole(parts[0], '.');
    } else {
      SplitDotted(parts[1..]);
      SplitPart(parts[0], Dotted(parts[1..]), '.');
    }
  }

  lemma {:induction false} DottedSplit(s: string)
    ensures Dotted(Split(s, '.')) == s
  {
    if s != "" {
      DottedSplit(s[1..]);
      var r := Split(s[1..], '.');
      assert s == [s[0]] + s[1..];
      if s[0] == '.' {
        assert ([""] + r)[1..] == r;
        assert "" + ("." + Dotted(r)) == s;
      } else {
        var all := [[s[0]] + r[0]] + r[1..];
        assert all[1..] == r[1..];
        if |r| > 1 {
          assert [s[0]] + r[0] + ("." + Dotted(r[1..])) == [s[0]] + (r[0] + ("." + Dotted(r[1..])));
        }
      }
    }
  }

  lemma {:induction false} PreExactly(parts: seq<string>, ids: seq<Identifier>)
    ensures ParsePre(parts) == Some(ids) <==>
            |parts| == |ids| && forall i | 0 <= i < |ids| :: ProperIdentifier(ids[i]) && parts[i] == ShowIdentifier(ids[i])
    decreases |parts|
  {
    hide ParseIdentifier;
    hide ShowIdentifier;
    hide ProperIdentifier;
    if parts != [] && ids != [] {
      IdentifierExactly(parts[0], ids[0]);
      PreExactly(parts[1..], ids[1..]);
      assert ids == [ids[0]] + ids[1..];
      assert parts == [parts[0]] + parts[1..];
    }
  }

  // --- A version in three parts ------------------------------------------------------------------

  function Tail(mark: string, part: Option<string>): string {
    match part case None => "" case Some(p) => mark + p
  }

  /** Reading the core, the pre-release part and the build part. */
  function Assemble(core: string, pre: Option<string>, build: Option<string>): Option<Version> {
    var parts := Split(core, '.');
    var ids := if pre.Some? then ParsePre(Split(pre.value, '.')) else Some([]);
    if |parts| != 3 || ids == None || (build.Some? && !ProperBuild(build.value)) then None else
    match (ParseNumber(parts[0]), ParseNumber(parts[1]), ParseNumber(parts[2]))
    case (Some(major), Some(minor), Some(patch)) =>
      Some(Version(major, minor, patch, ids.value, if build.Some? then build.value else ""))
    case _ => None
  }

  lemma {:induction false} FindAt(a: string, c: char, b: string)
    requires Without(a, c) && (b == "" || b[0] == c)
    ensures Find(a + b, c) == |a|
  {
    if a == "" {
      assert a + b == b;
    } else {
      assert (a + b)[1..] == a[1..] + b;
      FindAt(a[1..], c, b);
    }
  }

  function PreAt(s: string, dash: nat, plus: nat): Option<string>
    requires dash <= plus <= |s|
  {
    if dash < plus then Some(s[dash + 1..plus]) else None
  }

  function BuildAt(s: string, plus: nat): Option<string>
    requires plus <= |s|
  {
    if plus < |s| then Some(s[plus + 1..]) else None
  }

  lemma ParseIs(s: string)
    ensures var plus := Find(s, '+');
            var dash := Find(s[..plus], '-');
            Parse(s) == Assemble(s[..dash], PreAt(s, dash, plus), BuildAt(s, plus))
  {
    hide ParseNumber;
    hide ParsePre;
    hide Find;
    hide Split;
    var plus := Find(s, '+');
    var dash := Find(s[..plus], '-');
    var pre, build := PreAt(s, dash, plus), BuildAt(s, plus);
    assert (if dash < plus then ParsePre(Split(s[dash + 1..plus], '.')) else Some([])) ==
           if pre.Some? then ParsePre(Split(pre.value, '.')) else Some([]);
    assert (plus < |s| && !(forall part | part in Split(s[plus + 1..], '.') :: Alphanumeric(part))) <==>
           (build.Some? && !ProperBuild(build.value));
    hide Alphanumeric;
    hide ProperBuild;
  }

  /** Taking a text apart and putting it together. */
  lemma Apart(s: string) returns (core: string, pre: Option<string>, build: Option<string>)
    ensures s == core + (Tail("-", pre) + Tail("+", build))
    ensures Parse(s) == Assemble(core, pre, build)
  {
    ParseIs(s);
    hide Parse;
    hide Assemble;
    var plus := Find(s, '+');
    var dash := Find(s[..plus], '-');
    core, pre, build := s[..dash], PreAt(s, dash, plus), BuildAt(s, plus);
    assert dash < plus ==> s[..plus][dash] == '-';
    TailsAre(s, dash, plus);
    hide Find;
    assert s == s[..dash] + (s[dash..plus] + s[plus..]);
  }

  lemma TailsAre(s: string, dash: nat, plus: nat)
    requires dash <= plus <= |s| && (dash < plus ==> s[dash] == '-') && (plus < |s| ==> s[plus] == '+')
    ensures s[dash..plus] == Tail("-", PreAt(s, dash, plus)) && s[plus..] == Tail("+", BuildAt(s, plus))
  {
  }

  /** There is only one way to take it apart. */
  lemma Together(core: string, pre: Option<string>, build: Option<string>)
    requires Without(core, '-') && Without(core, '+') && (pre.Some? ==> Without(pre.value, '+'))
    ensures Parse(core + (Tail("-", pre) + Tail("+", build))) == Assemble(core, pre, build)
  {
    var a, b := Tail("-", pre), Tail("+", build);
    var s := core + (a + b);
    var front := core + a;
    assert s == front + b && Without(front, '+');
    FindAt(front, '+', b);
    FindAt(core, '-', a);
    ParseIs(s);
    hide *;
    assert s[..|front|] == front;
    TailParts(core, pre, build);
  }

  lemma TailParts(core: string, pre: Option<string>, build: Option<string>)
    ensures var a, b := Tail("-", pre), Tail("+", build);
            var s := core + (a + b);
            s[..|core|] == core && PreAt(s, |core|, |core + a|) == pre && BuildAt(s, |core + a|) == build
  {
    var a, b := Tail("-", pre), Tail("+", build);
    var s := core + (a + b);
    var plus := |core + a|;
    assert s[|core|..plus] == a && s[plus..] == b;
    if pre.Some? {
      assert s[|core| + 1..plus] == a[1..] == pre.value;
    }
    if build.Some? {
      assert s[plus + 1..] == b[1..] == build.value;
    }
  }

  // --- The theorem -----------------------------------------------------------------------------

  lemma {:induction false} DigitsPlain(n: nat)
    ensures forall i | 0 <= i < |Digits(n)| :: Digit(Digits(n)[i])
  {
    DigitsRead(n);
  }

  lemma CorePlain(v: Version)
    ensures Without(ShowCore(v), '-') && Without(ShowCore(v), '+')
    ensures Split(ShowCore(v), '.') == [Digits(v.major), Digits(v.minor), Digits(v.patch)]
  {
    DigitsPlain(v.major);
    DigitsPlain(v.minor);
    DigitsPlain(v.patch);
    var parts := [Digits(v.major), Digits(v.minor), Digits(v.patch)];
    hide Digits;
    DottedWithout(parts, '-');
    DottedWithout(parts, '+');
    SplitDotted(parts);
  }

  lemma {:induction false} DottedWithout(parts: seq<string>, c: char)
    requires parts != [] && c != '.' && forall i | 0 <= i < |parts| :: Without(parts[i], c)
    ensures Without(Dotted(parts), c)
  {
    if |parts| > 1 {
      DottedWithout(parts[1..], c);
    }
  }

  lemma IdentifierPlain(id: Identifier)
    requires ProperIdentifier(id)
    ensures Without(ShowIdentifier(id), '+') && Without(ShowIdentifier(id), '.')
  {
    if id.Number? {
      DigitsPlain(id.value);
    }
    hide Digits;
  }

  lemma PrePlain(ids: seq<Identifier>)
    requires ids != [] && forall i | 0 <= i < |ids| :: ProperIdentifier(ids[i])
    ensures Without(Dotted(ShownAll(ids)), '+') && Split(Dotted(ShownAll(ids)), '.') == ShownAll(ids)
    ensures ParsePre(ShownAll(ids)) == Some(ids)
  {
    var parts := ShownAll(ids);
    forall i | 0 <= i < |parts| ensures Without(parts[i], '+') && Without(parts[i], '.') {
      IdentifierPlain(ids[i]);
    }
    PreExactly(parts, ids);
    hide ShowIdentifier;
    hide ProperIdentifier;
    hide ParsePre;
    DottedWithout(parts, '+');
    SplitDotted(parts);
  }

  function PreText(v: Version): Option<string> {
    if v.pre == [] then None else Some(Dotted(ShownAll(v.pre)))
  }

  function BuildText(v: Version): Option<string> {
    if v.build == "" then None else Some(v.build)
  }

  /** What was read is what would be printed. */
  lemma AssembledIs(core: string, pre: Option<string>, build: Option<string>)
    ensures var r := Assemble(core, pre, build);
            r.Some? ==> Proper(r.value) && core == ShowCore(r.value) && pre == PreText(r.value) && build == BuildText(r.value)
  {
    if Assemble(core, pre, build).Some? {
      var v := Assemble(core, pre, build).value;
      var parts := Split(core, '.');
      NumberExactly(parts[0], v.major);
      NumberExactly(parts[1], v.minor);
      NumberExactly(parts[2], v.patch);
      DottedSplit(core);
      assert parts == [Digits(v.major), Digits(v.minor), Digits(v.patch)];
      hide Digits;
      hide ParseNumber;
      if pre.Some? {
        var ps := Split(pre.value, '.');
        PreExactly(ps, v.pre);
        DottedSplit(pre.value);
        assert ps == ShownAll(v.pre);
      }
      hide ParsePre;
      hide ProperIdentifier;
      hide ShowIdentifier;
      assert Split("", '.') == [""] && "" in [""] && !Alphanumeric("");
    }
  }

  /**
   A text is read as a version exactly when it is the printed form of that version, and the version
   is a proper one: printing and reading are inverse, and nothing else is a version.
   */
  lemma ParseExactly(s: string, v: Version)
    ensures Parse(s) == Some(v) <==> Proper(v) && s == Show(v)
  {
    hide Parse;
    hide Assemble;
    hide ShowCore;
    hide Proper;
    var core, pre, build := Apart(s);
    AssembledIs(core, pre, build);
    if Proper(v) && s == Show(v) {
      ShownRead(v);
    }
  }

  /** Printing a proper version and reading it gives it back. */
  lemma ShownRead(v: Version)
    requires Proper(v)
    ensures Parse(Show(v)) == Some(v)
  {
    CorePlain(v);
    if v.pre != [] {
      PrePlain(v.pre);
    }
    NumberExactly(Digits(v.major), v.major);
    NumberExactly(Digits(v.minor), v.minor);
    NumberExactly(Digits(v.patch), v.patch);
    hide Parse;
    hide ParsePre;
    hide ParseNumber;
    hide Digits;
    hide ShowCore;
    hide ProperIdentifier;
    Together(ShowCore(v), PreText(v), BuildText(v));
  }
}
