/** Texts in which a pattern finds nothing, and how they are put together. */
module Silence {
  import opened Text
  import opened Patterns

  /** What every match contains: the keyword, or the `="` of a label. */
  function Needle(p: Pattern): string {
    if p.Label? then "=\"" else Keyword(p)
  }

  /** A match could start here: the keyword before a blank or the end, or the `="` of a label. */
  predicate Hot(s: string, p: Pattern) {
    Needle(p) <= s && (p.Label? || |s| == |Keyword(p)| || White(s[|Keyword(p)|]))
  }

  predicate Quiet(s: string, p: Pattern) {
    forall i | 0 <= i <= |s| :: !Hot(s[i..], p)
  }

  /** A quiet text that may stand anywhere in a generated line. */
  predicate Plain(s: string, p: Pattern) {
    && Quiet(s, p)
    && (p.Label? ==> '"' !in s && (s != "" ==> s[|s| - 1] != '='))
  }

  /** Fixed text that lacks a character of the keyword. */
  predicate Lacks(s: string, p: Pattern) {
    match p
    case Version => Without(s, 'G') || Without(s, 'R') || Without(s, 'A')
    case From => Without(s, 'F')
    case User => Without(s, 'U') || Without(s, 'S')
    case Expose => Without(s, 'X')
    case Entrypoint => Without(s, 'Y') || Without(s, 'T')
    case Stop => Without(s, 'G') || Without(s, 'P')
    case Label => Without(s, '=') || Without(s, '"')
  }

  lemma NeedleMembers(p: Pattern)
    ensures match p
            case Version => 'A' in Needle(p) && 'R' in Needle(p) && 'G' in Needle(p)
            case From => 'F' in Needle(p)
            case User => 'U' in Needle(p) && 'S' in Needle(p)
            case Expose => 'X' in Needle(p)
            case Entrypoint => 'T' in Needle(p) && 'Y' in Needle(p)
            case Stop => 'G' in Needle(p) && 'P' in Needle(p)
            case Label => '=' in Needle(p) && '"' in Needle(p)
    ensures !p.Label? ==> forall c | c in Needle(p) :: Capital(c)
  {
  }

  lemma HotMembers(s: string, i: nat, p: Pattern)
    requires i <= |s|
    ensures Hot(s[i..], p) ==> forall c | c in Needle(p) :: exists k | 0 <= k < |s| :: s[k] == c
  {
    if Hot(s[i..], p) {
      forall c | c in Needle(p) ensures exists k | 0 <= k < |s| :: s[k] == c {
        var k :| 0 <= k < |Needle(p)| && Needle(p)[k] == c;
        assert s[i..][k] == s[i + k] == c;
      }
    }
  }

  lemma DullLacks(s: string, p: Pattern)
    requires Dull(s)
    ensures Lacks(s, p)
  {
  }

  lemma QuietFixed(s: string, p: Pattern)
    requires Lacks(s, p)
    ensures Quiet(s, p)
  {
    hide Needle;
    hide Hot;
    NeedleMembers(p);
    forall i | 0 <= i <= |s| ensures !Hot(s[i..], p) {
      HotMembers(s, i, p);
    }
  }

  /** Nothing hot can straddle the end of a. */
  predicate Seam(a: string, b: string, p: Pattern) {
    a == "" || b == "" ||
    if p.Label? then a[|a| - 1] != '=' || b[0] != '"'
    else !Capital(a[|a| - 1]) || !Capital(b[0])
  }

  lemma HotAppend(a: string, b: string, p: Pattern)
    requires a != ""
    ensures Hot(a + b, p) ==> Hot(a, p) || !Seam(a, b, p)
  {
    hide Keyword;
    NeedleMembers(p);
    var w := Needle(p);
    if Hot(a + b, p) {
      if |a| >= |w| {
        assert (a + b)[..|w|] == a[..|w|];
        assert |a| > |w| ==> (a + b)[|w|] == a[|w|];
      } else {
        assert w[|a| - 1] == (a + b)[|a| - 1] == a[|a| - 1];
        assert w[|a|] == (a + b)[|a|] == b[0];
      }
    }
  }

  lemma QuietAppend(a: string, b: string, p: Pattern)
    requires Quiet(a, p) && Quiet(b, p) && Seam(a, b, p)
    ensures Quiet(a + b, p)
  {
    hide Hot;
    forall i | 0 <= i <= |a + b| ensures !Hot((a + b)[i..], p) {
      if i >= |a| {
        assert (a + b)[i..] == b[i - |a|..];
      } else {
        assert (a + b)[i..] == a[i..] + b;
        HotAppend(a[i..], b, p);
      }
    }
  }

  predicate EndsBlank(s: string) {
    s != "" && White(s[|s| - 1])
  }

  lemma LabelHot(t: string, b: string)
    requires EndsBlank(t)
    ensures LabelPair(t + b).Hit? ==> exists i | 0 <= i < |t| :: Hot(t[i..], Label)
  {
    var s := t + b;
    var k := Run(s, KeyChar);
    if LabelPair(s).Hit? {
      assert White(s[|t| - 1]) && !In(s[|t| - 1], KeyChar);
      assert s[k] == s[k..][0] == '=' && s[k + 1] == s[k..][1] == '"';
      assert t[k..][0] == '=' && t[k..][1] == '"';
      assert Hot(t[k..], Label);
    }
  }

  lemma KeywordHot(t: string, b: string, p: Pattern)
    requires EndsBlank(t) && !p.Label?
    ensures Match(t + b, p).Hit? ==> Hot(t, p)
  {
    hide Keyword;
    NeedleMembers(p);
    var w := Keyword(p);
    if Match(t + b, p).Hit? {
      assert Run((t + b)[|w|..], Blank) > 0;
      assert White((t + b)[|w|..][0]);
      HotAppend(t, b, p);
    }
  }

  lemma QuietMiss(t: string, b: string, p: Pattern)
    requires Quiet(t, p) && EndsBlank(t)
    ensures Match(t + b, p) == Miss
  {
    hide LabelPair;
    hide Hot;
    if p.Label? {
      LabelHot(t, b);
    } else {
      assert t[0..] == t;
      KeywordHot(t, b, p);
    }
  }

  lemma QuietFrom(s: string, n: nat, p: Pattern)
    requires Quiet(s, p) && n <= |s|
    ensures Quiet(s[n..], p)
  {
    hide Hot;
    forall i | 0 <= i <= |s[n..]| ensures !Hot(s[n..][i..], p) {
      assert s[n..][i..] == s[n + i..];
    }
  }

  // --- Quiet lines, piece by piece -------------------------------------------

  /** Quiet lines. */
  predicate Calm(s: string, p: Pattern) {
    EndsBlank(s) && Quiet(s, p)
  }

  lemma DullQuiet(d: Fixed, p: Pattern)
    ensures Quiet(d, p) && !Capital(d[0]) && !Capital(d[|d| - 1])
  {
    hide Quiet;
    DullLacks(d, p);
    hide Lacks;
    QuietFixed(d, p);
  }

  /** A calm text that is no continuation of a keyword. */
  predicate Tail(s: string, p: Pattern) {
    Calm(s, p) && !Capital(s[0])
  }

  lemma Ends(d: Fixed, p: Pattern)
    requires EndsBlank(d)
    ensures Tail(d, p)
  {
    hide Quiet;
    hide Dull;
    DullQuiet(d, p);
  }

  lemma Then(d: Fixed, rest: string, p: Pattern)
    requires Calm(rest, p)
    ensures Tail(d + rest, p)
  {
    hide Quiet;
    DullQuiet(d, p);
    QuietAppend(d, rest, p);
  }

  lemma FieldRest(field: string, rest: string, p: Pattern)
    requires Plain(field, p) && Tail(rest, p)
    ensures Calm(field + rest, p)
  {
    hide Quiet;
    QuietAppend(field, rest, p);
  }

  lemma FieldThen(d: Fixed, field: string, rest: string, p: Pattern)
    requires Plain(field, p) && Tail(rest, p)
    ensures Tail(d + field + rest, p)
  {
    hide Quiet;
    FieldRest(field, rest, p);
    Then(d, field + rest, p);
    assert d + field + rest == d + (field + rest);
  }

  /** Fixed text with capitals that lacks a letter of the keyword. */
  lemma WordThen(w: string, rest: string, p: Pattern)
    requires w != "" && !Capital(w[|w| - 1]) && w[|w| - 1] != '='
    requires Lacks(w, p) && Calm(rest, p)
    ensures Calm(w + rest, p) && (w + rest)[0] == w[0]
  {
    hide Quiet;
    hide Lacks;
    QuietFixed(w, p);
    QuietThen(w, rest, p);
  }

  lemma QuietThen(w: string, rest: string, p: Pattern)
    requires w != "" && !Capital(w[|w| - 1]) && w[|w| - 1] != '='
    requires Quiet(w, p) && Calm(rest, p)
    ensures Calm(w + rest, p) && (w + rest)[0] == w[0]
  {
    hide Quiet;
    QuietAppend(w, rest, p);
  }

  lemma CalmAppend(a: string, b: string, p: Pattern)
    requires Calm(a, p) && Calm(b, p)
    ensures Calm(a + b, p)
  {
    hide Quiet;
    QuietAppend(a, b, p);
  }

  // --- Scanning -----------------------------------------------------------------

  /** A scan runs through quiet text without a capture. */
  lemma {:induction false} CalmScan(s: string, rest: string, p: Pattern)
    requires s == "" || EndsBlank(s)
    requires Quiet(s, p)
    ensures Captures(s + rest, p) == Captures(rest, p)
    decreases |s|
  {
    hide Match;
    hide Captures;
    if s == "" {
      assert s + rest == rest;
    } else {
      QuietMiss(s, rest, p);
      CapturesStep(s + rest, p);
      assert (s + rest)[1..] == s[1..] + rest;
      QuietFrom(s, 1, p);
      CalmScan(s[1..], rest, p);
    }
  }

  lemma CalmNothing(s: string, p: Pattern)
    requires Calm(s, p)
    ensures Captures(s, p) == []
  {
    hide Quiet;
    CalmScan(s, "", p);
    assert s + "" == s;
  }

  /** `KEYWORD word`: the whole word is captured. */
  lemma WordScan(v: string, rest: string, p: Pattern)
    requires p.From? || p.User? || p.Stop?
    requires Bare(v) && (rest == "" || White(rest[0]))
    ensures Captures(Keyword(p) + (" " + (v + rest)), p) == [[v]] + Captures(rest, p)
  {
    hide Captures;
    hide Keyword;
    hide Argument;
    var arg := " " + (v + rest);
    WordArgument(v, rest, p);
    var s := Keyword(p) + arg;
    assert s[|Keyword(p)|..] == arg;
    assert s[|Keyword(p)| + 1 + |v|..] == rest;
    CapturesStep(s, p);
  }

  lemma WordArgument(v: string, rest: string, p: Pattern)
    requires p.From? || p.User? || p.Stop?
    requires Bare(v) && (rest == "" || White(rest[0]))
    ensures Argument(" " + (v + rest), p) == Hit([v], 1 + |v|)
  {
    var arg := " " + (v + rest);
    assert arg[1..] == v + rest;
    RunIs(arg, 1, Blank);
    RunIs(v + rest, |v|, NonBlank);
    assert (v + rest)[..|v|] == v;
  }
}
