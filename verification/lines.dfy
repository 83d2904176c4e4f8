/** Python's view of a text as lines. */
module Lines {
  import opened Text

  /** `str.isspace`, which is also `\s` in a pattern. */
  predicate Space(c: char) {
    White(c) || 0x1C <= c as int <= 0x1F
  }

  function LStrip(s: string): string {
    if s != "" && Space(s[0]) then LStrip(s[1..]) else s
  }

  function RStrip(s: string): string {
    if s != "" && Space(s[|s| - 1]) then RStrip(s[..|s| - 1]) else s
  }

  function Strip(s: string): string {
    RStrip(LStrip(s))
  }

  /** How many blanks a text starts with. */
  function Span(s: string): (n: nat)
    ensures n <= |s| && forall i | 0 <= i < n :: Space(s[i])
    ensures n < |s| ==> !Space(s[n])
  {
    if s != "" && Space(s[0]) then 1 + Span(s[1..]) else 0
  }

  function Unspaced(s: string): string {
    s[Span(s)..]
  }

  /** What stands behind a literal w at the front of s. */
  function After(s: string, w: string): Option<string> {
    if w <= s then Some(s[|w|..]) else None
  }

  /** What stands behind w and at least one blank. */
  function AfterWord(s: string, w: string): Option<string> {
    match After(s, w)
    case None => None
    case Some(t) => if Span(t) > 0 then Some(Unspaced(t)) else None
  }

  /** How many characters that are no blanks a text starts with. */
  function WordEnd(s: string): (n: nat)
    ensures n <= |s| && forall i | 0 <= i < n :: !Space(s[i])
    ensures n < |s| ==> Space(s[n])
  {
    if s != "" && !Space(s[0]) then 1 + WordEnd(s[1..]) else 0
  }

  /** `s.strip(c)` */
  function StripChar(s: string, c: char): string
    decreases |s|
  {
    if s != "" && s[0] == c then StripChar(s[1..], c) else
    if s != "" && s[|s| - 1] == c then StripChar(s[..|s| - 1], c) else s
  }

  /** `line.strip().upper().startswith(word)` */
  predicate Instr(line: string, word: string) {
    word <= Upper(Strip(line))
  }

  /** The first line from i on with the instruction, or the number of lines. */
  function FirstInstr(lines: seq<string>, word: string, i: nat): (n: nat)
    requires i <= |lines|
    ensures i <= n <= |lines|
    ensures forall j | i <= j < n :: !Instr(lines[j], word)
    ensures n < |lines| ==> Instr(lines[n], word)
    decreases |lines| - i
  {
    if i == |lines| || Instr(lines[i], word) then i else FirstInstr(lines, word, i + 1)
  }

  /** The last such line, or the number of lines. */
  function LastInstr(lines: seq<string>, word: string, i: nat): (n: nat)
    requires i <= |lines|
    ensures n <= |lines|
    ensures n < |lines| ==> n < i && Instr(lines[n], word) && forall j | n < j < i :: !Instr(lines[j], word)
    ensures n == |lines| ==> forall j | 0 <= j < i :: !Instr(lines[j], word)
  {
    if i == 0 then |lines| else if Instr(lines[i - 1], word) then i - 1 else LastInstr(lines, word, i - 1)
  }

  /** `line.rstrip().endswith("\\")` */
  predicate EndsSlash(line: string) {
    var s := RStrip(line);
    s != "" && s[|s| - 1] == '\\'
  }

  /** `"\n".join(lines)` */
  function Joined(lines: seq<string>): string {
    if lines == [] then "" else
    if |lines| == 1 then lines[0] else lines[0] + ("\n" + Joined(lines[1..]))
  }

  predicate OneLine(s: string) {
    Without(s, '\n')
  }

  /** Splitting a joined text at its newlines gives the lines back. */
  lemma {:induction false} SplitJoined(lines: seq<string>)
    requires lines != [] && forall l | l in lines :: OneLine(l)
    ensures Split(Joined(lines), '\n') == lines
  {
    assert OneLine(lines[0]);
    if |lines| == 1 {
      SplitWhole(lines[0], '\n');
    } else {
      SplitJoined(lines[1..]);
      SplitPart(lines[0], Joined(lines[1..]), '\n');
    }
  }

  lemma {:induction false} TextAppend(a: seq<string>, b: seq<string>)
    requires a != [] && b != []
    ensures Joined(a + b) == Joined(a) + ("\n" + Joined(b))
  {
    if |a| == 1 {
      assert (a + b)[1..] == b;
    } else {
      assert (a + b)[1..] == a[1..] + b;
      TextAppend(a[1..], b);
      assert a[0] + ("\n" + (Joined(a[1..]) + ("\n" + Joined(b)))) == a[0] + ("\n" + Joined(a[1..])) + ("\n" + Joined(b));
    }
  }

  lemma {:induction false} RStripFirst(s: string)
    requires s != "" && !Space(s[0])
    ensures RStrip(s) != "" && RStrip(s)[0] == s[0]
  {
    if Space(s[|s| - 1]) {
      RStripFirst(s[..|s| - 1]);
    }
  }

  lemma LStripSame(s: string)
    requires s == "" || !Space(s[0])
    ensures LStrip(s) == s
  {
  }

  lemma RStripSame(s: string)
    requires s == "" || !Space(s[|s| - 1])
    ensures RStrip(s) == s
  {
  }

  /** A line that starts with another letter is another instruction. */
  lemma OtherInstr(line: string, word: string)
    requires word != ""
    requires line == "" || (!Space(line[0]) && UpperChar(line[0]) != word[0])
    ensures !Instr(line, word)
  {
    if line != "" {
      RStripFirst(line);
      assert Upper(Strip(line))[0] == UpperChar(line[0]);
    }
  }

  // --- Stripped lines --------------------------------------------------------------------

  predicate Blank(s: string) {
    forall i | 0 <= i < |s| :: Space(s[i])
  }

  lemma {:induction false} LStripParts(s: string) returns (pre: string)
    ensures Blank(pre) && s == pre + LStrip(s) && (LStrip(s) != "" ==> !Space(LStrip(s)[0]))
  {
    if s != "" && Space(s[0]) {
      var rest := LStripParts(s[1..]);
      pre := [s[0]] + rest;
    } else {
      pre := "";
    }
  }

  lemma {:induction false} RStripParts(s: string) returns (post: string)
    ensures Blank(post) && s == RStrip(s) + post && (RStrip(s) != "" ==> !Space(RStrip(s)[|RStrip(s)| - 1]))
  {
    if s != "" && Space(s[|s| - 1]) {
      var rest := RStripParts(s[..|s| - 1]);
      post := rest + [s[|s| - 1]];
    } else {
      post := "";
    }
  }

  lemma {:induction false} LStripOf(pre: string, s: string)
    requires Blank(pre) && s != "" && !Space(s[0])
    ensures LStrip(pre + s) == s
  {
    if pre == "" {
      assert pre + s == s;
    } else {
      assert (pre + s)[1..] == pre[1..] + s;
      LStripOf(pre[1..], s);
    }
  }

  lemma {:induction false} RStripOf(s: string, post: string)
    requires Blank(post) && s != "" && !Space(s[|s| - 1])
    ensures RStrip(s + post) == s
  {
    if post == "" {
      assert s + post == s;
    } else {
      assert (s + post)[..|s + post| - 1] == s + post[..|post| - 1];
      RStripOf(s, post[..|post| - 1]);
    }
  }

  lemma StripParts(s: string) returns (pre: string, post: string)
    requires Strip(s) != ""
    ensures Blank(pre) && Blank(post) && s == pre + (Strip(s) + post)
    ensures !Space(Strip(s)[0]) && !Space(Strip(s)[|Strip(s)| - 1])
  {
    pre := LStripParts(s);
    post := RStripParts(LStrip(s));
    assert Strip(s)[0] == LStrip(s)[0];
  }

  lemma StripOf(pre: string, s: string, post: string)
    requires Blank(pre) && Blank(post) && s != "" && !Space(s[0]) && !Space(s[|s| - 1])
    ensures Strip(pre + (s + post)) == s
  {
    LStripOf(pre, s + post);
    RStripOf(s, post);
  }

  lemma {:induction false} RStripKeeps(s: string, p: nat)
    requires p < |s| && !Space(s[p])
    ensures p < |RStrip(s)| && RStrip(s) <= s
  {
    if Space(s[|s| - 1]) {
      RStripKeeps(s[..|s| - 1], p);
    }
  }

  lemma {:induction false} RStripPrefix(s: string)
    ensures RStrip(s) <= s
  {
    if s != "" && Space(s[|s| - 1]) {
      RStripPrefix(s[..|s| - 1]);
    }
  }

  /** A text without its blanks. */
  function Inked(s: string): string {
    if s == "" then "" else (if Space(s[0]) then "" else [s[0]]) + Inked(s[1..])
  }

  lemma {:induction false} InkedAppend(a: string, b: string)
    ensures Inked(a + b) == Inked(a) + Inked(b)
  {
    if a == "" {
      assert a + b == b;
    } else {
      assert (a + b)[1..] == a[1..] + b;
      InkedAppend(a[1..], b);
    }
  }

  lemma {:induction false} InkedBlank(s: string)
    requires Blank(s)
    ensures Inked(s) == ""
  {
    if s != "" {
      InkedBlank(s[1..]);
    }
  }

  lemma InkedUnspaced(s: string)
    ensures Inked(Unspaced(s)) == Inked(s)
  {
    InkedAppend(s[..Span(s)], Unspaced(s));
    InkedBlank(s[..Span(s)]);
    assert s == s[..Span(s)] + Unspaced(s);
  }

  lemma InkedStrip(s: string)
    ensures Inked(Strip(s)) == Inked(s)
  {
    var pre := LStripParts(s);
    var post := RStripParts(LStrip(s));
    InkedAppend(pre, LStrip(s));
    InkedAppend(Strip(s), post);
    InkedBlank(pre);
    InkedBlank(post);
  }

  lemma {:induction false} InkedSome(s: string)
    ensures Inked(s) == "" <==> Blank(s)
  {
    if s != "" {
      InkedSome(s[1..]);
      assert Blank(s) <==> Space(s[0]) && Blank(s[1..]);
    }
  }
}
