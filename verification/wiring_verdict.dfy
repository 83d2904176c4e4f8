/** The checks of verify_shim_wiring.py that the wiring has to pass. */
module WiringVerdict {
  import opened Text
  import opened Lines
  import opened Wiring

  // --- The expressions of the checker ------------------------------------------------------

  function DropQuote(s: string): string {
    if s != "" && s[0] == '"' then s[1..] else s
  }

  /** `ARG\s+SHIM_VERSION\s*=` */
  predicate ArgHere(s: string) {
    match AfterWord(s, "ARG")
    case None => false
    case Some(t) => "SHIM_VERSION" <= t && "=" <= Unspaced(t[12..])
  }

  /** `\s+AS\s+shim` */
  predicate StageHere(s: string) {
    Span(s) > 0 &&
    match AfterWord(Unspaced(s), "AS")
    case None => false
    case Some(t) => "shim" <= t
  }

  /** `FROM\s+ghcr\.io/wyattau/evergreenshim/.*\s+AS\s+shim` */
  predicate FromHere(s: string) {
    match AfterWord(s, "FROM")
    case None => false
    case Some(t) =>
      Registry <= t &&
      exists n | |Registry| <= n <= |t| :: Without(t[|Registry|..n], '\n') && StageHere(t[n..])
  }

  /** `\["?path"?\s*,\s*"word"` */
  function ListHead(s: string, path: string, word: string): Option<string> {
    if s == "" || s[0] != '[' then None else
    match After(DropQuote(s[1..]), path)
    case None => None
    case Some(t) =>
      match After(Unspaced(DropQuote(t)), ",")
      case None => None
      case Some(u) => After(Unspaced(u), word)
  }

  /** `CMD\s+(?:\["?path"?\s*,\s*"healthcheck"|path\s+healthcheck)` */
  predicate CallHere(s: string, path: string) {
    match AfterWord(s, "CMD")
    case None => false
    case Some(t) =>
      ListHead(t, path, "\"healthcheck\"").Some? ||
      match AfterWord(t, path)
      case None => false
      case Some(u) => "healthcheck" <= u
  }

  /** `HEALTHCHECK.*?CMD...`, where the dot takes newlines too. */
  predicate CheckHere(s: string, path: string) {
    "HEALTHCHECK" <= s && exists n | 11 <= n <= |s| :: CallHere(s[n..], path)
  }

  /** `(?:\s*,\s*"-c"\s*,\s*"[^"]+")?\]` */
  predicate ListEnd(s: string) {
    "]" <= s ||
    match After(Unspaced(s), ",")
    case None => false
    case Some(t) =>
      match After(Unspaced(t), "\"-c\"")
      case None => false
      case Some(u) =>
        match After(Unspaced(u), ",")
        case None => false
        case Some(v) =>
          var q := Unspaced(v);
          exists n | 1 < n < |q| - 1 :: q[0] == '"' && Without(q[1..n], '"') && q[n] == '"' && q[n + 1] == ']'
  }

  /** `ENTRYPOINT\s+\["?path"?\s*,\s*"run"(...)?\]` */
  predicate EntryHere(s: string, path: string) {
    match AfterWord(s, "ENTRYPOINT")
    case None => false
    case Some(t) =>
      match ListHead(t, path, "\"run\"")
      case None => false
      case Some(u) => ListEnd(u)
  }

  /** The text before the first closing bracket, if there is one. */
  function Inside(s: string): Option<string> {
    if s == "" then None
    else if s[0] == ']' then Some("")
    else match Inside(s[1..]) case None => None case Some(t) => Some([s[0]] + t)
  }

  /** `ENTRYPOINT\s+\[([^\]]+)\]` at the front of s: the bracketed text. */
  function BracketHere(s: string): Option<string> {
    match AfterWord(s, "ENTRYPOINT")
    case None => None
    case Some(t) =>
      if t == "" || t[0] != '[' then None else
      match Inside(t[1..]) case None => None case Some(x) => if x == "" then None else Some(x)
  }

  function FirstBracket(s: string): Option<string> {
    if s == "" then None else
    match BracketHere(s) case Some(x) => Some(x) case None => FirstBracket(s[1..])
  }

  /** `get_shim_path` */
  function ShimPath(content: string): string {
    match FirstBracket(content)
    case Some(x) => if Has(x, ShimBin) then ShimBin else "/shim"
    case None => "/shim"
  }

  function OtherPath(path: string): string {
    if path == "/shim" then ShimBin else "/shim"
  }

  predicate HasArg(content: string) {
    exists i | 0 <= i <= |content| :: ArgHere(content[i..])
  }

  predicate HasFrom(content: string) {
    exists i | 0 <= i <= |content| :: FromHere(content[i..])
  }

  predicate HasCheck(content: string, path: string) {
    exists i | 0 <= i <= |content| :: CheckHere(content[i..], path)
  }

  predicate HasEntry(content: string, path: string) {
    exists i | 0 <= i <= |content| :: EntryHere(content[i..], path)
  }

  /** The results of the first five checks. */
  datatype Verdict = Verdict(arg: bool, from: bool, copy: bool, check: bool, entry: bool)

  function Check(content: string): Verdict {
    var path := ShimPath(content);
    Verdict(HasArg(content), HasFrom(content), HasWiring(content),
            HasCheck(content, path) || HasCheck(content, OtherPath(path)), HasEntry(content, path))
  }

  // --- Lines in a text --------------------------------------------------------------------------

  lemma LineInside(a: seq<string>, line: string, b: seq<string>) returns (i: nat, rest: string)
    ensures var text := Joined(a + [line] + b);
            i <= |text| && text[i..] == line + rest && rest == if b == [] then "" else "\n" + Joined(b)
  {
    var text := Joined(a + [line] + b);
    assert a + [line] + b == a + ([line] + b);
    rest := if b == [] then "" else "\n" + Joined(b);
    assert Joined([line] + b) == line + rest by {
      assert ([line] + b)[1..] == b;
    }
    if a == [] {
      i := 0;
      assert [] + [line] + b == [line] + b;
    } else {
      TextAppend(a, [line] + b);
      i := |Joined(a)| + 1;
    }
  }

  lemma SpanOne(s: string)
    requires s != "" && !Space(s[0])
    ensures Span(" " + s) == 1 && Unspaced(" " + s) == s && Span(s) == 0 && Unspaced(s) == s
  {
    assert (" " + s)[1..] == s;
  }

  lemma AfterIs(w: string, rest: string)
    ensures After(w + rest, w) == Some(rest)
  {
  }

  lemma AfterWordIs(w: string, rest: string)
    requires rest != "" && !Space(rest[0])
    ensures AfterWord(w + (" " + rest), w) == Some(rest)
  {
    AfterIs(w, " " + rest);
    SpanOne(rest);
  }

  lemma ArgLineHere(version: string, rest: string)
    ensures ArgHere(ArgLine(version) + rest)
  {
    var value := "=" + (version + rest);
    var t := "SHIM_VERSION" + value;
    assert ArgLine(version) + rest == "ARG" + (" " + t);
    assert t[0] == 'S';
    AfterWordIs("ARG", t);
    assert t[12..] == value;
    assert value[0] == '=';
    SpanOne(value);
  }

  lemma StageTailHere(rest: string)
    ensures StageHere(" AS shim" + rest)
  {
    var shim := "shim" + rest;
    assert shim[0] == 's';
    AfterWordIs("AS", shim);
    var stage := "AS" + (" " + shim);
    assert stage[0] == 'A';
    SpanOne(stage);
    assert " AS shim" + rest == " " + stage;
  }

  lemma StageNamePlain()
    ensures Without(StageName, '\n') && Registry[0] == 'g'
  {
  }

  lemma FromTailHere(tail: string)
    requires StageHere(tail)
    ensures FromHere("FROM" + (" " + (Registry + (StageName + tail))))
  {
    hide StageHere;
    StageNamePlain();
    var t := Registry + (StageName + tail);
    AfterWordIs("FROM", t);
    var n := |Registry| + |StageName|;
    assert t[n..] == tail;
    assert t[|Registry|..n] == StageName;
  }

  lemma ShimFromHere(rest: string)
    ensures FromHere(ShimFrom + rest)
  {
    hide FromHere;
    hide StageHere;
    StageTailHere(rest);
    FromTailHere(" AS shim" + rest);
    assert ShimFrom + rest == "FROM" + (" " + (Registry + (StageName + (" AS shim" + rest))));
  }

  lemma CommaIs(word: string, rest: string)
    requires word != "" && word[0] == '"'
    ensures Unspaced(", " + (word + rest)) == ", " + (word + rest)
    ensures After(", " + (word + rest), ",") == Some(" " + (word + rest))
    ensures Unspaced(" " + (word + rest)) == word + rest
    ensures After(word + rest, word) == Some(rest)
  {
    var tail := ", " + (word + rest);
    assert tail[0] == ',' && tail == "," + (" " + (word + rest));
    SpanOne(tail);
    AfterIs(",", " " + (word + rest));
    SpanOne(word + rest);
    AfterIs(word, rest);
  }

  lemma PathIs(path: string, tail: string)
    requires path != "" && path[0] != '"'
    ensures var list := path + ("\"" + tail);
            && DropQuote(("[\"" + list)[1..]) == list
            && After(list, path) == Some("\"" + tail)
            && DropQuote("\"" + tail) == tail
  {
    var list := path + ("\"" + tail);
    assert ("[\"" + list)[1..] == "\"" + list;
    assert DropQuote("\"" + list) == list;
    AfterIs(path, "\"" + tail);
  }

  lemma ListHeadIs(path: string, word: string, rest: string)
    requires path != "" && path[0] != '"'
    requires word != "" && word[0] == '"'
    ensures ListHead("[\"" + (path + ("\", " + (word + rest))), path, word) == Some(rest)
  {
    var tail := ", " + (word + rest);
    CommaIs(word, rest);
    PathIs(path, tail);
    hide After;
    hide Unspaced;
    assert "\", " + (word + rest) == "\"" + tail;
    var s := "[\"" + (path + ("\"" + tail));
    assert s[0] == '[';
  }

  /** The printed list with the path in front. */
  function Quoted(word: string, rest: string): string {
    "[\"" + (ShimBin + ("\", " + (word + rest)))
  }

  lemma QuotedIs(word: string, rest: string)
    requires word != "" && word[0] == '"'
    ensures ListHead(Quoted(word, rest), ShimBin, word) == Some(rest)
    ensures Quoted(word, rest) != "" && Quoted(word, rest)[0] == '['
  {
    hide ListHead;
    ListHeadIs(ShimBin, word, rest);
  }

  lemma CallText(port: string, rest: string)
    ensures (CheckCall(port) + rest)[2..] ==
            "CMD" + (" " + Quoted("\"healthcheck\"", ", \"--tcp\", \"127.0.0.1:" + (port + "\"]") + rest))
  {
    var tail := ", \"--tcp\", \"127.0.0.1:" + (port + "\"]");
    CallRegroup("[\"", ShimBin, "\", ", "\"healthcheck\"", tail, rest);
    var list := "[\"" + (ShimBin + ("\", " + ("\"healthcheck\"" + tail)));
    assert "  CMD " + list + rest == "  " + ("CMD" + (" " + (list + rest)));
  }

  lemma CallRegroup(a: string, b: string, c: string, d: string, e: string, rest: string)
    ensures a + (b + (c + (d + e))) + rest == a + (b + (c + (d + (e + rest))))
  {
  }

  lemma CheckCallHere(port: string, rest: string)
    ensures CallHere((CheckCall(port) + rest)[2..], ShimBin)
  {
    hide ListHead;
    hide Quoted;
    hide AfterWord;
    hide CheckCall;
    var word, tail := "\"healthcheck\"", ", \"--tcp\", \"127.0.0.1:" + (port + "\"]") + rest;
    CallText(port, rest);
    QuotedIs(word, tail);
    AfterWordIs("CMD", Quoted(word, tail));
  }

  lemma HeadStarts()
    ensures "HEALTHCHECK" <= CheckHead && |CheckHead| > 11
  {
    assert CheckHead[..11] == "HEALTHCHECK";
  }

  lemma ChecksHere(port: string, rest: string)
    ensures CheckHere(CheckHead + ("\n" + (CheckCall(port) + rest)), ShimBin)
  {
    hide CallHere;
    hide CheckCall;
    HeadStarts();
    CheckCallHere(port, rest);
    CallLong(port);
    var s := CheckHead + ("\n" + (CheckCall(port) + rest));
    var n := |CheckHead| + 3;
    assert s[..11] == CheckHead[..11];
    assert s[n..] == (CheckCall(port) + rest)[2..];
  }

  lemma CallLong(port: string)
    ensures |CheckCall(port)| >= 2
  {
  }

  lemma EntryText(rest: string)
    ensures ShimEntry + rest == "ENTRYPOINT" + (" " + Quoted("\"run\"", "]" + rest))
  {
    CallRegroup("[\"", ShimBin, "\", ", "\"run\"", "]", rest);
    var list := "[\"" + (ShimBin + ("\", " + ("\"run\"" + "]")));
    assert "ENTRYPOINT " + list + rest == "ENTRYPOINT" + (" " + (list + rest));
  }

  lemma ShimEntryHere(rest: string)
    ensures EntryHere(ShimEntry + rest, ShimBin)
  {
    hide ListHead;
    hide Quoted;
    hide AfterWord;
    EntryText(rest);
    QuotedIs("\"run\"", "]" + rest);
    AfterWordIs("ENTRYPOINT", Quoted("\"run\"", "]" + rest));
    assert "]" <= "]" + rest;
  }

  lemma BracketText(rest: string)
    ensures Quoted("\"run\"", "]" + rest)[1..] == "\"" + (ShimBin + ("\", " + "\"run\"")) + ("]" + rest)
  {
    CallRegroup("\"", ShimBin, "\", ", "\"run\"", "", "]" + rest);
    assert ("\"run\"" + "") == "\"run\"" && "" + ("]" + rest) == "]" + rest;
    var list := ShimBin + ("\", " + ("\"run\"" + ("]" + rest)));
    assert ("[\"" + list)[1..] == "\"" + list;
  }

  lemma ShimBracketHere(rest: string)
    ensures BracketHere(ShimEntry + rest) == Some("\"" + (ShimBin + ("\", " + "\"run\"")))
  {
    hide Inside;
    hide Quoted;
    hide AfterWord;
    hide ListHead;
    EntryText(rest);
    QuotedIs("\"run\"", "]" + rest);
    AfterWordIs("ENTRYPOINT", Quoted("\"run\"", "]" + rest));
    BracketText(rest);
    InnerPlain();
    InsideIs("\"" + (ShimBin + ("\", " + "\"run\"")), rest);
  }

  lemma InnerPlain()
    ensures Without("\"" + (ShimBin + ("\", " + "\"run\"")), ']')
  {
    assert Without(ShimBin, ']');
  }

  lemma {:induction false} InsideIs(inner: string, rest: string)
    requires Without(inner, ']')
    ensures Inside(inner + ("]" + rest)) == Some(inner)
  {
    if inner == "" {
      assert inner + ("]" + rest) == "]" + rest;
    } else {
      InsideIs(inner[1..], rest);
      assert (inner + ("]" + rest))[1..] == inner[1..] + ("]" + rest);
      assert [inner[0]] + inner[1..] == inner;
    }
  }

  // --- No earlier entrypoint text ------------------------------------------------------------------

  /** The word ENTRYPOINT, blanks and a bracket. */
  predicate HotHere(s: string) {
    "ENTRYPOINT" <= s && var t := s[10..]; 0 < Span(t) < |t| && t[Span(t)] == '['
  }

  /** The word ENTRYPOINT and nothing but blanks up to the end. */
  predicate OpenHere(s: string) {
    "ENTRYPOINT" <= s && Span(s[10..]) == |s| - 10
  }

  /** The first character that is no blank is a bracket. */
  predicate Bracketed(s: string) {
    var n := Span(s);
    n < |s| && s[n] == '['
  }

  /**
   A line in which no `ENTRYPOINT [` stands. For one that would need two lines, either no line
   ends in the word (closed), or none begins with the bracket.
   */
  predicate Cold(line: string, closed: bool) {
    && (forall i | 0 <= i <= |line| :: !HotHere(line[i..]) && (closed ==> !OpenHere(line[i..])))
    && (!closed ==> !Bracketed(line))
  }

  /** The blanks of a line, and those behind its end. */
  lemma {:induction false} SpanOver(t: string, rest: string)
    ensures Span(t + ("\n" + rest)) == if Span(t) < |t| then Span(t) else |t| + 1 + Span(rest)
  {
    var s := t + ("\n" + rest);
    if t == "" {
      assert s[1..] == rest;
    } else {
      assert s[1..] == t[1..] + ("\n" + rest);
      SpanOver(t[1..], rest);
    }
  }

  lemma ColdMiss(s: string, rest: string)
    ensures !HotHere(s) && (OpenHere(s) ==> !Bracketed(rest)) ==> BracketHere(s + ("\n" + rest)) == None
  {
    var t := s + ("\n" + rest);
    if "ENTRYPOINT" <= t {
      WordInside(s, rest);
      assert t[10..] == s[10..] + ("\n" + rest);
      SpanOver(s[10..], rest);
    }
  }

  lemma WordInside(s: string, rest: string)
    requires "ENTRYPOINT" <= s + ("\n" + rest)
    ensures "ENTRYPOINT" <= s
  {
    var t := s + ("\n" + rest);
    if |s| < 10 {
      assert "ENTRYPOINT"[|s|] == t[|s|] == '\n';
      LettersOnly(|s|);
    }
    assert t[..10] == s[..10];
  }

  lemma LettersOnly(i: nat)
    requires i < 10
    ensures "ENTRYPOINT"[i] != '\n'
  {
  }

  /** The search for the first bracket runs through cold lines. */
  lemma {:induction false} ColdSkip(line: string, rest: string)
    requires forall i | 0 <= i <= |line| :: !HotHere(line[i..]) && (OpenHere(line[i..]) ==> !Bracketed(rest))
    ensures FirstBracket(line + ("\n" + rest)) == FirstBracket(rest)
    decreases |line|
  {
    hide HotHere;
    hide OpenHere;
    hide Bracketed;
    hide BracketHere;
    assert line[0..] == line;
    ColdMiss(line, rest);
    var s := line + ("\n" + rest);
    if line == "" {
      assert s[1..] == rest;
    } else {
      forall i | 0 <= i <= |line[1..]| ensures line[1..][i..] == line[i + 1..] {
      }
      ColdSkip(line[1..], rest);
      assert s[1..] == line[1..] + ("\n" + rest);
    }
  }

  predicate AllCold(ls: seq<string>, closed: bool) {
    forall i | 0 <= i < |ls| :: Cold(ls[i], closed)
  }

  lemma {:induction false} ColdSkipAll(ls: seq<string>, more: seq<string>, closed: bool)
    requires AllCold(ls, closed) && more != [] && (!closed ==> !Bracketed(Joined(more)))
    ensures FirstBracket(Joined(ls + more)) == FirstBracket(Joined(more))
    ensures !closed ==> !Bracketed(Joined(ls + more))
  {
    hide HotHere;
    hide OpenHere;
    hide FirstBracket;
    if ls == [] {
      assert ls + more == more;
    } else {
      assert (ls + more)[1..] == ls[1..] + more;
      ColdSkipAll(ls[1..], more, closed);
      var rest := Joined(ls[1..] + more);
      assert Cold(ls[0], closed);
      ColdSkip(ls[0], rest);
      if !closed {
        SpanOver(ls[0], rest);
      }
    }
  }

  lemma AllColdAppend(a: seq<string>, b: seq<string>, closed: bool)
    requires AllCold(a, closed) && AllCold(b, closed)
    ensures AllCold(a + b, closed)
  {
    hide Cold;
  }

  /** Without one of its letters the word cannot occur. */
  lemma ColdWithout(line: string, c: char, closed: bool)
    requires (c == 'Y' || c == 'T' || c == 'N' || c == 'P') && Without(line, c) && !Bracketed(line)
    ensures Cold(line, closed)
  {
    var k := if c == 'Y' then 4 else if c == 'T' then 2 else if c == 'N' then 1 else 5;
    assert "ENTRYPOINT"[k] == c;
    forall i | 0 <= i <= |line| ensures !HotHere(line[i..]) && !OpenHere(line[i..]) {
      LetterInside(line, i, k);
    }
  }

  lemma LetterInside(line: string, i: nat, k: nat)
    requires i <= |line| && k < 10
    ensures HotHere(line[i..]) || OpenHere(line[i..]) ==> i + k < |line| && line[i + k] == "ENTRYPOINT"[k]
  {
    if "ENTRYPOINT" <= line[i..] {
      assert line[i..][k] == "ENTRYPOINT"[k];
    }
  }
}
