/** What a rewritten package list, command and file hold. */
module WolfiTheorem {
  import opened Text
  import opened Lines
  import opened WolfiPackages

  // --- The packages --------------------------------------------------------------------------

  /** A package that is taken out. */
  predicate TakenOut(t: Tables, token: string) {
    token in t.gone || (token !in t.names && token in t.special && t.special[token] == None)
  }

  /** A package that stays, under the name y. */
  predicate StaysAs(t: Tables, token: string, y: string) {
    && token !in t.gone
    && (token in t.names ==> t.names[token] == y)
    && (token !in t.names && token in t.special ==> t.special[token] == Some(y))
    && (token !in t.names && token !in t.special ==> token == y)
  }

  /** The package that brings y in is the first that stays as y. */
  predicate FirstAs(t: Tables, tokens: seq<string>, i: nat, y: string) {
    i < |tokens| && StaysAs(t, tokens[i], y) && forall j | 0 <= j < i :: !StaysAs(t, tokens[j], y)
  }

  /** What the last of n packages does. */
  lemma RewrittenStep(t: Tables, tokens: seq<string>, n: nat) returns (name: Option<string>)
    requires 0 < n <= |tokens|
    ensures name == None <==> TakenOut(t, tokens[n - 1])
    ensures forall y :: StaysAs(t, tokens[n - 1], y) <==> name == Some(y)
    ensures var was, r := Rewritten(t, tokens, n - 1), Rewritten(t, tokens, n);
            if name == None then
              r.packages == was.packages && r.removed == was.removed + 1 && r.renamed == was.renamed
            else
              && r.packages == (if name.value in was.packages then was.packages else was.packages + [name.value])
              && r.removed == was.removed
              && r.renamed == if Listed(t, tokens[n - 1]) then was.renamed + [(tokens[n - 1], name.value)] else was.renamed
  {
    hide Note;
    name := Fate(t, tokens[n - 1]);
  }

  /** One of the first n packages stays as y. */
  predicate Enters(t: Tables, tokens: seq<string>, n: nat, y: string)
    requires n <= |tokens|
  {
    exists i :: 0 <= i < n && StaysAs(t, tokens[i], y)
  }

  lemma EntersStep(t: Tables, tokens: seq<string>, n: nat, y: string)
    requires 0 < n <= |tokens|
    ensures Enters(t, tokens, n, y) <==> Enters(t, tokens, n - 1, y) || StaysAs(t, tokens[n - 1], y)
  {
    hide StaysAs;
  }

  /** The new list holds a name exactly when some package stays as it, and once. */
  lemma {:induction false} RewrittenExactly(t: Tables, tokens: seq<string>, n: nat)
    requires n <= |tokens|
    ensures Distinct(Rewritten(t, tokens, n).packages)
    ensures forall y :: y in Rewritten(t, tokens, n).packages <==> Enters(t, tokens, n, y)
  {
    if n > 0 {
      RewrittenExactly(t, tokens, n - 1);
      var name := RewrittenStep(t, tokens, n);
      hide Rewritten;
      hide StaysAs;
      hide Enters;
      forall y ensures y in Rewritten(t, tokens, n).packages <==> Enters(t, tokens, n, y) {
        EntersStep(t, tokens, n, y);
      }
    }
  }

  lemma {:induction false} RemovedExactly(t: Tables, tokens: seq<string>, n: nat)
    requires n <= |tokens|
    ensures Rewritten(t, tokens, n).removed == |set i | 0 <= i < n && TakenOut(t, tokens[i])|
  {
    var out := set i | 0 <= i < n && TakenOut(t, tokens[i]);
    if n == 0 {
      assert out == {};
    } else {
      RemovedExactly(t, tokens, n - 1);
      var name := RewrittenStep(t, tokens, n);
      hide *;
      var before := set i | 0 <= i < n - 1 && TakenOut(t, tokens[i]);
      assert out == if name == None then before + {n - 1} else before;
    }
  }

  lemma {:induction false} RenamedExactly(t: Tables, tokens: seq<string>, n: nat, x: string, y: string)
    requires n <= |tokens|
    ensures (x, y) in Rewritten(t, tokens, n).renamed <==> x in tokens[..n] && Listed(t, x) && StaysAs(t, x, y)
  {
    if n > 0 {
      RenamedExactly(t, tokens, n - 1, x, y);
      var name := RewrittenStep(t, tokens, n);
      hide *;
      assert tokens[..n] == tokens[..n - 1] + [tokens[n - 1]];
    }
  }

  /** The new names are in the order in which the packages first bring them in. */
  lemma {:induction false} RewrittenInOrder(t: Tables, tokens: seq<string>, n: nat, p: nat, q: nat)
    requires n <= |tokens| && p < q < |Rewritten(t, tokens, n).packages|
    ensures var packages := Rewritten(t, tokens, n).packages;
            exists i, j :: 0 <= i < j < n && FirstAs(t, tokens, i, packages[p]) && FirstAs(t, tokens, j, packages[q])
  {
    var packages := Rewritten(t, tokens, n).packages;
    if n > 0 {
      var was := Rewritten(t, tokens, n - 1).packages;
      var name := RewrittenStep(t, tokens, n);
      if q < |was| {
        RewrittenInOrder(t, tokens, n - 1, p, q);
        hide *;
        assert packages[p] == was[p] && packages[q] == was[q];
      } else {
        RewrittenExactly(t, tokens, n - 1);
        hide Rewritten;
        hide Distinct;
        assert packages[p] == was[p] && packages[q] == name.value && name.value !in was;
        FirstComes(t, tokens, n, was[p], name.value);
      }
    }
  }

  lemma FirstComes(t: Tables, tokens: seq<string>, n: nat, x: string, y: string)
    requires 0 < n <= |tokens| && Enters(t, tokens, n - 1, x) && !Enters(t, tokens, n - 1, y) && StaysAs(t, tokens[n - 1], y)
    ensures exists i, j :: 0 <= i < j < n && FirstAs(t, tokens, i, x) && FirstAs(t, tokens, j, y)
  {
    hide StaysAs;
    FirstBrings(t, tokens, n - 1, x);
    assert FirstAs(t, tokens, n - 1, y);
  }

  lemma {:induction false} FirstBrings(t: Tables, tokens: seq<string>, n: nat, y: string)
    requires n <= |tokens| && Enters(t, tokens, n, y)
    ensures exists i :: 0 <= i < n && FirstAs(t, tokens, i, y)
  {
    if n > 0 {
      hide StaysAs;
      if Enters(t, tokens, n - 1, y) {
        FirstBrings(t, tokens, n - 1, y);
      } else {
        assert FirstAs(t, tokens, n - 1, y);
      }
    }
  }

  // --- The command -----------------------------------------------------------------------------

  /** The words between the front and the end of a command. */
  function WordsWithin(text: string, front: string, end: string): seq<string>
    requires |front| + |end| <= |text|
  {
    Split(text[|front|..|text| - |end|], ' ')
  }

  lemma {:induction false} WordsOfSpaced(names: seq<string>)
    requires names != [] && AllPlain(names)
    ensures Split(Spaced(names), ' ') == names
  {
    hide Has;
    assert Plain(names[0]) && Without(names[0], ' ');
    if |names| == 1 {
      SplitWhole(names[0], ' ');
    } else {
      assert AllPlain(names[1..]);
      WordsOfSpaced(names[1..]);
      SplitPart(names[0], Spaced(names[1..]), ' ');
      assert names == [names[0]] + names[1..];
    }
  }

  lemma {:induction false} OnceInDistinct(names: seq<string>, y: string)
    requires Distinct(names)
    ensures multiset(names)[y] == if y in names then 1 else 0
  {
    if names != [] {
      assert names == [names[0]] + names[1..];
      assert Distinct(names[1..]) && names[0] !in names[1..];
      OnceInDistinct(names[1..], y);
    }
  }

  lemma TakenOrStays(t: Tables, token: string)
    ensures TakenOut(t, token) ==> Listed(t, token)
    ensures TakenOut(t, token) || exists y :: StaysAs(t, token, y)
    ensures TakenOut(t, token) ==> forall y :: !StaysAs(t, token, y)
  {
    if !TakenOut(t, token) {
      assert StaysAs(t, token, Fate(t, token).value);
    }
  }

  /** Nothing is left exactly when every package is taken out. */
  lemma NothingStays(t: Tables, tokens: seq<string>)
    ensures Rewritten(t, tokens, |tokens|).packages == [] <==> forall i | 0 <= i < |tokens| :: TakenOut(t, tokens[i])
  {
    RewrittenExactly(t, tokens, |tokens|);
    hide Rewritten;
    hide Distinct;
    hide TakenOut;
    hide StaysAs;
    var packages := Rewritten(t, tokens, |tokens|).packages;
    if packages != [] {
      assert Enters(t, tokens, |tokens|, packages[0]);
      var i :| 0 <= i < |tokens| && StaysAs(t, tokens[i], packages[0]);
      TakenOrStays(t, tokens[i]);
    }
    forall i | 0 <= i < |tokens| ensures !TakenOut(t, tokens[i]) ==> packages != [] {
      TakenOrStays(t, tokens[i]);
      if !TakenOut(t, tokens[i]) {
        var y :| StaysAs(t, tokens[i], y);
        assert Enters(t, tokens, |tokens|, y);
      }
    }
  }

  /** What a command becomes, by its packages alone. */
  lemma CommandResult(t: Tables, text: string)
    ensures match Body(text)
            case None => Process(t, text).0 == Keep
            case Some(body) =>
              var tokens := Tokens(PackagePart(text));
              && (Process(t, text).0 == Drop <==> forall i | 0 <= i < |tokens| :: TakenOut(t, tokens[i]))
              && (Process(t, text).0 == Keep <==> tokens != [] && forall i | 0 <= i < |tokens| :: !Listed(t, tokens[i]))
  {
    hide Cut;
    hide Tokens;
    hide Rewritten;
    hide Spaced;
    hide TakenOut;
    BodyShort(text);
    hide Body;
    if Body(text).Some? {
      var tokens := Tokens(PackagePart(text));
      NothingStays(t, tokens);
      IdleExactly(t, tokens, |tokens|);
      if tokens != [] {
        TakenOrStays(t, tokens[0]);
      }
      hide Listed;
      hide Idle;
    }
  }

  /**
   A new command keeps its front and what stands behind the packages; between them stands every name
   that some package stays as, once, and nothing else.
   */
  lemma CommandWords(t: Tables, text: string)
    requires Process(t, text).0.Replace? && Closed(t) && PlainNames(t)
    ensures Body(text).Some? && |Body(text).value| <= |text|
    ensures var body, now := Body(text).value, Process(t, text).0.text;
            var tokens, front, end := Tokens(PackagePart(text)), text[..|text| - |body|], body[Cut(body)..];
            && |front| + |end| <= |now| && front <= now && now[|now| - |end|..] == end
            && var words := WordsWithin(now, front, end);
               && (forall y :: multiset(words)[y] == if Enters(t, tokens, |tokens|, y) then 1 else 0)
               && words == Rewritten(t, tokens, |tokens|).packages
  {
    hide Tokens;
    hide Rewritten;
    hide Spaced;
    hide Process;
    hide Closed;
    hide PlainNames;
    hide Body;
    hide Plain;
    hide AllPlain;
    hide Listed;
    hide Enters;
    ReplacedText(t, text);
    PackagesPlain(t, text);
    var body, now := Body(text).value, Process(t, text).0.text;
    var tokens, front, end := Tokens(PackagePart(text)), text[..|text| - |body|], body[Cut(body)..];
    hide Cut;
    hide PackagePart;
    var ps := Rewritten(t, tokens, |tokens|).packages;
    WordsOfSpaced(ps);
    ListedOnce(t, tokens);
    WithinIs(now, front, Spaced(ps), end);
  }

  lemma ListedOnce(t: Tables, tokens: seq<string>)
    ensures forall y :: multiset(Rewritten(t, tokens, |tokens|).packages)[y] == if Enters(t, tokens, |tokens|, y) then 1 else 0
  {
    hide Enters;
    hide Rewritten;
    RewrittenExactly(t, tokens, |tokens|);
    var ps := Rewritten(t, tokens, |tokens|).packages;
    forall y ensures multiset(ps)[y] == if Enters(t, tokens, |tokens|, y) then 1 else 0 {
      OnceInDistinct(ps, y);
    }
  }

  lemma WithinIs(now: string, front: string, list: string, end: string)
    requires now == front + (list + end)
    ensures |front| + |end| <= |now| && front <= now && now[|now| - |end|..] == end
    ensures WordsWithin(now, front, end) == Split(list, ' ')
  {
    assert now[|front|..|now| - |end|] == list;
  }

  /** Which texts are commands: the words in this order, with blanks between them, then a body. */
  lemma BodyFound(indent: string, gap1: string, gap2: string, gap3: string, gap4: string, body: string)
    requires Blank(indent) && Blank(gap1) && Blank(gap2) && Blank(gap3) && Blank(gap4)
    requires gap1 != "" && gap2 != "" && gap3 != "" && gap4 != "" && (body == "" || !Space(body[0]))
    ensures Body(indent + ("RUN" + (gap1 + ("apk" + (gap2 + ("add" + (gap3 + ("--no-cache" + (gap4 + body))))))))) == Some(body)
  {
    hide AfterWord;
    var d := "--no-cache" + (gap4 + body);
    var c := "add" + (gap3 + d);
    var b := "apk" + (gap2 + c);
    var a := "RUN" + (gap1 + b);
    AfterBlanks("--no-cache", gap4, body);
    AfterBlanks("add", gap3, d);
    AfterBlanks("apk", gap2, c);
    AfterBlanks("RUN", gap1, b);
    UnspacedTo(indent, a);
  }

  lemma AfterBlanks(w: string, gap: string, y: string)
    requires Blank(gap) && gap != "" && (y == "" || !Space(y[0]))
    ensures AfterWord(w + (gap + y), w) == Some(y)
  {
    assert (w + (gap + y))[|w|..] == gap + y;
    if y == "" {
      assert gap + y == gap;
      BlankSpan(gap);
    } else {
      UnspacedTo(gap, y);
    }
  }

  lemma {:induction false} BlankSpan(gap: string)
    requires Blank(gap)
    ensures Span(gap) == |gap|
  {
    if gap != "" {
      BlankSpan(gap[1..]);
    }
  }

  // --- The blocks -------------------------------------------------------------------------------

  /** Continued lines without their last backslash, put together; blanks do not count. */
  function InkOf(lines: seq<string>): string
    requires lines != []
  {
    var s := RStrip(lines[0]);
    if |lines| == 1 then Inked(s) else Inked(if Open(s) then s[..|s| - 1] else s) + InkOf(lines[1..])
  }

  /** Joining one more line: it is continued when its own text is, and it brings in its own characters. */
  lemma JoinOne(s: string, x: string)
    ensures var y, all := RStrip(x), s + (" " + LStrip(RStrip(x)));
            && (Open(all) <==> Open(y))
            && Inked(all) == Inked(s) + Inked(y)
            && (Open(y) ==> Inked(all[..|all| - 1]) == Inked(s) + Inked(y[..|y| - 1]))
  {
    var y := RStrip(x);
    var pre := LStripParts(y);
    var z := LStrip(y);
    var post := RStripParts(x);
    hide RStrip;
    hide LStrip;
    var all := s + (" " + z);
    InkedJoined(s, pre, z);
    if z != "" {
      assert all[|all| - 1] == z[|z| - 1] == y[|y| - 1];
      InkedJoined(s, pre, z[..|z| - 1]);
      assert all[..|all| - 1] == s + (" " + z[..|z| - 1]) && y[..|y| - 1] == pre + z[..|z| - 1];
    } else {
      assert all[|all| - 1] == ' ';
      assert y == pre;
    }
  }

  lemma InkedJoined(s: string, pre: string, z: string)
    requires Blank(pre)
    ensures Inked(s + (" " + z)) == Inked(s) + Inked(pre + z)
  {
    InkedAppend(s, " " + z);
    InkedAppend(" ", z);
    InkedAppend(pre, z);
    InkedBlank(" ");
    InkedBlank(pre);
  }

  /** A continued command ends at its first line without a backslash, and loses nothing but blanks and backslashes. */
  lemma {:induction false} GatherExactly(full: string, rest: seq<string>)
    ensures var (text, n) := Gather(full, rest);
            && n <= |rest|
            && (n == 0 <==> !Open(full) || rest == [])
            && (forall j | 0 <= j < n - 1 :: Open(RStrip(rest[j])))
            && (0 < n < |rest| ==> !Open(RStrip(rest[n - 1])))
            && Inked(text) == if n == 0 then Inked(full) else Inked(full[..|full| - 1]) + InkOf(rest[..n])
    decreases |rest|
  {
    hide RStrip;
    hide LStrip;
    hide Inked;
    hide InkOf;
    if Open(full) && rest != [] {
      var s := full[..|full| - 1];
      var next := s + (" " + LStrip(RStrip(rest[0])));
      var (text, n) := Gather(next, rest[1..]);
      GatherExactly(next, rest[1..]);
      JoinOne(s, rest[0]);
      hide Open;
      hide Gather;
      InkFirst(rest, n + 1);
      assert rest[1..][..n] == rest[1..n + 1];
      assert n > 0 ==> forall j | 0 <= j < n - 1 :: rest[1..][j] == rest[j + 1];
    }
  }

  lemma InkFirst(lines: seq<string>, n: nat)
    requires 0 < n <= |lines|
    ensures var s := RStrip(lines[0]);
            InkOf(lines[..n]) == if n == 1 then Inked(s) else Inked(if Open(s) then s[..|s| - 1] else s) + InkOf(lines[1..n])
  {
    hide Inked;
    hide Open;
    hide RStrip;
    assert lines[..n][1..] == lines[1..n];
  }

  /**
   A block of the lines ls, the first of which has the number base: it is a command exactly when its
   first line starts one; a command takes lines in as long as they end in a backslash, any other
   line stands alone.
   */
  predicate BlockHolds(ls: seq<string>, base: nat, b: Block) {
    && base <= b.start <= b.end < base + |ls|
    && var part, rest := ls[b.start - base..b.end - base + 1], ls[b.end - base + 1..];
       && b.apk == ApkStart(part[0])
       && (|part| == 1 ==> b.text == RStrip(part[0]))
       && (forall j | 0 <= j < |part| - 1 :: Open(RStrip(part[j])))
       && (if b.apk then (Open(RStrip(part[|part| - 1])) ==> rest == []) else |part| == 1)
       && Inked(b.text) == InkOf(part)
  }

  lemma FirstIs(ls: seq<string>)
    requires ls != []
    ensures var (text, n) := FirstOf(ls);
            && (!ApkStart(ls[0]) ==> n == 0)
            && (n == 0 ==> text == RStrip(ls[0]))
            && (forall j | 0 <= j < n :: Open(RStrip(ls[j])))
            && (ApkStart(ls[0]) && Open(RStrip(ls[n])) ==> n + 1 == |ls|)
            && Inked(text) == InkOf(ls[..n + 1])
  {
    hide ApkStart;
    hide RStrip;
    hide Inked;
    hide Open;
    var first, rest := RStrip(ls[0]), ls[1..];
    GatherExactly(first, rest);
    GatherNone(first, rest);
    hide Gather;
    var n := FirstOf(ls).1;
    InkFirst(ls, n + 1);
    hide InkOf;
    assert ls[1..n + 1] == rest[..n];
    forall j | 0 <= j < n ensures Open(RStrip(ls[j])) {
      assert j > 0 ==> ls[j] == rest[j - 1];
    }
  }

  lemma GatherNone(full: string, rest: seq<string>)
    ensures Gather(full, rest).1 == 0 ==> Gather(full, rest).0 == full
  {
    hide LStrip;
    hide RStrip;
  }

  lemma FirstHolds(ls: seq<string>, base: nat)
    requires ls != []
    ensures BlockHolds(ls, base, FirstBlockOf(ls, base))
  {
    FirstIs(ls);
    hide ApkStart;
    hide RStrip;
    hide Inked;
    hide InkOf;
    hide Open;
    hide FirstOf;
    var n := FirstOf(ls).1;
    assert ls[0..n + 1] == ls[..n + 1];
  }

  lemma HoldsFurther(ls: seq<string>, base: nat, n: nat, b: Block)
    requires n <= |ls| && BlockHolds(ls[n..], base + n, b)
    ensures BlockHolds(ls, base, b)
  {
    hide ApkStart;
    hide RStrip;
    hide Inked;
    hide InkOf;
    assert ls[n..][b.start - base - n..b.end - base - n + 1] == ls[b.start - base..b.end - base + 1];
    assert ls[n..][b.end - base - n + 1..] == ls[b.end - base + 1..];
  }

  /** Every block is as described; that they cover the lines is `BlocksPartition`. */
  lemma {:induction false} BlocksExactly(ls: seq<string>, base: nat)
    ensures forall b | b in Blocks(ls, base) :: BlockHolds(ls, base, b)
    decreases |ls|
  {
    hide ApkStart;
    hide RStrip;
    hide Gather;
    hide BlockHolds;
    if ls != [] {
      var n := FirstOf(ls).1;
      BlocksStep(ls, base);
      FirstHolds(ls, base);
      BlocksExactly(ls[n + 1..], base + n + 1);
      hide Blocks;
      forall b | b in Blocks(ls[n + 1..], base + n + 1) ensures BlockHolds(ls, base, b) {
        HoldsFurther(ls, base, n + 1, b);
      }
    }
  }

  // --- The file ----------------------------------------------------------------------------------

  /** The lines that a block becomes: a new command of several lines is indented twice, and every note of the file is put below. */
  predicate Becomes(result: Result, part: seq<string>, now: seq<string>, notes: seq<string>)
    requires part != []
  {
    match result
    case Keep => now == part
    case Drop => now == []
    case Replace(text) =>
      && |now| == 1 + |notes|
      && now[0] == (if |part| == 1 then text + "\n" else Indent(part[0]) + (text + "\n"))
      && forall i | 0 <= i < |notes| :: now[i + 1] == Indent(part[0]) + (notes[i] + "\n")
  }

  /** at[k] is the place where the lines of block k begin, and at[k + 1] the place where they end. */
  ghost predicate Placed(t: Tables, bs: seq<Block>, ls: seq<string>, base: nat, now: seq<string>, notes: seq<string>, at: seq<nat>) {
    && |at| == |bs| + 1 && at[0] == 0 && at[|bs|] == |now|
    && forall k | 0 <= k < |bs| :: PlacedOne(t, bs[k], ls, base, now, notes, at[k], at[k + 1])
  }

  ghost predicate PlacedOne(t: Tables, b: Block, ls: seq<string>, base: nat, now: seq<string>, notes: seq<string>, i: nat, j: nat) {
    && i <= j <= |now| && base <= b.start <= b.end < base + |ls|
    && Becomes(ResultOf(t, b), ls[b.start - base..b.end - base + 1], now[i..j], notes)
  }

  lemma OutputBecomes(part: seq<string>, result: Result, notes: seq<string>)
    requires part != []
    ensures Becomes(result, part, Output(part, result, notes), notes)
  {
    hide Indent;
  }

  lemma PlacedFurther(t: Tables, b: Block, ls: seq<string>, base: nat, n: nat, now: seq<string>, m: nat, notes: seq<string>, i: nat, j: nat)
    requires n <= |ls| && m <= |now| && PlacedOne(t, b, ls[n..], base + n, now[m..], notes, i, j)
    ensures PlacedOne(t, b, ls, base, now, notes, m + i, m + j)
  {
    hide ResultOf;
    hide Becomes;
    assert ls[n..][b.start - base - n..b.end - base - n + 1] == ls[b.start - base..b.end - base + 1];
    assert now[m..][i..j] == now[m + i..m + j];
  }

  /** The blocks of the file become their lines, in order and with nothing between them. */
  lemma {:induction false} BlocksPlaced(t: Tables, ls: seq<string>, base: nat, notes: seq<string>) returns (at: seq<nat>)
    ensures Placed(t, Blocks(ls, base), ls, base, OutputFrom(t, ls, notes), notes, at)
    decreases |ls|
  {
    hide ApkStart;
    hide RStrip;
    hide Gather;
    hide Process;
    hide ResultOf;
    hide Output;
    hide Becomes;
    hide FirstOf;
    hide PlacedOne;
    var now := OutputFrom(t, ls, notes);
    if ls == [] {
      at := [0];
    } else {
      var n := FirstOf(ls).1;
      var first, rest := FirstBlockOf(ls, base), Blocks(ls[n + 1..], base + n + 1);
      BlocksStep(ls, base);
      OutputStep(t, ls, notes);
      SameResult(t, ls, base);
      var more := BlocksPlaced(t, ls[n + 1..], base + n + 1, notes);
      var out := Output(ls[..n + 1], ResultOf(t, first), notes);
      OutputBecomes(ls[..n + 1], ResultOf(t, first), notes);
      hide Blocks;
      FirstPlaced(t, ls, base, now, notes, |out|);
      assert now[|out|..] == OutputFrom(t, ls[n + 1..], notes);
      hide OutputFrom;
      at := PlacedAll(t, first, rest, ls, base, n + 1, now, |out|, notes, more);
    }
  }

  lemma PlacedAll(t: Tables, first: Block, rest: seq<Block>, ls: seq<string>, base: nat, n: nat, now: seq<string>, m: nat,
                  notes: seq<string>, more: seq<nat>) returns (at: seq<nat>)
    requires n <= |ls| && m <= |now| && PlacedOne(t, first, ls, base, now, notes, 0, m)
    requires Placed(t, rest, ls[n..], base + n, now[m..], notes, more)
    ensures Placed(t, [first] + rest, ls, base, now, notes, at)
  {
    hide PlacedOne;
    at := [0] + seq(|more|, k requires 0 <= k < |more| => m + more[k]);
    var bs := [first] + rest;
    forall k | 0 <= k < |bs| ensures PlacedOne(t, bs[k], ls, base, now, notes, at[k], at[k + 1]) {
      if k > 0 {
        PlacedFurther(t, bs[k], ls, base, n, now, m, notes, more[k - 1], more[k]);
      }
    }
  }

  lemma FirstPlaced(t: Tables, ls: seq<string>, base: nat, now: seq<string>, notes: seq<string>, m: nat)
    requires ls != [] && m <= |now|
    requires Becomes(ResultOf(t, FirstBlockOf(ls, base)), ls[..FirstOf(ls).1 + 1], now[..m], notes)
    ensures PlacedOne(t, FirstBlockOf(ls, base), ls, base, now, notes, 0, m)
  {
    hide ResultOf;
    hide Becomes;
    hide FirstOf;
    var n := FirstOf(ls).1;
    assert ls[0..n + 1] == ls[..n + 1] && now[0..m] == now[..m];
  }

  lemma {:induction false} ModifiedExactly(t: Tables, bs: seq<Block>, n: nat)
    requires n <= |bs|
    ensures Modified(t, bs, n) <==> exists k :: 0 <= k < n && ResultOf(t, bs[k]) != Keep
  {
    hide ResultOf;
    if n > 0 {
      ModifiedExactly(t, bs, n - 1);
    }
  }

  /** The file is left alone when every command is kept; otherwise its blocks become its lines, at the places given. */
  lemma FileExactly(t: Tables, lines: seq<string>) returns (at: seq<nat>)
    ensures var bs, now := Blocks(lines, 0), NewFile(t, lines);
            if forall k | 0 <= k < |bs| :: ResultOf(t, bs[k]) == Keep then now == lines
            else Placed(t, bs, lines, 0, now, NotesOf(t, bs, |bs|), at)
  {
    hide Blocks;
    hide ResultOf;
    hide OutputFrom;
    hide Placed;
    hide NotesOf;
    var bs := Blocks(lines, 0);
    ModifiedExactly(t, bs, |bs|);
    hide Modified;
    at := BlocksPlaced(t, lines, 0, NotesOf(t, bs, |bs|));
  }

  /** The notes are those of the special packages that are taken out. */
  lemma {:induction false} NotesExactly(t: Tables, tokens: seq<string>, n: nat, note: string)
    requires n <= |tokens|
    ensures note in Rewritten(t, tokens, n).notes <==>
            exists i :: 0 <= i < n && TakenOut(t, tokens[i]) && tokens[i] !in t.gone && Note(tokens[i]) == note
  {
    hide Note;
    if n > 0 {
      NotesExactly(t, tokens, n - 1, note);
      NoteStep(t, tokens, n, note);
      hide Rewritten;
      hide TakenOut;
    }
  }

  lemma NoteStep(t: Tables, tokens: seq<string>, n: nat, note: string)
    requires 0 < n <= |tokens|
    ensures note in Rewritten(t, tokens, n).notes <==>
            note in Rewritten(t, tokens, n - 1).notes || (TakenOut(t, tokens[n - 1]) && tokens[n - 1] !in t.gone && Note(tokens[n - 1]) == note)
  {
    hide Note;
  }

  /** The notes of a file are those of its commands. */
  lemma {:induction false} FileNotes(t: Tables, bs: seq<Block>, n: nat, note: string)
    requires n <= |bs|
    ensures note in NotesOf(t, bs, n) <==> exists k :: 0 <= k < n && bs[k].apk && note in Process(t, bs[k].text).1.notes
  {
    hide Process;
    if n > 0 {
      FileNotes(t, bs, n - 1, note);
    }
  }
}
