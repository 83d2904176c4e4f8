/** fix_wolfi_packages_v2.py: removing and renaming packages in `apk add` commands. */
module WolfiPackages {
  import opened Text
  import opened Lines

  // --- Packages ---------------------------------------------------------------------------

  /** The three categories: to remove, to rename, and special ones that are renamed or removed with a note. */
  datatype Tables = Tables(gone: set<string>, names: map<string, string>, special: map<string, Option<string>>)

  predicate Listed(t: Tables, token: string) {
    token in t.gone || token in t.names || token in t.special
  }

  /** What a package becomes. */
  function Fate(t: Tables, token: string): Option<string> {
    if token in t.gone then None
    else if token in t.names then Some(t.names[token])
    else if token in t.special then t.special[token]
    else Some(token)
  }

  function Note(token: string): string {
    "# NOTE: " + (token + (" server not available in wolfi; " + "uses pre-compiled binary"))
  }

  /** `re.split(r"\s+", pkg_part)` without the empty words and the comments. */
  function Tokens(s: string): seq<string>
    decreases |s|
  {
    if s == "" then []
    else if Space(s[0]) then Tokens(s[1..])
    else
      var n := WordEnd(s);
      (if s[0] == '#' then [] else [s[..n]]) + Tokens(s[n..])
  }

  /** The new package list, how many were removed, what was renamed, and the notes. */
  datatype Rewriting = Rewriting(packages: seq<string>, removed: nat, renamed: seq<(string, string)>, notes: seq<string>)

  function Rewritten(t: Tables, tokens: seq<string>, n: nat): Rewriting
    requires n <= |tokens|
  {
    if n == 0 then Rewriting([], 0, [], []) else
    var r, token := Rewritten(t, tokens, n - 1), tokens[n - 1];
    match Fate(t, token)
    case None =>
      r.(removed := r.removed + 1, notes := if token in t.gone then r.notes else r.notes + [Note(token)])
    case Some(name) =>
      r.(packages := if name in r.packages then r.packages else r.packages + [name],
         renamed := if Listed(t, token) then r.renamed + [(token, name)] else r.renamed)
  }

  /** Nothing was removed, renamed or noted. */
  predicate Idle(r: Rewriting) {
    r.removed == 0 && r.renamed == [] && r.notes == []
  }

  method RewriteTokens(t: Tables, tokens: seq<string>) returns (r: Rewriting)
    ensures r == Rewritten(t, tokens, |tokens|)
  {
    hide Note;
    var newTokens: seq<string> := [];
    var removed, renamed, notes := 0, [], [];
    var seen: set<string> := {};
    for i := 0 to |tokens|
      invariant Rewriting(newTokens, removed, renamed, notes) == Rewritten(t, tokens, i)
      invariant forall x :: x in seen <==> x in newTokens
    {
      var token := tokens[i];
      if token in t.gone {
        removed := removed + 1;
        continue;
      }
      var name := token;
      if token in t.names {
        name := t.names[token];
        renamed := renamed + [(token, name)];
      } else if token in t.special {
        if t.special[token] == None {
          notes := notes + [Note(token)];
          removed := removed + 1;
          continue;
        }
        name := t.special[token].value;
        renamed := renamed + [(token, name)];
      }
      if name !in seen {
        newTokens := newTokens + [name];
        seen := seen + {name};
      }
    }
    r := Rewriting(newTokens, removed, renamed, notes);
  }

  /** No new name is itself removed or renamed. */
  predicate Closed(t: Tables) {
    && (forall k | k in t.names :: !Listed(t, t.names[k]))
    && (forall k | k in t.special && t.special[k].Some? :: !Listed(t, t.special[k].value))
  }

  predicate Distinct(s: seq<string>) {
    forall i, j | 0 <= i < j < |s| :: s[i] != s[j]
  }

  /** A rewritten list has no duplicates and nothing to remove or rename. */
  lemma {:induction false} RewrittenIsClean(t: Tables, tokens: seq<string>, n: nat)
    requires Closed(t) && n <= |tokens|
    ensures var r := Rewritten(t, tokens, n);
            Distinct(r.packages) && forall x | x in r.packages :: !Listed(t, x)
    ensures forall x | x in Rewritten(t, tokens, n).packages :: exists i :: 0 <= i < n && Fate(t, tokens[i]) == Some(x)
  {
    hide Note;
    if n > 0 {
      RewrittenIsClean(t, tokens, n - 1);
      var before, after := Rewritten(t, tokens, n - 1).packages, Rewritten(t, tokens, n).packages;
      forall x | x in after ensures exists i :: 0 <= i < n && Fate(t, tokens[i]) == Some(x) {
        if x !in before {
          assert Fate(t, tokens[n - 1]) == Some(x);
        }
      }
    }
  }

  /** A list without duplicates and without listed packages is left as it is. */
  lemma {:induction false} CleanStays(t: Tables, tokens: seq<string>, n: nat)
    requires n <= |tokens| && Distinct(tokens) && forall i | 0 <= i < |tokens| :: !Listed(t, tokens[i])
    ensures Rewritten(t, tokens, n) == Rewriting(tokens[..n], 0, [], [])
  {
    hide Note;
    if n > 0 {
      CleanStays(t, tokens, n - 1);
      assert tokens[..n] == tokens[..n - 1] + [tokens[n - 1]];
      assert tokens[n - 1] !in tokens[..n - 1];
    }
  }

  // --- One command -------------------------------------------------------------------------

  /** What stands behind `^\s*RUN\s+apk\s+add\s+--no-cache\s+`. */
  function Body(text: string): Option<string> {
    match AfterWord(Unspaced(text), "RUN")
    case None => None
    case Some(a) =>
      match AfterWord(a, "apk")
      case None => None
      case Some(b) =>
        match AfterWord(b, "add")
        case None => None
        case Some(c) => AfterWord(c, "--no-cache")
  }

  /** `(\s*(?:\|\|.*)?|\s*#.*)?$` */
  predicate IsSuffix(s: string) {
    var u := Unspaced(s);
    u == "" || "||" <= u || u[0] == '#'
  }

  /** Where the packages end: `(.*?)` stops as early as it can. */
  function Cut(body: string): (n: nat)
    ensures n <= |body| && IsSuffix(body[n..])
    ensures forall i | 0 <= i < n :: !IsSuffix(body[i..])
  {
    if IsSuffix(body) then assert body[0..] == body; 0
    else
      var n := Cut(body[1..]);
      CutStep(body, n);
      1 + n
  }

  lemma CutStep(body: string, n: nat)
    requires body != "" && !IsSuffix(body) && n <= |body[1..]| && IsSuffix(body[1..][n..])
    requires forall i | 0 <= i < n :: !IsSuffix(body[1..][i..])
    ensures IsSuffix(body[n + 1..]) && forall i | 0 <= i < n + 1 :: !IsSuffix(body[i..])
  {
    hide IsSuffix;
    assert body[1..][n..] == body[n + 1..];
    forall i | 0 <= i < n + 1 ensures !IsSuffix(body[i..]) {
      if i == 0 {
        assert body[0..] == body;
      } else {
        assert body[1..][i - 1..] == body[i..];
      }
    }
  }

  function Spaced(names: seq<string>): string {
    if names == [] then "" else if |names| == 1 then names[0] else names[0] + (" " + Spaced(names[1..]))
  }

  /** What becomes of a command: it is kept, its lines are dropped, or it has a new text. */
  datatype Result = Keep | Drop | Replace(text: string)

  /** `process_apk_add_line`, and what its caller makes of the answer. */
  function Process(t: Tables, text: string): (Result, Rewriting) {
    match Body(text)
    case None => (Keep, Rewriting([], 0, [], []))
    case Some(body) =>
      BodyShort(text);
      var prefix := text[..|text| - |body|];
      var tokens := Tokens(body[..Cut(body)]);
      var r := Rewritten(t, tokens, |tokens|);
      if r.packages == [] then (Drop, r)
      else if Idle(r) then (Keep, r)
      else (Replace(prefix + (Spaced(r.packages) + body[Cut(body)..])), r)
  }

  lemma AfterWordShort(s: string, w: string)
    ensures AfterWord(s, w).Some? ==> |AfterWord(s, w).value| < |s| && AfterWord(s, w).value == s[|s| - |AfterWord(s, w).value|..]
  {
  }

  lemma BodyShort(text: string)
    ensures Body(text).Some? ==> |Body(text).value| <= |text| && Body(text).value == text[|text| - |Body(text).value|..]
  {
    hide AfterWord;
    var u := Unspaced(text);
    AfterWordShort(u, "RUN");
    if AfterWord(u, "RUN").Some? {
      var a := AfterWord(u, "RUN").value;
      AfterWordShort(a, "apk");
      if AfterWord(a, "apk").Some? {
        var b := AfterWord(a, "apk").value;
        AfterWordShort(b, "add");
        if AfterWord(b, "add").Some? {
          AfterWordShort(AfterWord(b, "add").value, "--no-cache");
        }
      }
    }
  }

  // --- Blocks of a file ----------------------------------------------------------------------

  predicate WordChar(c: char) {
    Digit(c) || Capital(c) || Small(c) || c == '_'
  }

  /** `\brun\b` in any case; inner says whether a word character stands before. */
  predicate SaysRun(s: string, inner: bool) {
    s != "" &&
    ((!inner && |s| >= 3 && Upper(s[..3]) == "RUN" && (|s| == 3 || !WordChar(s[3]))) || SaysRun(s[1..], WordChar(s[0])))
  }

  predicate ApkStart(line: string) {
    var s := RStrip(line);
    SaysRun(s, false) && Has(s, "apk add")
  }

  predicate Open(full: string) {
    full != "" && full[|full| - 1] == '\\'
  }

  /** Joining continued lines: the text, and how many lines were joined. */
  function Gather(full: string, rest: seq<string>): (r: (string, nat))
    ensures r.1 <= |rest|
    decreases |rest|
  {
    if Open(full) && rest != [] then
      var (text, n) := Gather(full[..|full| - 1] + (" " + LStrip(RStrip(rest[0]))), rest[1..]);
      (text, n + 1)
    else (full, 0)
  }

  datatype Block = Block(start: nat, end: nat, apk: bool, text: string)

  /** `parse_apk_add_blocks`, base being the number of the first line; end is the number of the last line. */
  function Blocks(ls: seq<string>, base: nat): seq<Block>
    decreases |ls|
  {
    if ls == [] then []
    else if ApkStart(ls[0]) then
      var (text, n) := Gather(RStrip(ls[0]), ls[1..]);
      [Block(base, base + n, true, text)] + Blocks(ls[n + 1..], base + n + 1)
    else [Block(base, base, false, RStrip(ls[0]))] + Blocks(ls[1..], base + 1)
  }

  method ParseApkAddBlocks(lines: seq<string>) returns (blocks: seq<Block>)
    ensures blocks == Blocks(lines, 0)
  {
    hide ApkStart;
    hide RStrip;
    hide LStrip;
    hide Gather;
    hide Blocks;
    blocks := [];
    var i := 0;
    assert lines[0..] == lines;
    while i < |lines|
      invariant i <= |lines|
      invariant blocks + Blocks(lines[i..], i) == Blocks(lines, 0)
    {
      var stripped := RStrip(lines[i]);
      FirstBlock(lines, i);
      if ApkStart(lines[i]) {
        var start := i;
        var full := stripped;
        while Open(full) && i + 1 < |lines|
          invariant start <= i < |lines|
          invariant Gather(stripped, lines[start + 1..]) == Later(Gather(full, lines[i + 1..]), i - start)
        {
          GatherStep(full, lines, i + 1);
          i := i + 1;
          full := full[..|full| - 1] + (" " + LStrip(RStrip(lines[i])));
        }
        GatherEnd(full, lines, i + 1);
        BlockAdded(blocks, Block(start, i, true, full), Blocks(lines[i + 1..], i + 1));
        blocks := blocks + [Block(start, i, true, full)];
      } else {
        BlockAdded(blocks, Block(i, i, false, stripped), Blocks(lines[i + 1..], i + 1));
        blocks := blocks + [Block(i, i, false, stripped)];
      }
      i := i + 1;
    }
    NoBlocks(lines);
  }

  lemma BlockAdded(blocks: seq<Block>, b: Block, rest: seq<Block>)
    ensures blocks + [b] + rest == blocks + ([b] + rest)
  {
  }

  function Later(g: (string, nat), k: nat): (string, nat) {
    (g.0, g.1 + k)
  }

  lemma NoBlocks(lines: seq<string>)
    ensures Blocks(lines[|lines|..], |lines|) == []
  {
  }

  /** The number of lines below the first one that belong to its block, and the text. */
  function FirstOf(ls: seq<string>): (r: (string, nat))
    requires ls != []
    ensures r.1 < |ls|
  {
    if ApkStart(ls[0]) then Gather(RStrip(ls[0]), ls[1..]) else (RStrip(ls[0]), 0)
  }

  lemma BlocksStep(ls: seq<string>, base: nat)
    requires ls != []
    ensures var (text, n) := FirstOf(ls);
            Blocks(ls, base) == [Block(base, base + n, ApkStart(ls[0]), text)] + Blocks(ls[n + 1..], base + n + 1)
  {
    hide ApkStart;
    hide RStrip;
    hide Gather;
  }

  lemma FirstBlock(lines: seq<string>, i: nat)
    requires i < |lines|
    ensures var (text, n) := if ApkStart(lines[i]) then Gather(RStrip(lines[i]), lines[i + 1..]) else (RStrip(lines[i]), 0);
            i + n < |lines| &&
            Blocks(lines[i..], i) == [Block(i, i + n, ApkStart(lines[i]), text)] + Blocks(lines[i + n + 1..], i + n + 1)
  {
    hide ApkStart;
    hide RStrip;
    hide Gather;
    hide Blocks;
    assert lines[i..][1..] == lines[i + 1..];
    BlocksStep(lines[i..], i);
    var n := FirstOf(lines[i..]).1;
    assert lines[i..][n + 1..] == lines[i + n + 1..];
  }

  lemma GatherStep(full: string, lines: seq<string>, i: nat)
    requires i < |lines| && Open(full)
    ensures Gather(full, lines[i..]) ==
            Later(Gather(full[..|full| - 1] + (" " + LStrip(RStrip(lines[i]))), lines[i + 1..]), 1)
  {
    assert lines[i..][1..] == lines[i + 1..];
  }

  lemma GatherEnd(full: string, lines: seq<string>, i: nat)
    requires i <= |lines| && !(Open(full) && i < |lines|)
    ensures Gather(full, lines[i..]) == (full, 0)
  {
  }

  /** Ranges that follow each other without a gap, from base up to end. */
  predicate Cover(bs: seq<Block>, base: nat, end: nat) {
    if bs == [] then base == end
    else bs[0].start == base && bs[0].start <= bs[0].end && Cover(bs[1..], bs[0].end + 1, end)
  }

  lemma NoneCover(ls: seq<string>, base: nat)
    requires ls == []
    ensures Cover(Blocks(ls, base), base, base)
  {
  }

  lemma CoverFirst(b: Block, rest: seq<Block>, end: nat)
    requires b.start <= b.end && Cover(rest, b.end + 1, end)
    ensures Cover([b] + rest, b.start, end)
  {
    assert ([b] + rest)[1..] == rest;
  }

  /** The blocks cover the lines one after the other, with no gap and no overlap. */
  lemma {:induction false} BlocksPartition(ls: seq<string>, base: nat)
    ensures Cover(Blocks(ls, base), base, base + |ls|)
    decreases |ls|
  {
    hide ApkStart;
    hide FirstOf;
    hide Blocks;
    hide Cover;
    if ls == [] {
      NoneCover(ls, base);
    } else {
      var (text, n) := FirstOf(ls);
      BlocksStep(ls, base);
      BlocksPartition(ls[n + 1..], base + n + 1);
      CoverFirst(Block(base, base + n, ApkStart(ls[0]), text), Blocks(ls[n + 1..], base + n + 1), base + |ls|);
    }
  }

  // --- The new file ---------------------------------------------------------------------------

  function ResultOf(t: Tables, b: Block): Result {
    if b.apk then Process(t, b.text).0 else Keep
  }

  /** The notes of the first n blocks. */
  function NotesOf(t: Tables, bs: seq<Block>, n: nat): seq<string>
    requires n <= |bs|
  {
    if n == 0 then [] else
    NotesOf(t, bs, n - 1) + if bs[n - 1].apk then Process(t, bs[n - 1].text).1.notes else []
  }

  predicate Modified(t: Tables, bs: seq<Block>, n: nat)
    requires n <= |bs|
  {
    n > 0 && (Modified(t, bs, n - 1) || ResultOf(t, bs[n - 1]) != Keep)
  }

  function Indent(line: string): string {
    line[..Span(line)]
  }

  function NoteLines(indent: string, notes: seq<string>): (r: seq<string>)
    ensures |r| == |notes| && forall i | 0 <= i < |notes| :: r[i] == indent + (notes[i] + "\n")
  {
    seq(|notes|, i requires 0 <= i < |notes| => indent + (notes[i] + "\n"))
  }

  /** What a block of lines becomes: a command of several lines is indented once more. */
  function Output(lines: seq<string>, result: Result, notes: seq<string>): seq<string>
    requires lines != []
  {
    match result
    case Keep => lines
    case Drop => []
    case Replace(text) =>
      [(if |lines| == 1 then "" else Indent(lines[0])) + (text + "\n")] + NoteLines(Indent(lines[0]), notes)
  }

  /** The file block by block, from its first line on. */
  function OutputFrom(t: Tables, ls: seq<string>, notes: seq<string>): seq<string>
    decreases |ls|
  {
    if ls == [] then [] else
    var (text, n) := FirstOf(ls);
    Output(ls[..n + 1], ResultOf(t, Block(0, n, ApkStart(ls[0]), text)), notes) + OutputFrom(t, ls[n + 1..], notes)
  }

  /** `process_dockerfile`: the new lines; the file is written only when something was modified. */
  function NewFile(t: Tables, lines: seq<string>): seq<string> {
    var bs := Blocks(lines, 0);
    if Modified(t, bs, |bs|) then OutputFrom(t, lines, NotesOf(t, bs, |bs|)) else lines
  }

  /** The dictionary of replacements: by the first line of a block, its last line and the result. */
  function Replacements(t: Tables, bs: seq<Block>, n: nat): map<nat, (nat, Result)>
    requires n <= |bs|
  {
    if n == 0 then map[] else
    var m := Replacements(t, bs, n - 1);
    var b := bs[n - 1];
    if ResultOf(t, b) != Keep then m[b.start := (b.end, ResultOf(t, b))] else m
  }

  method CollectReplacements(t: Tables, blocks: seq<Block>)
    returns (replaced: map<nat, (nat, Result)>, notes: seq<string>, modified: bool)
    ensures replaced == Replacements(t, blocks, |blocks|)
    ensures notes == NotesOf(t, blocks, |blocks|) && modified == Modified(t, blocks, |blocks|)
  {
    hide Process;
    replaced, notes, modified := map[], [], false;
    for k := 0 to |blocks|
      invariant replaced == Replacements(t, blocks, k)
      invariant notes == NotesOf(t, blocks, k) && modified == Modified(t, blocks, k)
    {
      if !blocks[k].apk {
        continue;
      }
      var (result, rewriting) := Process(t, blocks[k].text);
      notes := notes + rewriting.notes;
      if result != Keep {
        replaced := replaced[blocks[k].start := (blocks[k].end, result)];
        modified := true;
      }
    }
  }

  /** Later blocks start below earlier ones. */
  predicate Apart(bs: seq<Block>) {
    && (forall k | 0 <= k < |bs| :: bs[k].start <= bs[k].end)
    && forall j, k | 0 <= j < k < |bs| :: bs[j].end < bs[k].start
  }

  lemma {:induction false} CoverApart(bs: seq<Block>, base: nat, end: nat)
    requires Cover(bs, base, end)
    ensures Apart(bs) && forall k | 0 <= k < |bs| :: base <= bs[k].start
  {
    if bs != [] {
      CoverApart(bs[1..], bs[0].end + 1, end);
      assert forall k | 1 <= k < |bs| :: bs[k] == bs[1..][k - 1];
    }
  }

  lemma {:induction false} ReplacementAt(t: Tables, bs: seq<Block>, n: nat, i: nat)
    requires n <= |bs| && Apart(bs)
    ensures i in Replacements(t, bs, n) <==> exists k :: 0 <= k < n && bs[k].start == i && ResultOf(t, bs[k]) != Keep
    ensures forall k | 0 <= k < n && bs[k].start == i && ResultOf(t, bs[k]) != Keep ::
              Replacements(t, bs, n)[i] == (bs[k].end, ResultOf(t, bs[k]))
  {
    hide ResultOf;
    if n > 0 {
      ReplacementAt(t, bs, n - 1, i);
    }
  }

  /** A kept line of a block is in no replacement, the first line of a block in its own only. */
  lemma AtBlock(t: Tables, bs: seq<Block>, k: nat, i: nat)
    requires k < |bs| && Apart(bs) && bs[k].start <= i <= bs[k].end
    ensures i in Replacements(t, bs, |bs|) <==> i == bs[k].start && ResultOf(t, bs[k]) != Keep
    ensures i in Replacements(t, bs, |bs|) ==> Replacements(t, bs, |bs|)[i] == (bs[k].end, ResultOf(t, bs[k]))
  {
    hide ResultOf;
    hide Replacements;
    ReplacementAt(t, bs, |bs|, i);
  }

  method ProcessFile(t: Tables, lines: seq<string>) returns (newLines: seq<string>)
    ensures newLines == NewFile(t, lines)
  {
    hide Process;
    hide Blocks;
    hide OutputFrom;
    hide Output;
    hide ResultOf;
    hide Apart;
    hide Replacements;
    hide ApkStart;
    hide FirstOf;
    hide Cover;
    hide NotesOf;
    hide Modified;
    var blocks := ParseApkAddBlocks(lines);
    var replaced, notes, modified := CollectReplacements(t, blocks);
    if !modified {
      return lines;
    }
    newLines := [];
    var i := 0;
    ghost var k: nat := 0;
    ghost var left: nat := 0;
    BlocksPartition(lines, 0);
    CoverApart(blocks, 0, |lines|);
    assert lines[0..] == lines && blocks[0..] == blocks;
    ghost var whole := OutputFrom(t, lines, notes);
    assert NewFile(t, lines) == whole;
    hide NewFile;
    ReplaceOne([], [], lines, 0, whole);
    while i < |lines|
      invariant i + left <= |lines| && k <= |blocks|
      invariant blocks[k..] == Blocks(lines[i + left..], i + left)
      invariant left > 0 ==> k > 0 && blocks[k - 1].start < i && i + left == blocks[k - 1].end + 1
      invariant newLines + (lines[i..i + left] + OutputFrom(t, lines[i + left..], notes)) == whole
    {
      left, k := Advance(t, lines, blocks, i, left, k, notes, newLines, whole);
      ghost var rest := OutputFrom(t, lines[i + left..], notes);
      if i in replaced {
        var (end, result) := replaced[i];
        ReplaceOne(newLines, Output(lines[i..end + 1], result, notes), lines, end + 1, rest);
        newLines := newLines + Output(lines[i..end + 1], result, notes);
        i := end + 1;
        left := 0;
      } else {
        CopyOne(newLines, lines, i, left, rest);
        newLines := newLines + [lines[i]];
        i := i + 1;
        left := left - 1;
      }
    }
    NothingLeft(t, lines, notes);
  }

  /** At the start of a block: its lines are owed, or what replaces them. */
  lemma Advance(t: Tables, lines: seq<string>, bs: seq<Block>, i: nat, left: nat, k: nat, notes: seq<string>,
                before: seq<string>, whole: seq<string>) returns (left': nat, k': nat)
    requires Apart(bs) && i < |lines| && i + left <= |lines| && k <= |bs| && bs[k..] == Blocks(lines[i + left..], i + left)
    requires left > 0 ==> k > 0 && bs[k - 1].start < i && i + left == bs[k - 1].end + 1
    requires before + (lines[i..i + left] + OutputFrom(t, lines[i + left..], notes)) == whole
    ensures left' > 0 && i + left' <= |lines| && 0 < k' <= |bs| && bs[k'..] == Blocks(lines[i + left'..], i + left')
    ensures bs[k' - 1].start <= i && i + left' == bs[k' - 1].end + 1
    ensures var m, rest := Replacements(t, bs, |bs|), OutputFrom(t, lines[i + left'..], notes);
            if i in m then
              i + left' == m[i].0 + 1 && before + (Output(lines[i..m[i].0 + 1], m[i].1, notes) + rest) == whole
            else before + (lines[i..i + left'] + rest) == whole
  {
    hide *;
    left', k' := left, k;
    if left == 0 {
      NextBlock(t, lines, i, bs, k, notes);
      AtBlock(t, bs, k, i);
      left' := bs[k].end + 1 - i;
      k' := k + 1;
      assert lines[i..i] == [];
      NoneOwed(OutputFrom(t, lines[i..], notes));
    } else {
      AtBlock(t, bs, k - 1, i);
    }
  }

  lemma NoneOwed(rest: seq<string>)
    ensures [] + rest == rest
  {
  }

  lemma NothingLeft(t: Tables, lines: seq<string>, notes: seq<string>)
    ensures OutputFrom(t, lines[|lines|..], notes) == []
  {
  }

  lemma ReplaceOne(before: seq<string>, owed: seq<string>, lines: seq<string>, i: nat, rest: seq<string>)
    requires i <= |lines|
    ensures before + (owed + rest) == before + owed + (lines[i..i] + rest)
  {
  }

  lemma CopyOne(before: seq<string>, lines: seq<string>, i: nat, left: nat, rest: seq<string>)
    requires left > 0 && i + left <= |lines|
    ensures before + (lines[i..i + left] + rest) == before + [lines[i]] + (lines[i + 1..i + left] + rest)
  {
    assert lines[i..i + left] == [lines[i]] + lines[i + 1..i + left];
  }

  /** The next block of the list is the one that starts here. */
  lemma NextBlock(t: Tables, lines: seq<string>, i: nat, bs: seq<Block>, k: nat, notes: seq<string>)
    requires i < |lines| && k <= |bs| && bs[k..] == Blocks(lines[i..], i)
    ensures k < |bs| && bs[k].start == i <= bs[k].end < |lines|
    ensures var e := bs[k].end;
            && bs[k + 1..] == Blocks(lines[e + 1..], e + 1)
            && OutputFrom(t, lines[i..], notes) ==
               Output(lines[i..e + 1], ResultOf(t, bs[k]), notes) + OutputFrom(t, lines[e + 1..], notes)
            && (ResultOf(t, bs[k]) == Keep ==> Output(lines[i..e + 1], ResultOf(t, bs[k]), notes) == lines[i..e + 1])
  {
    hide ResultOf;
    hide ApkStart;
    hide FirstOf;
    hide Blocks;
    hide OutputFrom;
    BlocksStep(lines[i..], i);
    var (text, n) := FirstOf(lines[i..]);
    SlicesOf(lines, i, n);
    var first := Block(i, i + n, ApkStart(lines[i]), text);
    HeadAndTail(bs, k, first, Blocks(lines[i + n + 1..], i + n + 1));
    OutputStepAt(t, lines, i, notes);
  }

  lemma SlicesOf(lines: seq<string>, i: nat, n: nat)
    requires i + n < |lines|
    ensures lines[i..][n + 1..] == lines[i + n + 1..] && lines[i..][..n + 1] == lines[i..i + n + 1]
  {
  }

  lemma HeadAndTail(bs: seq<Block>, k: nat, first: Block, rest: seq<Block>)
    requires k <= |bs| && bs[k..] == [first] + rest
    ensures k < |bs| && bs[k] == first && bs[k + 1..] == rest
  {
    assert bs[k] == bs[k..][0] && bs[k + 1..] == bs[k..][1..];
    assert ([first] + rest)[1..] == rest;
  }

  lemma OutputStepAt(t: Tables, lines: seq<string>, i: nat, notes: seq<string>)
    requires i < |lines|
    ensures var (text, n) := FirstOf(lines[i..]);
            i + n < |lines| &&
            OutputFrom(t, lines[i..], notes) ==
            Output(lines[i..i + n + 1], ResultOf(t, Block(i, i + n, ApkStart(lines[i]), text)), notes) +
            OutputFrom(t, lines[i + n + 1..], notes)
  {
    hide Process;
    hide ApkStart;
    hide FirstOf;
    hide Output;
    var n := FirstOf(lines[i..]).1;
    SlicesOf(lines, i, n);
  }

  // --- A second pass ------------------------------------------------------------------------

  /** A name that can stand in a package list. */
  predicate Plain(name: string) {
    name != "" && !Has(name, "||") && forall i | 0 <= i < |name| :: !Space(name[i]) && name[i] != '#'
  }

  predicate PlainNames(t: Tables) {
    && (forall k | k in t.names :: Plain(t.names[k]))
    && (forall k | k in t.special && t.special[k].Some? :: Plain(t.special[k].value))
  }

  predicate AllPlain(names: seq<string>) {
    forall i | 0 <= i < |names| :: Plain(names[i])
  }

  predicate PlainText(s: string) {
    Without(s, '#') && !Has(s, "||")
  }

  lemma PlainSlice(s: string, i: nat, j: nat)
    requires PlainText(s) && i <= j <= |s|
    ensures PlainText(s[i..j])
  {
    hide Has;
    assert s == s[..i] + (s[i..j] + s[j..]);
    if Has(s[i..j], "||") {
      HasPart(s[..i], s[i..j], s[j..], "||");
    }
  }

  lemma {:induction false} TokensPlain(s: string)
    requires PlainText(s)
    ensures forall x | x in Tokens(s) :: Plain(x)
    decreases |s|
  {
    hide Has;
    if s != "" {
      var n := if Space(s[0]) then 1 else WordEnd(s);
      PlainSlice(s, n, |s|);
      assert s[n..|s|] == s[n..];
      TokensPlain(s[n..]);
      PlainSlice(s, 0, n);
    }
  }

  lemma {:induction false} SpacedEnds(names: seq<string>)
    requires AllPlain(names) && names != []
    ensures var s := Spaced(names);
            s != "" && PlainText(s) && !Space(s[0]) && !Space(s[|s| - 1]) && s[|s| - 1] == LastChar(names[|names| - 1])
  {
    hide Has;
    assert Plain(names[0]);
    if |names| > 1 {
      assert AllPlain(names[1..]);
      SpacedEnds(names[1..]);
      var rest := Spaced(names[1..]);
      HasSplit(names[0], ' ', rest, "||");
      var s := names[0] + (" " + rest);
      assert s[|s| - 1] == rest[|rest| - 1];
    }
  }

  function LastChar(s: string): char
    requires s != ""
  {
    s[|s| - 1]
  }

  lemma {:induction false} WordEndOf(w: string, rest: string)
    requires (forall i | 0 <= i < |w| :: !Space(w[i])) && (rest == "" || Space(rest[0]))
    ensures WordEnd(w + rest) == |w|
  {
    if w == "" {
      assert w + rest == rest;
    } else {
      assert (w + rest)[1..] == w[1..] + rest;
      WordEndOf(w[1..], rest);
    }
  }

  lemma {:induction false} SpacedTokens(names: seq<string>)
    requires AllPlain(names)
    ensures Tokens(Spaced(names)) == names
  {
    if names != [] {
      var w := names[0];
      assert Plain(w);
      if |names| == 1 {
        WordEndOf(w, "");
        assert w + "" == w && w[|w|..] == "" && names == [w] + [];
      } else {
        assert AllPlain(names[1..]);
        SpacedTokens(names[1..]);
        var rest := " " + Spaced(names[1..]);
        WordEndOf(w, rest);
        assert (w + rest)[|w|..] == rest && rest[1..] == Spaced(names[1..]);
        assert names == [w] + names[1..];
      }
    }
  }

  /** The packages end where the new list does, unless a bar at its end meets the bars behind it. */
  lemma {:induction false} CutOf(list: string, suffix: string)
    requires PlainText(list) && IsSuffix(suffix)
    requires list != "" ==> !Space(list[|list| - 1]) && !(list[|list| - 1] == '|' && "|" <= suffix)
    ensures Cut(list + suffix) == |list|
  {
    hide IsSuffix;
    hide PlainText;
    if list == "" {
      assert list + suffix == suffix;
    } else {
      var all := list + suffix;
      assert all[1..] == list[1..] + suffix;
      NotYet(list, suffix);
      PlainSlice(list, 1, |list|);
      assert list[1..|list|] == list[1..];
      CutOf(list[1..], suffix);
    }
  }

  lemma NotYet(list: string, suffix: string)
    requires list != "" && PlainText(list) && !Space(list[|list| - 1]) && !(list[|list| - 1] == '|' && "|" <= suffix)
    ensures !IsSuffix(list + suffix)
  {
    var all := list + suffix;
    var n := Span(all);
    assert !Space(all[|list| - 1]);
    assert n < |list|;
    var u := Unspaced(all);
    assert u[0] == all[n] == list[n];
    if "||" <= u {
      assert u[1] == all[n + 1] == '|';
      if n + 1 < |list| {
        assert list[n..][..2] == "||";
        HasAt(list, "||", n);
      }
    }
  }

  /** What stands behind a word may be exchanged. */
  lemma AfterWordOther(s: string, w: string, y: string)
    requires AfterWord(s, w).Some? && y != "" && !Space(y[0])
    ensures var t := AfterWord(s, w).value; AfterWord(s[..|s| - |t|] + y, w) == Some(y)
  {
    var t := AfterWord(s, w).value;
    var n := |s| - |t|;
    WordParts(s, w);
    var gap := s[|w|..n];
    UnspacedTo(gap, y);
    OtherParts(s[..n], w, y);
    hide Span;
  }

  /** A word, blanks, and what stands behind them. */
  lemma WordParts(s: string, w: string)
    requires AfterWord(s, w).Some?
    ensures var n := |s| - |AfterWord(s, w).value|; |w| < n <= |s| && w <= s[..n] && Blank(s[|w|..n])
  {
    var after := s[|w|..];
    assert s[|w|..|w| + Span(after)] == after[..Span(after)];
  }

  lemma OtherParts(front: string, w: string, y: string)
    requires w <= front
    ensures (front + y)[|w|..] == front[|w|..] + y && w <= front + y
  {
    assert (front + y)[..|w|] == front[..|w|];
  }

  lemma {:induction false} UnspacedTo(gap: string, y: string)
    requires Blank(gap) && y != "" && !Space(y[0])
    ensures Span(gap + y) == |gap| && Unspaced(gap + y) == y
  {
    if gap == "" {
      assert gap + y == y;
    } else {
      assert (gap + y)[1..] == gap[1..] + y;
      UnspacedTo(gap[1..], y);
    }
  }

  lemma AfterCut(s: string, w: string, t: string)
    requires AfterWord(s, w) == Some(t)
    ensures |t| <= |s| && t == s[|s| - |t|..]
  {
    AfterWordShort(s, w);
  }

  /** Another text behind the word: it is found, and the line still starts with the word. */
  lemma OneWord(s: string, w: string, t: string, y: string)
    requires AfterWord(s, w) == Some(t) && w != "" && !Space(w[0]) && y != "" && !Space(y[0])
    ensures |t| <= |s|
    ensures AfterWord(s[..|s| - |t|] + y, w) == Some(y)
    ensures s[..|s| - |t|] + y != "" && !Space((s[..|s| - |t|] + y)[0])
  {
    AfterCut(s, w, t);
    AfterWordOther(s, w, y);
    assert s[0] == w[0] && |t| < |s|;
  }

  /** The front of a command, then another body, below more indentation. */
  lemma BodyOther(indent: string, text: string, y: string)
    requires Blank(indent) && Body(text).Some? && y != "" && !Space(y[0])
    ensures |Body(text).value| <= |text|
    ensures Body(indent + (text[..|text| - |Body(text).value|] + y)) == Some(y)
  {
    hide AfterWord;
    hide Unspaced;
    BodyShort(text);
    UnspacedCut(text);
    var u := Unspaced(text);
    var a := AfterWord(u, "RUN").value;
    var b := AfterWord(a, "apk").value;
    var c := AfterWord(b, "add").value;
    var d := AfterWord(c, "--no-cache").value;
    OneWord(c, "--no-cache", d, y);
    var y1 := c[..|c| - |d|] + y;
    OneWord(b, "add", c, y1);
    var y2 := b[..|b| - |c|] + y1;
    OneWord(a, "apk", b, y2);
    var y3 := a[..|a| - |b|] + y2;
    OneWord(u, "RUN", a, y3);
    var y4 := u[..|u| - |a|] + y3;
    AfterCut(u, "RUN", a);
    AfterCut(a, "apk", b);
    AfterCut(b, "add", c);
    AfterCut(c, "--no-cache", d);
    PartsOfText(text, u, a, b, c, d, y);
    hide Span;
    var front := text[..|text| - |u|];
    assert Blank(indent + front);
    UnspacedTo(indent + front, y4);
    PartsJoin(indent, front, y4);
  }

  lemma PartsJoin(a: string, b: string, c: string)
    ensures a + b + c == a + (b + c)
  {
  }

  lemma UnspacedCut(text: string)
    ensures var u := Unspaced(text); |u| <= |text| && u == text[|text| - |u|..] && Blank(text[..|text| - |u|])
  {
  }

  lemma CutFurther(s: string, t: string, y: string)
    requires |t| <= |s| && t == s[|s| - |t|..] && |y| <= |t|
    ensures s[..|s| - |y|] == s[..|s| - |t|] + t[..|t| - |y|]
  {
  }

  lemma PartsOfText(text: string, u: string, a: string, b: string, c: string, d: string, y: string)
    requires |d| <= |c| <= |b| <= |a| <= |u| <= |text|
    requires u == text[|text| - |u|..] && a == u[|u| - |a|..] && b == a[|a| - |b|..] && c == b[|b| - |c|..]
    ensures text[..|text| - |d|] + y ==
            text[..|text| - |u|] + (u[..|u| - |a|] + (a[..|a| - |b|] + (b[..|b| - |c|] + (c[..|c| - |d|] + y))))
  {
    CutFurther(b, c, d);
    CutFurther(a, b, d);
    CutFurther(u, a, d);
    CutFurther(text, u, d);
    PartsJoin(b[..|b| - |c|], c[..|c| - |d|], y);
    PartsJoin(a[..|a| - |b|], b[..|b| - |d|], y);
    PartsJoin(u[..|u| - |a|], a[..|a| - |d|], y);
    PartsJoin(text[..|text| - |u|], u[..|u| - |d|], y);
  }

  lemma {:induction false} RStripBehind(x: string, y: string)
    requires x != "" && !Space(x[|x| - 1])
    ensures RStrip(x + y) == x + RStrip(y)
    decreases |y|
  {
    if y == "" {
      assert x + y == x;
    } else if Space(y[|y| - 1]) {
      assert (x + y)[..|x + y| - 1] == x + y[..|y| - 1];
      RStripBehind(x, y[..|y| - 1]);
    }
  }

  lemma RStripNewline(y: string)
    ensures RStrip(y + "\n") == RStrip(y)
  {
    assert (y + "\n")[..|y|] == y;
  }

  lemma BarsStripped(suffix: string)
    ensures "||" <= RStrip(suffix) <==> "||" <= suffix
  {
    RStripPrefix(suffix);
    if "||" <= suffix {
      assert suffix[1] == '|';
      RStripKeeps(suffix, 1);
      assert RStrip(suffix)[..2] == suffix[..2];
    }
    if "||" <= RStrip(suffix) {
      assert suffix[..2] == RStrip(suffix)[..2];
    }
  }

  /** Stripping on the right does not reach the first character behind the blanks, nor the next bar. */
  lemma StrippedFront(gap: string, u: string)
    requires u != "" && !Space(u[0])
    ensures RStrip(gap + u) == gap + RStrip(u) && RStrip(u) != "" && RStrip(u)[0] == u[0]
    ensures "||" <= u ==> "||" <= RStrip(u)
  {
    RStripKeeps(u, 0);
    StrippedBehind(gap, u);
    BarsStripped(u);
  }

  lemma StrippedBehind(gap: string, u: string)
    requires u != "" && !Space(u[0])
    ensures RStrip(gap + u) == gap + RStrip(u)
  {
    hide RStrip;
    hide Space;
    var first, more := u[..1], u[1..];
    assert u == first + more && (gap + first)[|gap|] == u[0];
    RStripBehind(gap + first, more);
    RStripBehind(first, more);
    assert gap + u == gap + first + more;
    assert gap + first + RStrip(more) == gap + (first + RStrip(more));
  }

  lemma SuffixStripped(suffix: string)
    requires IsSuffix(suffix)
    ensures IsSuffix(RStrip(suffix))
  {
    var gap, u := suffix[..Span(suffix)], Unspaced(suffix);
    assert suffix == gap + u && Blank(gap);
    if u == "" {
      AllBlank(suffix);
    } else {
      StrippedFront(gap, u);
      UnspacedTo(gap, RStrip(u));
    }
  }

  lemma {:induction false} AllBlank(s: string)
    requires Blank(s)
    ensures RStrip(s) == ""
  {
    if s != "" {
      AllBlank(s[..|s| - 1]);
    }
  }

  /** The packages of a command, as they stand. */
  function PackagePart(text: string): string
    requires Body(text).Some?
  {
    Body(text).value[..Cut(Body(text).value)]
  }

  /** Every package of a list is plain. */
  lemma PackagesPlain(t: Tables, text: string)
    requires Body(text).Some? && Closed(t) && PlainNames(t)
    ensures var tokens := Tokens(PackagePart(text));
            var ps := Rewritten(t, tokens, |tokens|).packages;
            AllPlain(ps) && Distinct(ps) && forall i | 0 <= i < |ps| :: !Listed(t, ps[i])
  {
    var body := Body(text).value;
    NoComment(body);
    NoBars(body);
    hide Has;
    TokensPlain(PackagePart(text));
    var tokens := Tokens(PackagePart(text));
    RewrittenIsClean(t, tokens, |tokens|);
    hide Plain;
    hide Rewritten;
    var ps := Rewritten(t, tokens, |tokens|).packages;
    forall i | 0 <= i < |ps| ensures Plain(ps[i]) && !Listed(t, ps[i]) {
      assert ps[i] in ps;
      var k :| 0 <= k < |tokens| && Fate(t, tokens[k]) == Some(ps[i]);
      assert tokens[k] in tokens;
    }
  }

  lemma BarsAreSuffix(s: string)
    ensures "||" <= s ==> IsSuffix(s)
  {
    if "||" <= s {
      assert s[0] == '|' && Unspaced(s) == s;
    }
  }

  /** Two bars end the packages, so none stand among them. */
  lemma NoBars(body: string)
    ensures !Has(body[..Cut(body)], "||")
  {
    hide IsSuffix;
    var n := Cut(body);
    hide Cut;
    if Has(body[..n], "||") {
      var i := HasWhere(body[..n], "||");
      assert body[i..][..2] == body[..n][i..][..2] == "||";
      BarsAreSuffix(body[i..]);
    }
  }

  lemma HashIsSuffix(s: string)
    ensures s != "" && s[0] == '#' ==> IsSuffix(s)
  {
    if s != "" && s[0] == '#' {
      assert Unspaced(s) == s;
    }
  }

  lemma NoComment(body: string)
    ensures Without(body[..Cut(body)], '#')
  {
    hide IsSuffix;
    var n := Cut(body);
    hide Cut;
    forall i | 0 <= i < n ensures body[..n][i] != '#' {
      HashIsSuffix(body[i..]);
      assert body[i..][0] == body[i];
    }
  }

  /** The parts of a rewritten command. */
  lemma ReplacedText(t: Tables, text: string)
    requires Process(t, text).0.Replace?
    ensures Body(text).Some? && |Body(text).value| <= |text|
    ensures var body := Body(text).value;
            var tokens := Tokens(PackagePart(text));
            var ps := Rewritten(t, tokens, |tokens|).packages;
            ps != [] &&
            Process(t, text).0.text == text[..|text| - |body|] + (Spaced(ps) + body[Cut(body)..])
  {
    hide Tokens;
    hide Cut;
    hide Rewritten;
    hide Spaced;
    BodyShort(text);
    hide Body;
  }

  /** The bar at the end of the last package meets the bars behind the list. */
  predicate Glued(ps: seq<string>, suffix: string) {
    ps != [] && ps[|ps| - 1] != "" && LastChar(ps[|ps| - 1]) == '|' && "||" <= suffix
  }

  /** The packages without the bar at the end of the last one. */
  function Unbarred(ps: seq<string>): seq<string>
    requires ps != [] && ps[|ps| - 1] != ""
  {
    var last := ps[|ps| - 1];
    if last == "|" then ps[..|ps| - 1] else ps[..|ps| - 1] + [last[..|last| - 1]]
  }

  /** A rewritten command is stable unless its last bar is glued to the suffix and what it leaves is empty or listed. */
  predicate Stable(t: Tables, text: string)
    requires Body(text).Some?
  {
    var body, tokens := Body(text).value, Tokens(PackagePart(text));
    var ps := Rewritten(t, tokens, |tokens|).packages;
    Glued(ps, body[Cut(body)..]) ==> Unbarred(ps) != [] && forall x | x in Unbarred(ps) :: !Listed(t, x)
  }

  /** Nothing is removed, renamed or noted exactly when no package is listed. */
  lemma {:induction false} IdleExactly(t: Tables, tokens: seq<string>, n: nat)
    requires n <= |tokens|
    ensures Idle(Rewritten(t, tokens, n)) <==> forall i | 0 <= i < n :: !Listed(t, tokens[i])
    ensures Idle(Rewritten(t, tokens, n)) && n > 0 ==> Rewritten(t, tokens, n).packages != []
  {
    hide Note;
    if n > 0 {
      IdleExactly(t, tokens, n - 1);
    }
  }

  /**
   A rewritten command is left as it is, and so is the same command further to the right, exactly
   when it is stable.
   */
  lemma KeptAgain(t: Tables, text: string, indent: string)
    requires Process(t, text).0.Replace? && Closed(t) && PlainNames(t) && Blank(indent)
    ensures Body(text).Some?
    ensures var line := indent + (Process(t, text).0.text + "\n");
            Process(t, RStrip(line)).0 == Keep <==> Stable(t, text)
  {
    hide Tokens;
    hide Rewritten;
    hide Spaced;
    hide Process;
    hide Closed;
    hide PlainNames;
    hide Body;
    hide IsSuffix;
    hide Listed;
    hide Plain;
    hide PlainText;
    hide Unbarred;
    ReplacedText(t, text);
    var body := Body(text).value;
    var prefix, suffix := text[..|text| - |body|], body[Cut(body)..];
    var tokens := Tokens(PackagePart(text));
    var ps := Rewritten(t, tokens, |tokens|).packages;
    PackagesPlain(t, text);
    SpacedEnds(ps);
    SuffixStripped(suffix);
    hide Cut;
    var y := Spaced(ps) + RStrip(suffix);
    LineStripped(indent, prefix, Spaced(ps), suffix);
    assert y[0] == Spaced(ps)[0];
    BodyOther(indent, text, y);
    BarsStripped(suffix);
    Settled(t, indent + (prefix + y), ps, RStrip(suffix));
  }

  lemma LineStripped(indent: string, prefix: string, list: string, suffix: string)
    requires list != "" && !Space(list[|list| - 1])
    ensures RStrip(indent + ((prefix + (list + suffix)) + "\n")) == indent + (prefix + (list + RStrip(suffix)))
  {
    var x := indent + (prefix + list);
    assert x[|x| - 1] == list[|list| - 1];
    assert indent + ((prefix + (list + suffix)) + "\n") == x + (suffix + "\n");
    RStripBehind(x, suffix + "\n");
    RStripNewline(suffix);
    assert x + RStrip(suffix) == indent + (prefix + (list + RStrip(suffix)));
  }

  lemma Settled(t: Tables, text: string, ps: seq<string>, suffix: string)
    requires ps != [] && AllPlain(ps) && IsSuffix(suffix)
    requires forall i | 0 <= i < |ps| :: !Listed(t, ps[i])
    requires Body(text) == Some(Spaced(ps) + suffix)
    ensures Process(t, text).0 == Keep <==>
            (Glued(ps, suffix) ==> Unbarred(ps) != [] && forall x | x in Unbarred(ps) :: !Listed(t, x))
  {
    hide Body;
    hide IsSuffix;
    hide Listed;
    hide Process;
    if Glued(ps, suffix) {
      var suffix' := UnbarredText(ps, suffix);
      KeptWhen(t, text, Unbarred(ps), suffix');
    } else {
      OneBar(suffix);
      KeptWhen(t, text, ps, suffix);
    }
  }

  lemma OneBar(suffix: string)
    requires IsSuffix(suffix)
    ensures "|" <= suffix ==> "||" <= suffix
  {
    if "|" <= suffix {
      assert Unspaced(suffix) == suffix;
    }
  }

  /** A command whose packages are known is kept exactly when there are some and none is listed. */
  lemma KeptWhen(t: Tables, text: string, ps: seq<string>, suffix: string)
    requires AllPlain(ps) && IsSuffix(suffix) && Body(text) == Some(Spaced(ps) + suffix)
    requires ps != [] ==> !(LastChar(ps[|ps| - 1]) == '|' && "|" <= suffix)
    ensures Process(t, text).0 == Keep <==> ps != [] && forall x | x in ps :: !Listed(t, x)
  {
    hide Body;
    hide IsSuffix;
    hide Listed;
    hide Process;
    hide Plain;
    hide Has;
    hide Rewritten;
    hide PlainText;
    PackagesFound(ps, suffix);
    IdleExactly(t, ps, |ps|);
    ProcessOf(t, text, ps);
    NoneRewritten(t);
  }

  lemma NoneRewritten(t: Tables)
    ensures Rewritten(t, [], 0).packages == []
  {
  }

  /** The packages are found again in front of a suffix that no bar meets. */
  lemma PackagesFound(ps: seq<string>, suffix: string)
    requires AllPlain(ps) && IsSuffix(suffix)
    requires ps != [] ==> !(LastChar(ps[|ps| - 1]) == '|' && "|" <= suffix)
    ensures var body := Spaced(ps) + suffix; Tokens(body[..Cut(body)]) == ps
  {
    hide IsSuffix;
    hide Plain;
    hide Has;
    if ps != [] {
      SpacedEnds(ps);
    }
    PlainNothing();
    CutOf(Spaced(ps), suffix);
    SpacedTokens(ps);
    hide Spaced;
    hide Tokens;
    hide Cut;
    assert (Spaced(ps) + suffix)[..|Spaced(ps)|] == Spaced(ps);
  }

  lemma PlainNothing()
    ensures PlainText("")
  {
  }

  lemma ProcessOf(t: Tables, text: string, ps: seq<string>)
    requires Body(text).Some? && Tokens(PackagePart(text)) == ps
    ensures var r := Rewritten(t, ps, |ps|);
            Process(t, text).0 == Keep <==> r.packages != [] && Idle(r)
  {
    hide Body;
    hide Cut;
    hide Tokens;
    hide Rewritten;
    hide Spaced;
    BodyShort(text);
  }

  lemma {:induction false} SpacedSnoc(names: seq<string>, x: string)
    ensures Spaced(names + [x]) == if names == [] then x else Spaced(names) + (" " + x)
  {
    if names == [] {
      assert names + [x] == [x];
    } else {
      assert (names + [x])[1..] == names[1..] + [x];
      SpacedSnoc(names[1..], x);
    }
  }

  /** The glued text, read with its first two bars at the begin of the suffix. */
  lemma UnbarredText(ps: seq<string>, suffix: string) returns (suffix': string)
    requires AllPlain(ps) && Glued(ps, suffix)
    ensures AllPlain(Unbarred(ps)) && IsSuffix(suffix') && Spaced(Unbarred(ps)) + suffix' == Spaced(ps) + suffix
    ensures Unbarred(ps) != [] ==> !(LastChar(Unbarred(ps)[|Unbarred(ps)| - 1]) == '|' && "|" <= suffix')
  {
    hide Plain;
    hide Spaced;
    hide IsSuffix;
    var k := |ps| - 1;
    var before, last := ps[..k], ps[k];
    assert ps == before + [last];
    assert Plain(last);
    BarsFront(suffix);
    if last == "|" {
      suffix' := (if before == [] then "|" else " |") + suffix;
      LoneBar(before, suffix);
    } else {
      suffix' := "|" + suffix;
      LastBar(before, last, suffix);
    }
  }

  lemma LoneBar(before: seq<string>, suffix: string)
    ensures Spaced(before) + ((if before == [] then "|" else " |") + suffix) == Spaced(before + ["|"]) + suffix
    ensures before != [] ==> !("|" <= (if before == [] then "|" else " |") + suffix)
  {
    SpacedSnoc(before, "|");
    SpacedNone(before);
    hide *;
    assert " " + "|" == " |";
    assert (" |" + suffix)[0] == ' ';
    PartsJoin(Spaced(before), " |", suffix);
  }

  lemma LastBar(before: seq<string>, last: string, suffix: string)
    requires Plain(last) && last != "|" && LastChar(last) == '|'
    ensures var front := last[..|last| - 1];
            Plain(front) && LastChar(front) != '|' && Spaced(before + [front]) + ("|" + suffix) == Spaced(before + [last]) + suffix
  {
    var front := last[..|last| - 1];
    assert last == front + "|";
    BarFront(last);
    hide Plain;
    SpacedSnoc(before, last);
    SpacedSnoc(before, front);
    hide Spaced;
    if before == [] {
      BarMoves("", front, suffix);
    } else {
      BarMoves(Spaced(before) + " ", front, suffix);
      PartsJoin(Spaced(before), " ", front);
      PartsJoin(Spaced(before), " ", last);
    }
  }

  lemma BarMoves(a: string, front: string, suffix: string)
    ensures a + front + ("|" + suffix) == a + (front + "|") + suffix
  {
  }

  lemma SpacedNone(names: seq<string>)
    ensures names == [] ==> Spaced(names) == ""
  {
  }

  lemma BarsFront(suffix: string)
    requires "||" <= suffix
    ensures IsSuffix("|" + suffix) && IsSuffix(" |" + suffix)
  {
    var s := "|" + suffix;
    assert s[0] == '|' && s[1] == suffix[0] == '|';
    BarsAreSuffix(s);
    UnspacedTo(" ", s);
    assert " |" + suffix == " " + s;
    assert Unspaced(s) == s;
  }

  lemma BarFront(last: string)
    requires Plain(last) && LastChar(last) == '|'
    ensures var front := last[..|last| - 1]; front != "" ==> Plain(front) && LastChar(front) != '|'
  {
    var n := |last| - 1;
    var front := last[..n];
    if front != "" {
      PlainSlice(last, 0, n);
      assert last[0..n] == front;
      if LastChar(front) == '|' {
        assert last[n - 1..][..2] == "||";
        HasAt(last, "||", n - 1);
      }
    }
  }

  // --- The whole file again --------------------------------------------------------------------

  /** No block of the file would be changed. */
  predicate Quiet(t: Tables, ls: seq<string>)
    decreases |ls|
  {
    ls == [] ||
    (var (text, n) := FirstOf(ls);
     ResultOf(t, Block(0, n, ApkStart(ls[0]), text)) == Keep && Quiet(t, ls[n + 1..]))
  }

  lemma {:induction false} QuietUnmodified(t: Tables, ls: seq<string>, base: nat)
    requires Quiet(t, ls)
    ensures forall b | b in Blocks(ls, base) :: ResultOf(t, b) == Keep
    decreases |ls|
  {
    hide ApkStart;
    hide FirstOf;
    hide Process;
    if ls != [] {
      hide Blocks;
      BlocksStep(ls, base);
      QuietUnmodified(t, ls[FirstOf(ls).1 + 1..], base + FirstOf(ls).1 + 1);
    }
  }

  lemma {:induction false} KeepUnmodified(t: Tables, bs: seq<Block>, n: nat)
    requires n <= |bs| && forall b | b in bs :: ResultOf(t, b) == Keep
    ensures !Modified(t, bs, n)
  {
    hide ResultOf;
    if n > 0 {
      KeepUnmodified(t, bs, n - 1);
      assert bs[n - 1] in bs;
    }
  }

  lemma QuietLine(t: Tables, line: string, rest: seq<string>)
    requires !ApkStart(line) && Quiet(t, rest)
    ensures Quiet(t, [line] + rest)
  {
    hide ApkStart;
    hide RStrip;
    assert ([line] + rest)[1..] == rest;
  }

  lemma {:induction false} QuietLines(t: Tables, a: seq<string>, rest: seq<string>)
    requires (forall i | 0 <= i < |a| :: !ApkStart(a[i])) && Quiet(t, rest)
    ensures Quiet(t, a + rest)
  {
    hide ApkStart;
    hide Quiet;
    if a == [] {
      assert a + rest == rest;
    } else {
      QuietLines(t, a[1..], rest);
      QuietLine(t, a[0], a[1..] + rest);
      assert a + rest == [a[0]] + (a[1..] + rest);
    }
  }

  lemma {:induction false} GatherFront(full: string, a: seq<string>, b: seq<string>, c: seq<string>)
    requires Gather(full, a + b).1 == |a| && (Open(Gather(full, a + b).0) ==> c == [])
    ensures Gather(full, a + c) == Gather(full, a + b)
    decreases |a|
  {
    if a == [] {
      assert a + b == b && a + c == c;
    } else {
      assert (a + b)[1..] == a[1..] + b && (a + c)[1..] == a[1..] + c;
      GatherFront(full[..|full| - 1] + (" " + LStrip(RStrip(a[0]))), a[1..], b, c);
    }
  }

  /** Where the joining stops, the text is not open, or there is nothing left. */
  lemma {:induction false} GatherStops(full: string, rest: seq<string>)
    ensures var g := Gather(full, rest); Open(g.0) ==> g.1 == |rest|
    decreases |rest|
  {
    if Open(full) && rest != [] {
      GatherStops(full[..|full| - 1] + (" " + LStrip(RStrip(rest[0]))), rest[1..]);
    }
  }

  /** A block that is kept is the same block before other lines. */
  lemma QuietBlock(t: Tables, ls: seq<string>, rest: seq<string>)
    requires ls != [] && Quiet(t, rest)
    requires var (text, n) := FirstOf(ls);
             && ResultOf(t, Block(0, n, ApkStart(ls[0]), text)) == Keep
             && (ls[n + 1..] == [] ==> rest == [])
    ensures Quiet(t, ls[..FirstOf(ls).1 + 1] + rest)
  {
    hide Process;
    hide RStrip;
    hide Gather;
    var n := FirstOf(ls).1;
    var after := ls[..n + 1] + rest;
    assert after[0] == ls[0];
    assert after[n + 1..] == rest;
    if ApkStart(ls[0]) {
      hide ApkStart;
      GatherStops(RStrip(ls[0]), ls[1..]);
      assert ls[1..] == ls[1..n + 1] + ls[n + 1..] && after[1..] == ls[1..n + 1] + rest;
      GatherFront(RStrip(ls[0]), ls[1..n + 1], ls[n + 1..], rest);
    }
  }

  /** What a second pass asks of a block that is rewritten. */
  predicate Tame(t: Tables, b: Block) {
    b.apk && Process(t, b.text).0.Replace? ==>
      Body(b.text).Some? && Stable(t, b.text) && !Open(RStrip(Process(t, b.text).0.text))
  }

  /** A rewritten line stands for itself. */
  lemma QuietReplaced(t: Tables, text: string, indent: string, rest: seq<string>)
    requires Closed(t) && PlainNames(t) && Blank(indent) && Quiet(t, rest)
    requires Process(t, text).0.Replace? && Tame(t, Block(0, 0, true, text))
    ensures Quiet(t, [indent + (Process(t, text).0.text + "\n")] + rest)
  {
    var line := indent + (Process(t, text).0.text + "\n");
    KeptAgain(t, text, indent);
    StillClosed(indent, Process(t, text).0.text);
    hide Process;
    hide RStrip;
    if ApkStart(line) {
      hide ApkStart;
      assert ([line] + rest)[1..] == rest;
    } else {
      QuietLine(t, line, rest);
    }
  }

  lemma StillClosed(indent: string, text: string)
    requires Blank(indent) && !Open(RStrip(text))
    ensures !Open(RStrip(indent + (text + "\n")))
  {
    assert indent + (text + "\n") == indent + text + "\n";
    RStripNewline(indent + text);
    IndentStripped(indent, text);
  }

  lemma {:induction false} IndentStripped(indent: string, text: string)
    requires Blank(indent)
    ensures RStrip(indent + text) == if RStrip(text) == "" then "" else indent + RStrip(text)
    decreases |text|
  {
    if text == "" {
      assert indent + text == indent;
      AllBlank(indent);
    } else if Space(text[|text| - 1]) {
      assert (indent + text)[..|indent + text| - 1] == indent + text[..|text| - 1];
      IndentStripped(indent, text[..|text| - 1]);
    }
  }

  // --- Notes -----------------------------------------------------------------------------------

  /** No note reads as a command. */
  predicate QuietNotes(t: Tables) {
    forall k | k in t.special && t.special[k] == None :: !Has(Note(k), "apk add")
  }

  ghost predicate IsNote(t: Tables, note: string) {
    exists k :: k in t.special && t.special[k] == None && note == Note(k)
  }

  ghost predicate AllNotes(t: Tables, notes: seq<string>) {
    forall i | 0 <= i < |notes| :: IsNote(t, notes[i])
  }

  lemma {:induction false} RewrittenNotes(t: Tables, tokens: seq<string>, n: nat)
    requires n <= |tokens|
    ensures AllNotes(t, Rewritten(t, tokens, n).notes)
  {
    hide Note;
    if n > 0 {
      RewrittenNotes(t, tokens, n - 1);
      var token := tokens[n - 1];
      assert Fate(t, token) == None && token !in t.gone ==> IsNote(t, Note(token));
      hide IsNote;
    }
  }

  lemma NotesAppend(t: Tables, a: seq<string>, b: seq<string>)
    requires AllNotes(t, a) && AllNotes(t, b)
    ensures AllNotes(t, a + b)
  {
    hide IsNote;
  }

  lemma NoNotes(t: Tables)
    ensures AllNotes(t, [])
  {
  }

  lemma {:induction false} NotesAreNotes(t: Tables, bs: seq<Block>, n: nat)
    requires n <= |bs|
    ensures AllNotes(t, NotesOf(t, bs, n))
  {
    hide AllNotes;
    hide Process;
    NoNotes(t);
    if n > 0 {
      NotesAreNotes(t, bs, n - 1);
      ProcessNotes(t, bs[n - 1].text);
      NotesAppend(t, NotesOf(t, bs, n - 1), if bs[n - 1].apk then Process(t, bs[n - 1].text).1.notes else []);
    }
  }

  lemma ProcessNotes(t: Tables, text: string)
    ensures AllNotes(t, Process(t, text).1.notes)
  {
    hide Tokens;
    hide Cut;
    hide AllNotes;
    hide Rewritten;
    hide Spaced;
    NoNotes(t);
    BodyShort(text);
    if Body(text).Some? {
      var tokens := Tokens(PackagePart(text));
      RewrittenNotes(t, tokens, |tokens|);
    }
    hide Body;
  }

  lemma {:induction false} HasBehindBlank(indent: string, s: string, w: string)
    requires Blank(indent) && w != "" && !Space(w[0])
    ensures Has(indent + s, w) ==> Has(s, w)
  {
    if indent == "" {
      assert indent + s == s;
    } else {
      assert (indent + s)[1..] == indent[1..] + s;
      assert !(w <= indent + s) by { assert (indent + s)[0] == indent[0]; }
      HasBehindBlank(indent[1..], s, w);
    }
  }

  lemma NoteQuiet(t: Tables, k: string, indent: string)
    requires QuietNotes(t) && k in t.special && t.special[k] == None && Blank(indent)
    ensures !ApkStart(indent + (Note(k) + "\n"))
  {
    var note := Note(k);
    NoteEnds(k);
    assert indent + (note + "\n") == (indent + note) + "\n";
    RStripNewline(indent + note);
    RStripSame(indent + note);
    HasBehindBlank(indent, note, "apk add");
  }

  lemma NoteEnds(k: string)
    ensures Note(k) != "" && Note(k)[|Note(k)| - 1] == 'y'
  {
    var a := "uses pre-compiled binary";
    var b := " server not available in wolfi; " + a;
    assert b[|b| - 1] == a[|a| - 1] == 'y';
    var c := k + b;
    assert c[|c| - 1] == b[|b| - 1];
  }

  lemma NoteLinesQuiet(t: Tables, indent: string, notes: seq<string>)
    requires QuietNotes(t) && AllNotes(t, notes) && Blank(indent)
    ensures forall i | 0 <= i < |notes| :: !ApkStart(NoteLines(indent, notes)[i])
  {
    hide Note;
    hide ApkStart;
    hide QuietNotes;
    forall i | 0 <= i < |notes| ensures !ApkStart(NoteLines(indent, notes)[i]) {
      assert IsNote(t, notes[i]);
      var k :| k in t.special && t.special[k] == None && notes[i] == Note(k);
      NoteQuiet(t, k, indent);
    }
  }

  // --- The theorem -------------------------------------------------------------------------------

  /** The tables fit together: new names are not listed, can stand in a list, and notes are no commands. */
  predicate Coherent(t: Tables) {
    Closed(t) && PlainNames(t) && QuietNotes(t)
  }

  /** The first block of a file. */
  function FirstBlockOf(ls: seq<string>, base: nat): (b: Block)
    requires ls != []
    ensures base <= b.end < base + |ls|
  {
    Block(base, base + FirstOf(ls).1, ApkStart(ls[0]), FirstOf(ls).0)
  }

  lemma OutputStep(t: Tables, ls: seq<string>, notes: seq<string>)
    requires ls != []
    ensures var n := FirstOf(ls).1;
            OutputFrom(t, ls, notes) ==
            Output(ls[..n + 1], ResultOf(t, FirstBlockOf(ls, 0)), notes) + OutputFrom(t, ls[n + 1..], notes)
  {
    hide Process;
    hide ApkStart;
    hide Output;
  }

  lemma SameResult(t: Tables, ls: seq<string>, base: nat)
    requires ls != []
    ensures ResultOf(t, FirstBlockOf(ls, base)) == ResultOf(t, FirstBlockOf(ls, 0))
    ensures Tame(t, FirstBlockOf(ls, base)) == Tame(t, FirstBlockOf(ls, 0))
  {
    hide Process;
    hide ApkStart;
    hide FirstOf;
  }

  lemma FirstInBlocks(t: Tables, ls: seq<string>, base: nat)
    requires ls != [] && forall b | b in Blocks(ls, base) :: Tame(t, b)
    ensures Tame(t, FirstBlockOf(ls, base))
    ensures forall b | b in Blocks(ls[FirstOf(ls).1 + 1..], base + FirstOf(ls).1 + 1) :: Tame(t, b)
  {
    hide Tame;
    hide Blocks;
    hide ApkStart;
    hide FirstOf;
    BlocksStep(ls, base);
    var first, rest := FirstBlockOf(ls, base), Blocks(ls[FirstOf(ls).1 + 1..], base + FirstOf(ls).1 + 1);
    assert ([first] + rest)[0] == first;
  }

  lemma {:induction false} OutputQuiet(t: Tables, ls: seq<string>, base: nat, notes: seq<string>)
    requires Coherent(t) && AllNotes(t, notes) && forall b | b in Blocks(ls, base) :: Tame(t, b)
    ensures Quiet(t, OutputFrom(t, ls, notes))
    decreases |ls|
  {
    hide FirstOf;
    hide Tame;
    hide AllNotes;
    hide Coherent;
    hide Output;
    hide Blocks;
    hide ResultOf;
    hide FirstBlockOf;
    if ls != [] {
      var n := FirstOf(ls).1;
      FirstInBlocks(t, ls, base);
      SameResult(t, ls, base);
      OutputQuiet(t, ls[n + 1..], base + n + 1, notes);
      var rest := OutputFrom(t, ls[n + 1..], notes);
      assert ls[n + 1..] == [] ==> rest == [];
      OutputStep(t, ls, notes);
      hide Quiet;
      UnitQuiet(t, ls, notes, rest);
    }
  }

  lemma UnitQuiet(t: Tables, ls: seq<string>, notes: seq<string>, rest: seq<string>)
    requires ls != [] && Coherent(t) && AllNotes(t, notes) && Quiet(t, rest)
    requires Tame(t, FirstBlockOf(ls, 0)) && (ls[FirstOf(ls).1 + 1..] == [] ==> rest == [])
    ensures Quiet(t, Output(ls[..FirstOf(ls).1 + 1], ResultOf(t, FirstBlockOf(ls, 0)), notes) + rest)
  {
    hide ApkStart;
    hide FirstOf;
    hide Process;
    hide Quiet;
    hide AllNotes;
    hide Coherent;
    hide NoteLines;
    hide Tame;
    var n := FirstOf(ls).1;
    match ResultOf(t, FirstBlockOf(ls, 0))
    case Keep => QuietBlock(t, ls, rest);
    case Drop => assert [] + rest == rest;
    case Replace(new_text) => UnitReplaced(t, ls, notes, rest);
  }

  lemma UnitReplaced(t: Tables, ls: seq<string>, notes: seq<string>, rest: seq<string>)
    requires ls != [] && Coherent(t) && AllNotes(t, notes) && Quiet(t, rest)
    requires Tame(t, FirstBlockOf(ls, 0)) && ResultOf(t, FirstBlockOf(ls, 0)).Replace?
    ensures Quiet(t, Output(ls[..FirstOf(ls).1 + 1], ResultOf(t, FirstBlockOf(ls, 0)), notes) + rest)
  {
    hide ApkStart;
    hide FirstOf;
    hide Process;
    hide Quiet;
    hide AllNotes;
    hide QuietNotes;
    hide Closed;
    hide PlainNames;
    hide NoteLines;
    hide Output;
    hide Tame;
    var (text, n) := FirstOf(ls);
    var indent := Indent(ls[0]);
    var more := NoteLines(indent, notes);
    NoteLinesQuiet(t, indent, notes);
    QuietLines(t, more, rest);
    var space := if n == 0 then "" else indent;
    TameText(t, FirstBlockOf(ls, 0));
    QuietReplaced(t, text, space, more + rest);
    OutputIs(ls, n, Process(t, text).0.text, notes, rest);
  }

  lemma OutputIs(ls: seq<string>, n: nat, text: string, notes: seq<string>, rest: seq<string>)
    requires n < |ls|
    ensures var indent := Indent(ls[0]);
            Output(ls[..n + 1], Replace(text), notes) + rest ==
            [(if n == 0 then "" else indent) + (text + "\n")] + (NoteLines(indent, notes) + rest)
  {
    hide NoteLines;
    hide Indent;
    var indent := Indent(ls[0]);
    var head := (if n == 0 then "" else indent) + (text + "\n");
    assert |ls[..n + 1]| == n + 1 && ls[..n + 1][0] == ls[0];
    assert [head] + NoteLines(indent, notes) + rest == [head] + (NoteLines(indent, notes) + rest);
  }

  lemma TameText(t: Tables, b: Block)
    requires Tame(t, b)
    ensures b.apk ==> Tame(t, Block(0, 0, true, b.text))
  {
    hide Process;
  }

  /**
   A second pass changes nothing, when the tables fit together and every rewritten command is stable
   and keeps its line to itself: it does not end in a backslash.
   */
  lemma SecondPassIdle(t: Tables, lines: seq<string>)
    requires Coherent(t) && forall b | b in Blocks(lines, 0) :: Tame(t, b)
    ensures NewFile(t, NewFile(t, lines)) == NewFile(t, lines)
  {
    hide Blocks;
    hide Quiet;
    hide OutputFrom;
    hide AllNotes;
    hide Coherent;
    hide Tame;
    hide ResultOf;
    hide Modified;
    hide NotesOf;
    var bs := Blocks(lines, 0);
    if Modified(t, bs, |bs|) {
      NotesAreNotes(t, bs, |bs|);
      OutputQuiet(t, lines, 0, NotesOf(t, bs, |bs|));
      var after := NewFile(t, lines);
      QuietUnmodified(t, after, 0);
      KeepUnmodified(t, Blocks(after, 0), |Blocks(after, 0)|);
    }
  }

  // --- A file that a second pass changes ---------------------------------------------------------

  const Command := "RUN" + (" " + ("apk" + (" " + ("add" + (" " + ("--no-cache" + " "))))))

  lemma WordBehind(w: string, y: string)
    requires y != "" && !Space(y[0])
    ensures AfterWord(w + (" " + y), w) == Some(y)
  {
    assert (w + (" " + y))[|w|..] == " " + y;
    UnspacedTo(" ", y);
  }

  lemma CommandBody(y: string)
    requires y != "" && !Space(y[0])
    ensures Body(Command + y) == Some(y)
  {
    hide AfterWord;
    var d := "--no-cache" + (" " + y);
    var c := "add" + (" " + d);
    var b := "apk" + (" " + c);
    var a := "RUN" + (" " + b);
    WordBehind("--no-cache", y);
    WordBehind("add", d);
    WordBehind("apk", c);
    WordBehind("RUN", b);
    CommandText(y);
    assert Unspaced(a) == a;
  }

  lemma CommandText(y: string)
    ensures Command + y == "RUN" + (" " + ("apk" + (" " + ("add" + (" " + ("--no-cache" + (" " + y)))))))
  {
  }

  lemma RunFirst(s: string)
    requires |s| > 3 && s[..3] == "RUN" && s[3] == ' '
    ensures SaysRun(s, false)
  {
    assert Upper("RUN") == "RUN";
  }

  lemma CommandApk(y: string)
    ensures var text := Command + y;
            |text| > 3 && text[..3] == "RUN" && text[3] == ' ' && Has(text, "apk add")
  {
    CommandText(y);
    var more := " " + ("--no-cache" + (" " + y));
    HasInside("RUN ", "apk add", more);
    hide Has;
    assert Command + y == "RUN " + ("apk add" + more);
  }

  lemma CommandStarts(y: string)
    requires y != "" && !Space(y[|y| - 1])
    ensures ApkStart(Command + y + "\n") && RStrip(Command + y + "\n") == Command + y
  {
    var text := Command + y;
    RStripNewline(text);
    CommandApk(y);
    hide Command;
    hide Has;
    hide SaysRun;
    assert text[|text| - 1] == y[|y| - 1];
    RStripSame(text);
    RunFirst(text);
  }

  /** A file that is one command. */
  lemma OneCommand(t: Tables, y: string)
    requires y != "" && !Space(y[|y| - 1]) && y[|y| - 1] != '\\'
    ensures var p := Process(t, Command + y);
            NewFile(t, [Command + y + "\n"]) == Output([Command + y + "\n"], p.0, p.1.notes)
  {
    var text := Command + y;
    var ls := [text + "\n"];
    CommandStarts(y);
    assert text[|text| - 1] == y[|y| - 1];
    assert FirstOf(ls) == (text, 0);
    hide Process;
    hide ApkStart;
    hide FirstOf;
    hide RStrip;
    BlocksStep(ls, 0);
    OneResult(t, ls, text);
  }

  lemma OneResult(t: Tables, ls: seq<string>, text: string)
    requires |ls| == 1 && FirstOf(ls) == (text, 0) && ApkStart(ls[0]) && Blocks(ls, 0) == [Block(0, 0, true, text)] + Blocks(ls[1..], 1)
    ensures NewFile(t, ls) == Output(ls, Process(t, text).0, Process(t, text).1.notes)
  {
    hide Process;
    hide ApkStart;
    hide FirstOf;
    hide Output;
    var b := Block(0, 0, true, text);
    var bs := [b];
    assert Blocks(ls, 0) == bs;
    assert !Modified(t, bs, 0) && NotesOf(t, bs, 0) == [];
    var notes := NotesOf(t, bs, 1);
    assert ls[..1] == ls && ls[1..] == [];
    assert OutputFrom(t, [], notes) == [];
    assert notes == [] + Process(t, text).1.notes == Process(t, text).1.notes;
    var out := Output(ls, Process(t, text).0, notes);
    assert OutputFrom(t, ls, notes) == out + [];
    KeepOutput(ls, notes);
    assert Modified(t, bs, 1) <==> Process(t, text).0 != Keep;
    assert NewFile(t, ls) == if Modified(t, bs, 1) then out else ls;
  }

  lemma KeepOutput(ls: seq<string>, notes: seq<string>)
    requires ls != []
    ensures Output(ls, Keep, notes) == ls
  {
  }

  /** What becomes of a command whose packages are known. */
  lemma ProcessKnown(t: Tables, ps: seq<string>, suffix: string)
    requires ps != [] && AllPlain(ps) && IsSuffix(suffix) && !(LastChar(ps[|ps| - 1]) == '|' && "|" <= suffix)
    ensures var r := Rewritten(t, ps, |ps|);
            Process(t, Command + (Spaced(ps) + suffix)) ==
            if r.packages == [] then (Drop, r) else if Idle(r) then (Keep, r)
            else (Replace(Command + (Spaced(r.packages) + suffix)), r)
  {
    hide Plain;
    hide Has;
    hide Rewritten;
    hide IsSuffix;
    var y := Spaced(ps) + suffix;
    SpacedEnds(ps);
    CutOf(Spaced(ps), suffix);
    SpacedTokens(ps);
    hide Spaced;
    hide Tokens;
    hide Cut;
    assert y[0] == Spaced(ps)[0];
    CommandBody(y);
    hide Body;
    hide Command;
    hide PlainText;
    hide LastChar;
    assert y[..|Spaced(ps)|] == Spaced(ps) && y[|Spaced(ps)|..] == suffix;
    var text := Command + y;
    assert text[..|text| - |y|] == Command;
  }

  lemma RewrittenTwo(t: Tables, p: string, q: string)
    requires !Listed(t, p) && q in t.gone
    ensures Rewritten(t, [p, q], 2) == Rewriting([p], 1, [], [])
  {
    assert Rewritten(t, [p, q], 0) == Rewriting([], 0, [], []);
    assert Rewritten(t, [p, q], 1) == Rewriting([p], 0, [], []);
  }

  lemma RewrittenOne(t: Tables, p: string)
    requires Fate(t, p) == None
    ensures Rewritten(t, [p], 1).packages == []
  {
    hide Note;
    assert Rewritten(t, [p], 0) == Rewriting([], 0, [], []);
  }

  /** The bar of the last package, next to the bars of the suffix. */
  lemma GluedText(p: string)
    ensures Spaced([p + "|"]) + "||true" == Spaced([p]) + "|||true"
  {
    assert p + "|" + "||true" == p + "|||true";
  }

  /** Whatever p and q are, when q is removed, and p is, but not with a bar behind it. */
  lemma GluedTwice(t: Tables, p: string, q: string)
    requires Plain(p + "|") && Plain(p) && Plain(q) && LastChar(q) != '|' && LastChar(p) != '|'
    requires q in t.gone && Fate(t, p) == None && !Listed(t, p + "|")
    ensures Process(t, Command + (Spaced([p + "|", q]) + "||true")) ==
            (Replace(Command + (Spaced([p]) + "|||true")), Rewriting([p + "|"], 1, [], []))
    ensures Process(t, Command + (Spaced([p]) + "|||true")).0 == Drop
  {
    GluedFirst(t, p, q);
    GluedSecond(t, p);
    GluedText(p);
    hide *;
  }

  lemma GluedFirst(t: Tables, p: string, q: string)
    requires Plain(p + "|") && Plain(q) && LastChar(q) != '|' && q in t.gone && !Listed(t, p + "|")
    ensures Process(t, Command + (Spaced([p + "|", q]) + "||true")) ==
            (Replace(Command + (Spaced([p + "|"]) + "||true")), Rewriting([p + "|"], 1, [], []))
  {
    BarsAreSuffix("||true");
    RewrittenTwo(t, p + "|", q);
    var both := [p + "|", q];
    assert LastChar(both[1]) != '|' && AllPlain(both);
    hide *;
    ProcessKnown(t, both, "||true");
    NotIdle([p + "|"]);
  }

  lemma NotIdle(ps: seq<string>)
    ensures !Idle(Rewriting(ps, 1, [], []))
  {
  }

  lemma GluedSecond(t: Tables, p: string)
    requires Plain(p) && LastChar(p) != '|' && Fate(t, p) == None
    ensures Process(t, Command + (Spaced([p]) + "|||true")).0 == Drop
  {
    BarsAreSuffix("|||true");
    RewrittenOne(t, p);
    assert LastChar([p][0]) != '|' && AllPlain([p]);
    hide *;
    ProcessKnown(t, [p], "|||true");
  }

  const Redis := Tables({"xz-utils"}, map[], map["redis" := None])

  const GluedLine := Command + (Spaced(["redis" + "|", "xz-utils"]) + "||true")
  const EmptiedLine := Command + (Spaced(["redis"]) + "|||true")

  /** A bar that is left next to the bars of the suffix shifts the end of the packages: the second pass empties the file. */
  lemma SecondPassEmpties()
    ensures NewFile(Redis, [GluedLine + "\n"]) == [EmptiedLine + "\n"]
    ensures NewFile(Redis, [EmptiedLine + "\n"]) == []
  {
    RedisPlain();
    RedisTables();
    hide Plain;
    hide Process;
    hide NewFile;
    hide Spaced;
    hide Redis;
    hide Listed;
    hide Fate;
    hide Command;
    GluedTwice(Redis, "redis", "xz-utils");
    LinesEnd();
    OneCommand(Redis, Spaced(["redis" + "|", "xz-utils"]) + "||true");
    OneCommand(Redis, Spaced(["redis"]) + "|||true");
    ReplacedLine(GluedLine + "\n", EmptiedLine);
  }

  lemma ReplacedLine(line: string, text: string)
    ensures Output([line], Replace(text), []) == [text + "\n"]
  {
    assert "" + (text + "\n") == text + "\n";
  }

  lemma LinesEnd()
    ensures var a, b := Spaced(["redis" + "|", "xz-utils"]) + "||true", Spaced(["redis"]) + "|||true";
            a != "" && a[|a| - 1] == 'e' && b != "" && b[|b| - 1] == 'e'
  {
    hide Spaced;
  }

  lemma RedisTables()
    ensures "xz-utils" in Redis.gone && Fate(Redis, "redis") == None && !Listed(Redis, "redis" + "|")
  {
    assert |"redis" + "|"| == 6 && |"redis"| == 5 && |"xz-utils"| == 8;
  }

  lemma RedisPlain()
    ensures Plain("redis") && Plain("redis" + "|") && Plain("xz-utils")
    ensures LastChar("redis") == 's' && LastChar("xz-utils") == 's'
  {
    NoDoubleBar("redis");
    NoDoubleBar("redis" + "|");
    NoDoubleBar("xz-utils");
    hide Has;
  }

  lemma NoDoubleBar(s: string)
    ensures (forall i | 0 <= i < |s| - 1 :: s[i] != '|') ==> !Has(s, "||")
  {
    if Has(s, "||") {
      var i := HasWhere(s, "||");
      assert s[i..][0] == s[i];
    }
  }
}
