/** resolve_critical_digests.py and inventory_report.py: FROM lines and the proposals that pin them. */
module Pinning {
  import opened Text
  import opened Lines

  // --- Words of a line -------------------------------------------------------------------

  function Word(s: string): string {
    s[..WordEnd(s)]
  }

  function Tail(s: string): string {
    s[WordEnd(s)..]
  }

  /** `(?:\s+AS\s+\S+)?$` */
  predicate StageEnd(t: string) {
    t == "" ||
    var u := Unspaced(t);
    var v := Unspaced(Tail(u));
    Upper(Word(u)) == "AS" && v != "" && Tail(v) == ""
  }

  /** `^FROM\s+(\S+)(?:\s+AS\s+\S+)?$` on a stripped line, in any case: the reference. */
  function FromRef(line: string): Option<string> {
    if Upper(Word(line)) != "FROM" then None else
    var t := Unspaced(Tail(line));
    if t == "" || !StageEnd(Tail(t)) then None else Some(Word(t))
  }

  // --- The inventory -----------------------------------------------------------------------

  datatype Entry = Entry(line: nat, reference: string, pinned: bool)

  predicate Pinned(reference: string) {
    Lower(reference) == "scratch" || Has(reference, "@sha256:")
  }

  /** What a line contributes to the scan. */
  function EntryOf(raw: string, number: nat): seq<Entry> {
    var line := Strip(raw);
    if line == "" || line[0] == '#' then [] else
    match FromRef(line)
    case None => []
    case Some(reference) => [Entry(number, reference, Pinned(reference))]
  }

  /** The entries of the first n lines. */
  function FromLines(lines: seq<string>, n: nat): seq<Entry>
    requires n <= |lines|
  {
    if n == 0 then [] else FromLines(lines, n - 1) + EntryOf(lines[n - 1], n)
  }

  function Scan(lines: seq<string>): seq<Entry> {
    FromLines(lines, |lines|)
  }

  method ScanFroms(lines: seq<string>) returns (results: seq<Entry>)
    ensures results == Scan(lines)
  {
    hide FromRef;
    hide Strip;
    hide Pinned;
    results := [];
    for i := 0 to |lines|
      invariant results == FromLines(lines, i)
    {
      var line := Strip(lines[i]);
      if line == "" || line[0] == '#' {
        continue;
      }
      var m := FromRef(line);
      if m == None {
        continue;
      }
      results := results + [Entry(i + 1, m.value, Pinned(m.value))];
    }
  }

  // --- Proposals ------------------------------------------------------------------------------

  predicate HexDigit(c: char) {
    Digit(c) || 'a' <= c <= 'f'
  }

  predicate IsDigest(s: string) {
    |s| == 71 && "sha256:" <= s && forall i | 7 <= i < 71 :: HexDigit(s[i])
  }

  /** `validate_digest`, for a value that is given. */
  function ValidateDigest(value: string): Option<string> {
    var v := Lower(Strip(value));
    if IsDigest(v) then Some(v) else None
  }

  predicate NameStart(c: char) {
    Capital(c) || Small(c) || c == '_'
  }

  predicate NameChar(c: char) {
    NameStart(c) || Digit(c)
  }

  function NameEnd(s: string): (n: nat)
    ensures n <= |s|
  {
    if s != "" && NameChar(s[0]) then 1 + NameEnd(s[1..]) else 0
  }

  /** `\$\{(name)\}|\$(name)` at the front of s: the name and the length of the match. */
  function Variable(s: string): (r: Option<(string, nat)>)
    ensures r.Some? ==> 0 < r.value.1 <= |s| && s[0] == '$'
  {
    if |s| < 2 || s[0] != '$' then None else
    if NameStart(s[1]) then Some((s[1..1 + NameEnd(s[1..])], 1 + NameEnd(s[1..]))) else
    if s[1] != '{' || |s| < 3 || !NameStart(s[2]) then None else
    var n := NameEnd(s[2..]);
    if 2 + n < |s| && s[2 + n] == '}' then Some((s[2..2 + n], 3 + n)) else None
  }

  predicate HasVariable(s: string) {
    Variable(s).Some? || (s != "" && HasVariable(s[1..]))
  }

  /** `VAR_RE.sub`, or None when a name has no value. */
  function Substitute(s: string, values: map<string, string>): Option<string>
    decreases |s|
  {
    if s == "" then Some("") else
    match Variable(s)
    case Some((name, n)) =>
      if name !in values then None else
      (match Substitute(s[n..], values) case None => None case Some(t) => Some(values[name] + t))
    case None =>
      match Substitute(s[1..], values) case None => None case Some(t) => Some([s[0]] + t)
  }

  /** `^ARG\s+(name)(?:=(.*))?$` with a default on a stripped line: the name and the default. */
  function ArgDefault(line: string): Option<(string, string)> {
    if !("ARG" <= line) || Span(line[3..]) == 0 then None else
    var t := Unspaced(line[3..]);
    if t == "" || !NameStart(t[0]) then None else
    var n := NameEnd(t);
    if n == |t| || t[n] != '=' || !Without(t[n..], '\n') then None else Some((t[..n], t[n + 1..]))
  }

  function Cleaned(value: string): string {
    StripChar(StripChar(Strip(value), '"'), '\'')
  }

  /** The environment, then the defaults of the first n lines: the first value of a name stays. */
  function Values(lines: seq<string>, n: nat, environment: map<string, string>): map<string, string>
    requires n <= |lines|
  {
    if n == 0 then environment else
    var values := Values(lines, n - 1, environment);
    match ArgDefault(Strip(lines[n - 1]))
    case Some((name, value)) => if name in values then values else values[name := Cleaned(value)]
    case None => values
  }

  method CollectValues(lines: seq<string>, environment: map<string, string>) returns (values: map<string, string>)
    ensures values == Values(lines, |lines|, environment)
  {
    hide ArgDefault;
    hide Cleaned;
    hide Strip;
    values := environment;
    for i := 0 to |lines|
      invariant values == Values(lines, i, environment)
    {
      var m := ArgDefault(Strip(lines[i]));
      if m.Some? && m.value.0 !in values {
        values := values[m.value.0 := Cleaned(m.value.1)];
      }
    }
  }

  function ExpandReference(reference: string, lines: seq<string>, environment: map<string, string>): Option<string> {
    match Substitute(reference, Values(lines, |lines|, environment))
    case None => None
    case Some(expanded) => if '$' in expanded then None else Some(expanded)
  }

  /** `s.replace(w, put, 1)` */
  function ReplaceFirst(s: string, w: string, put: string): string {
    if w <= s then put + s[|w|..] else if s == "" then "" else [s[0]] + ReplaceFirst(s[1..], w, put)
  }

  function ProposePatch(lines: seq<string>, number: int, original: string, digest: string,
                        expanded: Option<string>, environment: map<string, string>): Option<string>
  {
    if ValidateDigest(digest) == None || '@' in original then None else
    if number < 1 || number > |lines| then None else
    var line := lines[number - 1];
    if !Has(line, original) || !("FROM " <= Upper(LStrip(line))) then None else
    var full := if expanded.Some? then expanded else ExpandReference(original, lines, environment);
    if full == None || '@' in full.value then None else
    if HasVariable(original) then None else
    var replacement := ReplaceFirst(line, original, original + ("@" + digest));
    if replacement != line then Some(replacement) else None
  }

  // --- Arguments never matter -------------------------------------------------------------------

  lemma {:induction false} NoVariable(s: string)
    requires '$' !in s
    ensures !HasVariable(s)
  {
    if s != "" {
      assert s[0] in s;
      NoVariable(s[1..]);
    }
  }

  lemma {:induction false} Unchanged(s: string, values: map<string, string>)
    requires !HasVariable(s)
    ensures Substitute(s, values) == Some(s)
  {
    if s != "" {
      Unchanged(s[1..], values);
      assert [s[0]] + s[1..] == s;
    }
  }

  /**
   Without a given expansion a proposal is made exactly when the reference holds no `$`: neither
   the ARG defaults nor the environment make a difference.
   */
  lemma ArgumentsNeverMatter(lines: seq<string>, number: int, original: string, digest: string, environment: map<string, string>)
    ensures ProposePatch(lines, number, original, digest, None, environment) ==
            if '$' in original then None else ProposePatch(lines, number, original, digest, Some(""), map[])
  {
    hide ValidateDigest;
    hide ReplaceFirst;
    hide Has;
    hide HasVariable;
    hide Values;
    hide Substitute;
    hide Upper;
    hide LStrip;
    if '$' !in original {
      NoVariable(original);
    }
    if !HasVariable(original) {
      Unchanged(original, Values(lines, |lines|, environment));
    }
  }

  /** A proposal looks at its own line only, whatever happens to the others. */
  lemma ProposalIsLocal(lines: seq<string>, i: nat, other: string, number: int, original: string, digest: string,
                        expanded: Option<string>, environment: map<string, string>)
    requires i < |lines| && number - 1 != i
    ensures ProposePatch(lines[i := other], number, original, digest, expanded, environment) ==
            ProposePatch(lines, number, original, digest, expanded, environment)
  {
    ArgumentsNeverMatter(lines, number, original, digest, environment);
    ArgumentsNeverMatter(lines[i := other], number, original, digest, environment);
    hide ValidateDigest;
    hide ReplaceFirst;
    hide Has;
    hide HasVariable;
    hide ExpandReference;
    hide Upper;
    hide LStrip;
  }

  // --- Stripping and words ---------------------------------------------------------------------

  predicate Solid(s: string) {
    s != "" && forall i | 0 <= i < |s| :: !Space(s[i])
  }

  lemma {:induction false} WordOf(w: string, t: string)
    requires forall i | 0 <= i < |w| :: !Space(w[i])
    requires t == "" || Space(t[0])
    ensures Word(w + t) == w && Tail(w + t) == t
  {
    if w == "" {
      assert w + t == t;
    } else {
      assert (w + t)[1..] == w[1..] + t;
      WordOf(w[1..], t);
    }
  }

  lemma {:induction false} UnspacedOf(gap: string, t: string)
    requires Blank(gap) && t != "" && !Space(t[0])
    ensures Span(gap + t) == |gap| && Unspaced(gap + t) == t
  {
    if gap == "" {
      assert gap + t == t;
    } else {
      assert (gap + t)[1..] == gap[1..] + t;
      UnspacedOf(gap[1..], t);
    }
  }

  // --- Where the replacement lands ---------------------------------------------------------------

  lemma {:induction false} ReplaceBehindBlanks(gap: string, t: string, w: string, put: string)
    requires Blank(gap) && Solid(w)
    ensures ReplaceFirst(gap + t, w, put) == gap + ReplaceFirst(t, w, put)
  {
    if gap == "" {
      assert gap + t == t;
    } else {
      assert (gap + t)[1..] == gap[1..] + t;
      assert !(w <= gap + t) by { assert (gap + t)[0] == gap[0]; }
      ReplaceBehindBlanks(gap[1..], t, w, put);
      assert [gap[0]] + (gap[1..] + ReplaceFirst(t, w, put)) == gap + ReplaceFirst(t, w, put);
    }
  }

  lemma FirstBehind(word: string, t: string, w: string)
    requires t != "" && w <= word + t
    ensures |w| > |word| ==> w[|word|] == t[0]
    ensures |w| <= |word| ==> w <= word
  {
    assert w == (word + t)[..|w|];
  }

  lemma NotAcross(word: string, t: string, w: string)
    requires Solid(w) && t != "" && Space(t[0])
    ensures w <= word + t ==> w <= word
  {
    if w <= word + t {
      FirstBehind(word, t, w);
    }
  }

  lemma {:induction false} ReplaceBehindWord(word: string, t: string, w: string, put: string)
    requires Solid(w) && t != "" && Space(t[0]) && !Has(word, w)
    ensures ReplaceFirst(word + t, w, put) == word + ReplaceFirst(t, w, put)
  {
    if word == "" {
      assert word + t == t;
    } else {
      NotAcross(word, t, w);
      assert (word + t)[1..] == word[1..] + t;
      ReplaceBehindWord(word[1..], t, w, put);
      assert [word[0]] + (word[1..] + ReplaceFirst(t, w, put)) == word + ReplaceFirst(t, w, put);
    }
  }

  lemma Regroup(a: string, b: string, c: string)
    ensures a + (b + c) == a + b + c
  {
  }

  lemma {:induction false} ReplaceInWord(word: string, t: string, w: string, put: string)
    requires Has(word, w)
    ensures ReplaceFirst(word + t, w, put) == ReplaceFirst(word, w, put) + t
  {
    NoEarlier(word, t, w);
    if w <= word {
      assert (word + t)[..|w|] == word[..|w|];
      assert (word + t)[|w|..] == word[|w|..] + t;
      Regroup(put, word[|w|..], t);
    } else {
      assert (word + t)[1..] == word[1..] + t;
      ReplaceInWord(word[1..], t, w, put);
      Regroup([word[0]], ReplaceFirst(word[1..], w, put), t);
    }
  }

  /** A word that occurs in the text is not longer than the text. */
  lemma {:induction false} HasShort(s: string, w: string)
    requires Has(s, w)
    ensures |w| <= |s|
  {
    if !(w <= s) {
      HasShort(s[1..], w);
    }
  }

  lemma NoEarlier(word: string, t: string, w: string)
    requires Has(word, w)
    ensures w <= word + t ==> w <= word
  {
    HasShort(word, w);
    if w <= word + t {
      assert w == (word + t)[..|w|] == word[..|w|];
    }
  }

  lemma {:induction false} ReplacedSolid(word: string, w: string, put: string)
    requires Solid(put) && Has(word, w) && forall i | 0 <= i < |word| :: !Space(word[i])
    ensures Solid(ReplaceFirst(word, w, put)) && |ReplaceFirst(word, w, put)| == |word| - |w| + |put|
  {
    if !(w <= word) {
      ReplacedSolid(word[1..], w, put);
    } else {
      var r := put + word[|w|..];
      assert forall i | |put| <= i < |r| :: r[i] == word[i - |put| + |w|];
    }
  }
}
