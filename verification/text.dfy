/** Characters and substrings shared by the scanners and the line editors. */
module Text {

  datatype Option<+T> = None | Some(value: T)

  /** White_Space of Unicode: `\s` and `str::trim` of Rust. */
  predicate White(c: char) {
    var n := c as int;
    || 9 <= n <= 13 || n == 0x20 || n == 0x85 || n == 0xA0 || n == 0x1680
    || 0x2000 <= n <= 0x200A || n == 0x2028 || n == 0x2029 || n == 0x202F || n == 0x205F || n == 0x3000
  }

  predicate Digit(c: char) {
    '0' <= c <= '9'
  }

  predicate Numeral(s: string) {
    s != "" && forall i | 0 <= i < |s| :: Digit(s[i])
  }

  predicate Capital(c: char) {
    'A' <= c <= 'Z'
  }

  predicate Small(c: char) {
    'a' <= c <= 'z'
  }

  /** A nonempty string without white space. */
  predicate Bare(s: string) {
    s != "" && forall i | 0 <= i < |s| :: !White(s[i])
  }

  function SetOf(s: seq<string>): (r: set<string>)
    ensures forall x :: x in r <==> x in s
  {
    set x | x in s
  }

  predicate Without(s: string, c: char) {
    forall i | 0 <= i < |s| :: s[i] != c
  }

  /** Text without capitals, without a `="`, and not about to make one. */
  predicate Dull(s: string) {
    && s != "" && s[|s| - 1] != '='
    && (forall i | 0 <= i < |s| :: !Capital(s[i]))
    && (Without(s, '=') || Without(s, '"'))
  }

  /** The fixed words of the generated files that are no instruction keywords. */
  type Fixed = s: string | Dull(s) witness "\n"

  function UpperChar(c: char): char {
    if Small(c) then (c as int - 32) as char else c
  }

  function Upper(s: string): (u: string)
    ensures |u| == |s| && forall i | 0 <= i < |s| :: u[i] == UpperChar(s[i])
  {
    seq(|s|, i requires 0 <= i < |s| => UpperChar(s[i]))
  }

  function LowerChar(c: char): char {
    if Capital(c) then (c as int + 32) as char else c
  }

  function Lower(s: string): (l: string)
    ensures |l| == |s| && forall i | 0 <= i < |s| :: l[i] == LowerChar(s[i])
  {
    seq(|s|, i requires 0 <= i < |s| => LowerChar(s[i]))
  }

  /** w occurs in s. */
  function Has(s: string, w: string): bool {
    w <= s || (s != "" && Has(s[1..], w))
  }

  lemma {:induction false} HasInside(a: string, w: string, b: string)
    ensures Has(a + (w + b), w)
  {
    if a == "" {
      assert a + (w + b) == w + b;
    } else {
      assert (a + (w + b))[1..] == a[1..] + (w + b);
      HasInside(a[1..], w, b);
    }
  }

  lemma {:induction false} HasAt(s: string, w: string, i: nat)
    requires i <= |s| && w <= s[i..]
    ensures Has(s, w)
  {
    if i > 0 {
      assert s[1..][i - 1..] == s[i..];
      HasAt(s[1..], w, i - 1);
    } else {
      assert s[0..] == s;
    }
  }

  /** Where w occurs. */
  lemma {:induction false} HasWhere(s: string, w: string) returns (i: nat)
    requires Has(s, w)
    ensures i <= |s| && w <= s[i..]
  {
    if w <= s {
      i := 0;
      assert s[0..] == s;
    } else {
      var j := HasWhere(s[1..], w);
      i := j + 1;
      assert s[1..][j..] == s[j + 1..];
    }
  }

  /** What a part holds, the whole does. */
  lemma HasPart(pre: string, a: string, post: string, w: string)
    requires Has(a, w)
    ensures Has(pre + (a + post), w)
  {
    var i := HasWhere(a, w);
    var s := pre + (a + post);
    assert s[|pre| + i..][..|w|] == a[i..][..|w|];
    HasAt(s, w, |pre| + i);
  }

  /** A word without c does not reach across c. */
  lemma {:induction false} HasSplit(a: string, c: char, b: string, w: string)
    requires w != "" && Without(w, c)
    ensures Has(a + ([c] + b), w) <==> Has(a, w) || Has(b, w)
  {
    var s := a + ([c] + b);
    if a == "" {
      assert s[1..] == b && s[0] == c;
      assert !(w <= s) && !Has("", w);
    } else {
      assert s[1..] == a[1..] + ([c] + b);
      HasSplit(a[1..], c, b, w);
      FrontSplit(a, c, b, w);
    }
  }

  lemma FrontSplit(a: string, c: char, b: string, w: string)
    requires Without(w, c)
    ensures w <= a + ([c] + b) <==> w <= a
  {
    var s := a + ([c] + b);
    assert s[|a|] == c;
    if w <= s {
      assert w == s[..|w|];
    }
    if w <= a {
      assert s[..|w|] == a[..|w|];
    }
  }

  // --- The order of texts ------------------------------------------------------

  /** The order of characters, a prefix first. */
  function CompareText(a: string, b: string): (c: int)
    ensures -1 <= c <= 1
  {
    if a == "" && b == "" then 0
    else if a == "" then -1
    else if b == "" then 1
    else if a[0] != b[0] then if a[0] < b[0] then -1 else 1
    else CompareText(a[1..], b[1..])
  }

  lemma {:induction false} TextOrder(a: string, b: string)
    ensures CompareText(a, b) == -CompareText(b, a)
    ensures CompareText(a, b) == 0 <==> a == b
  {
    if a != "" && b != "" {
      TextOrder(a[1..], b[1..]);
      assert a == [a[0]] + a[1..] && b == [b[0]] + b[1..];
    }
  }

  lemma {:induction false} TextTransitive(a: string, b: string, c: string)
    requires CompareText(a, b) <= 0 && CompareText(b, c) <= 0
    ensures CompareText(a, c) <= 0
  {
    if a != "" && b != "" && c != "" && a[0] == b[0] == c[0] {
      TextTransitive(a[1..], b[1..], c[1..]);
    }
  }

  // --- Replacing ---------------------------------------------------------------

  /** `replace(w, put)` of Rust; an empty w stands before every character and at the end. */
  function ReplaceAll(s: string, w: string, put: string): string
    decreases |s|
  {
    if w == "" then Spread(s, put)
    else if w <= s then put + ReplaceAll(s[|w|..], w, put)
    else if s == "" then ""
    else [s[0]] + ReplaceAll(s[1..], w, put)
  }

  function Spread(s: string, put: string): string {
    if s == "" then put else put + ([s[0]] + Spread(s[1..], put))
  }

  lemma ReplaceHit(t: string, w: string, put: string)
    requires w != ""
    ensures ReplaceAll(w + t, w, put) == put + ReplaceAll(t, w, put)
  {
    assert (w + t)[|w|..] == t;
  }

  lemma ReplaceStep(first: char, t: string, w: string, put: string)
    requires w != "" && !(w <= [first] + t)
    ensures ReplaceAll([first] + t, w, put) == [first] + ReplaceAll(t, w, put)
  {
    assert ([first] + t)[1..] == t;
  }

  lemma {:induction false} NothingToReplace(s: string, w: string, put: string)
    requires w != "" && !Has(s, w)
    ensures ReplaceAll(s, w, put) == s
  {
    if s != "" {
      NothingToReplace(s[1..], w, put);
      assert s == [s[0]] + s[1..];
    }
  }

  // --- Trimming and splitting -------------------------------------------------

  function TrimLeft(s: string): string {
    if s != "" && White(s[0]) then TrimLeft(s[1..]) else s
  }

  function TrimRight(s: string): string {
    if s != "" && White(s[|s| - 1]) then TrimRight(s[..|s| - 1]) else s
  }

  function Trim(s: string): string {
    TrimRight(TrimLeft(s))
  }

  function UnquoteLeft(s: string): (r: string)
    ensures r != "" ==> r[0] != '"'
    ensures |r| <= |s| && r == s[|s| - |r|..]
  {
    if s != "" && s[0] == '"' then UnquoteLeft(s[1..]) else s
  }

  function UnquoteRight(s: string): (r: string)
    ensures r != "" ==> r[|r| - 1] != '"'
    ensures |r| <= |s| && r == s[..|r|]
  {
    if s != "" && s[|s| - 1] == '"' then UnquoteRight(s[..|s| - 1]) else s
  }

  /** `trim_matches('"')` */
  function Unquote(s: string): string {
    UnquoteRight(UnquoteLeft(s))
  }

  /** `split(c)`: never empty. */
  function Split(s: string, c: char): (r: seq<string>)
    ensures r != []
  {
    if s == "" then [""] else
    var r := Split(s[1..], c);
    if s[0] == c then [""] + r else [[s[0]] + r[0]] + r[1..]
  }

  /** The text before the first c. */
  function Before(s: string, c: char): string {
    Split(s, c)[0]
  }

  lemma {:induction false} SplitPart(a: string, rest: string, c: char)
    requires Without(a, c)
    ensures Split(a + ([c] + rest), c) == [a] + Split(rest, c)
  {
    if a == "" {
      assert a + ([c] + rest) == [c] + rest;
    } else {
      var s, r := a + ([c] + rest), [a[1..]] + Split(rest, c);
      assert s[1..] == a[1..] + ([c] + rest);
      SplitPart(a[1..], rest, c);
      assert r[1..] == Split(rest, c) && [s[0]] + r[0] == a;
    }
  }

  lemma {:induction false} SplitWhole(a: string, c: char)
    requires Without(a, c)
    ensures Split(a, c) == [a]
  {
    if a != "" {
      SplitWhole(a[1..], c);
      assert [a[0]] + a[1..] == a;
    }
  }

  /** The parts hold no separator, and nothing that the text did not hold. */
  lemma {:induction false} SplitWithout(s: string, c: char, d: char)
    requires d == c || Without(s, d)
    ensures forall part | part in Split(s, c) :: Without(part, d)
  {
    if s != "" {
      SplitWithout(s[1..], c, d);
      var r := Split(s[1..], c);
      assert r[0] in r && forall part | part in r[1..] :: part in r;
      var first := if s[0] == c then "" else [s[0]] + r[0];
      assert Without(first, d);
      assert forall part | part in Split(s, c) :: part == first || part in r;
    }
  }
}
