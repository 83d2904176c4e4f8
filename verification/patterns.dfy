/**
 The regular expressions of patterns.rs as scanners.

 `Match` is one attempt at the front of a text; `Captures` is `captures_iter`: leftmost, greedy,
 resumed where the previous match ended. Its first element is what `captures` returns.
 */
module Patterns {
  import opened Text

  datatype Pattern = Version | From | User | Expose | Entrypoint | Stop | Label

  /** A hit knows its capture groups and how many characters it used up. */
  datatype Attempt = Miss | Hit(groups: seq<string>, used: nat)

  /** The character classes repeated by `+` in the expressions. */
  datatype Class = Blank | NonBlank | Unquoted | PortList | InBracket | KeyChar | InQuote

  predicate In(c: char, k: Class) {
    match k
    case Blank => White(c)
    case NonBlank => !White(c)
    case Unquoted => !White(c) && c != '"'
    case PortList => Digit(c) || White(c) || c == '/'
    case InBracket => c != ']'
    case KeyChar => Capital(c) || Small(c) || Digit(c) || c == '_' || c == '.' || c == '-'
    case InQuote => c != '"'
  }

  /** The length of the longest prefix made of class k. */
  function Run(s: string, k: Class): (n: nat)
    ensures n <= |s|
    ensures forall j | 0 <= j < n :: In(s[j], k)
    ensures n < |s| ==> !In(s[n], k)
  {
    if s != "" && In(s[0], k) then 1 + Run(s[1..], k) else 0
  }

  function Keyword(p: Pattern): string {
    match p
    case Version => "ARG"
    case From => "FROM"
    case User => "USER"
    case Expose => "EXPOSE"
    case Entrypoint => "ENTRYPOINT"
    case Stop => "STOPSIGNAL"
    case Label => ""
  }

  /** `VERSION="?([^"\s]+)"?` */
  function VersionArg(s: string): (h: Attempt)
    ensures h.Hit? ==> 0 < h.used <= |s| && |h.groups| == 1
  {
    if !("VERSION=" <= s) then Miss else
    var q := if |s| > 8 && s[8] == '"' then 9 else 8;
    var n := Run(s[q..], Unquoted);
    if n == 0 then Miss else
    Hit([s[q..q + n]], if q + n < |s| && s[q + n] == '"' then q + n + 1 else q + n)
  }

  /** `([\d\s/]+)` behind n blanks: `\s+` gives one back when nothing else can feed the class. */
  function PortsArg(s: string, n: nat): (h: Attempt)
    requires 0 < n <= |s|
    ensures h.Hit? ==> 0 < h.used <= |s| && |h.groups| == 1
  {
    var m := Run(s[n..], PortList);
    if m > 0 then Hit([s[n..n + m]], n + m) else
    if n > 1 then Hit([s[n - 1..n]], n) else Miss
  }

  /** `\[([^\]]+)\]` */
  function BracketArg(s: string): (h: Attempt)
    ensures h.Hit? ==> 0 < h.used <= |s| && |h.groups| == 1
  {
    if s == "" || s[0] != '[' then Miss else
    var n := Run(s[1..], InBracket);
    if n == 0 || n + 1 == |s| then Miss else Hit([s[1..n + 1]], n + 2)
  }

  /** `(\S+)` */
  function WordArg(s: string): (h: Attempt)
    ensures h.Hit? ==> 0 < h.used <= |s| && |h.groups| == 1
  {
    var n := Run(s, NonBlank);
    if n == 0 then Miss else Hit([s[..n]], n)
  }

  function Skipping(n: nat, h: Attempt): Attempt {
    if h.Miss? then Miss else Hit(h.groups, n + h.used)
  }

  /** What follows a keyword: blanks and an argument. */
  function Argument(s: string, p: Pattern): (h: Attempt)
    ensures h.Hit? ==> h.used <= |s| && |h.groups| == 1
  {
    var n := Run(s, Blank);
    if n == 0 then Miss else
    match p
    case Version => Skipping(n, VersionArg(s[n..]))
    case Expose => PortsArg(s, n)
    case Entrypoint => Skipping(n, BracketArg(s[n..]))
    case From | User | Stop => Skipping(n, WordArg(s[n..]))
    case Label => Miss
  }

  /** `([a-zA-Z0-9_.-]+)="([^"]+)"` */
  function LabelPair(s: string): (h: Attempt)
    ensures h.Hit? ==> 0 < h.used <= |s| && |h.groups| == 2
  {
    var k := Run(s, KeyChar);
    if k == 0 || !("=\"" <= s[k..]) then Miss else
    var n := Run(s[k + 2..], InQuote);
    if n == 0 || k + 2 + n == |s| then Miss else Hit([s[..k], s[k + 2..k + 2 + n]], k + n + 3)
  }

  function Match(s: string, p: Pattern): (h: Attempt)
    ensures h.Hit? ==> 0 < h.used <= |s| && |h.groups| == if p.Label? then 2 else 1
  {
    if p.Label? then LabelPair(s) else
    var w := Keyword(p);
    if w <= s then Skipping(|w|, Argument(s[|w|..], p)) else Miss
  }

  function Captures(s: string, p: Pattern): seq<seq<string>>
    decreases |s|
  {
    if s == "" then [] else
    match Match(s, p)
    case Miss => Captures(s[1..], p)
    case Hit(groups, used) => [groups] + Captures(s[used..], p)
  }

  /** How far one step of the scan moves. */
  function Stride(s: string, p: Pattern): (n: nat)
    requires s != ""
    ensures 0 < n <= |s|
  {
    match Match(s, p)
    case Miss => 1
    case Hit(_, used) => used
  }

  function Found(s: string, p: Pattern): seq<seq<string>> {
    match Match(s, p)
    case Miss => []
    case Hit(groups, _) => [groups]
  }

  lemma CapturesStep(s: string, p: Pattern)
    requires s != ""
    ensures Captures(s, p) == Found(s, p) + Captures(s[Stride(s, p)..], p)
  {
    hide Match;
  }

  /** A run ends where its class does. */
  lemma {:induction false} RunIs(s: string, n: nat, k: Class)
    requires n <= |s|
    requires forall j | 0 <= j < n :: In(s[j], k)
    requires n < |s| ==> !In(s[n], k)
    ensures Run(s, k) == n
  {
    if n > 0 {
      RunIs(s[1..], n - 1, k);
    }
  }
}
