/** Versions as the semver crate reads them, in the order of section 11 of Semantic Versioning 2.0.0. */
module Semver {
  import opened Text
  import Extract

  datatype Identifier = Number(value: nat) | Word(text: string)

  datatype Version = Version(major: nat, minor: nat, patch: nat, pre: seq<Identifier>, build: string)

  // --- Reading ---------------------------------------------------------------------------

  /** A number without a leading zero. */
  predicate Numeric(s: string) {
    Numeral(s) && (|s| == 1 || s[0] != '0')
  }

  predicate Alphanumeric(s: string) {
    s != "" && forall i | 0 <= i < |s| :: Digit(s[i]) || Capital(s[i]) || Small(s[i]) || s[i] == '-'
  }

  /** A number of 64 bits. */
  function ParseNumber(s: string): Option<nat> {
    if Numeric(s) && Extract.Value(s) < 0x1_0000_0000_0000_0000 then Some(Extract.Value(s)) else None
  }

  function ParseIdentifier(s: string): Option<Identifier> {
    if !Alphanumeric(s) then None
    else if !Numeral(s) then Some(Word(s))
    else if Numeric(s) then Some(Number(Extract.Value(s))) else None
  }

  function ParsePre(parts: seq<string>): Option<seq<Identifier>> {
    if parts == [] then Some([]) else
    match (ParseIdentifier(parts[0]), ParsePre(parts[1..]))
    case (Some(first), Some(rest)) => Some([first] + rest)
    case _ => None
  }

  /** The position of the first c, or the length. */
  function Find(s: string, c: char): (n: nat)
    ensures n <= |s| && Without(s[..n], c)
    ensures n < |s| ==> s[n] == c
  {
    if s == "" || s[0] == c then 0 else 1 + Find(s[1..], c)
  }

  /** `Version::parse` */
  function Parse(s: string): Option<Version> {
    var plus := Find(s, '+');
    var dash := Find(s[..plus], '-');
    var core := Split(s[..dash], '.');
    var pre := if dash < plus then ParsePre(Split(s[dash + 1..plus], '.')) else Some([]);
    if |core| != 3 || pre == None then None else
    if plus < |s| && !(forall part | part in Split(s[plus + 1..], '.') :: Alphanumeric(part)) then None else
    match (ParseNumber(core[0]), ParseNumber(core[1]), ParseNumber(core[2]))
    case (Some(major), Some(minor), Some(patch)) =>
      Some(Version(major, minor, patch, pre.value, if plus < |s| then s[plus + 1..] else ""))
    case _ => None
  }

  // --- The order ----------------------------------------------------------------------------

  function CompareNat(a: nat, b: nat): (c: int)
    ensures -1 <= c <= 1
  {
    if a < b then -1 else if a > b then 1 else 0
  }

  /** Numbers by value, below words; words by their characters. */
  function CompareIdentifier(a: Identifier, b: Identifier): (c: int)
    ensures -1 <= c <= 1
  {
    match (a, b)
    case (Number(x), Number(y)) => CompareNat(x, y)
    case (Number(_), Word(_)) => -1
    case (Word(_), Number(_)) => 1
    case (Word(x), Word(y)) => CompareText(x, y)
  }

  /** The first difference decides; the longer list is above its prefix. */
  function CompareIdentifiers(a: seq<Identifier>, b: seq<Identifier>): (c: int)
    ensures -1 <= c <= 1
  {
    if a == [] && b == [] then 0
    else if a == [] then -1
    else if b == [] then 1
    else if CompareIdentifier(a[0], b[0]) != 0 then CompareIdentifier(a[0], b[0])
    else CompareIdentifiers(a[1..], b[1..])
  }

  /** A pre-release is below its release. */
  function ComparePre(a: seq<Identifier>, b: seq<Identifier>): (c: int)
    ensures -1 <= c <= 1
  {
    if a == [] || b == [] then if a == b then 0 else if a == [] then 1 else -1 else CompareIdentifiers(a, b)
  }

  /** Precedence: the build text does not count. */
  function Compare(a: Version, b: Version): (c: int)
    ensures -1 <= c <= 1
  {
    if a.major != b.major then CompareNat(a.major, b.major)
    else if a.minor != b.minor then CompareNat(a.minor, b.minor)
    else if a.patch != b.patch then CompareNat(a.patch, b.patch)
    else ComparePre(a.pre, b.pre)
  }

  predicate AtMost(a: Version, b: Version) {
    Compare(a, b) <= 0
  }

  // --- It is a total order up to the build text ------------------------------------------------

  lemma IdentifierOrder(a: Identifier, b: Identifier)
    ensures CompareIdentifier(a, b) == -CompareIdentifier(b, a)
    ensures CompareIdentifier(a, b) == 0 <==> a == b
  {
    if a.Word? && b.Word? {
      TextOrder(a.text, b.text);
    }
  }

  lemma IdentifierTransitive(a: Identifier, b: Identifier, c: Identifier)
    requires CompareIdentifier(a, b) <= 0 && CompareIdentifier(b, c) <= 0
    ensures CompareIdentifier(a, c) <= 0
  {
    if a.Word? && b.Word? && c.Word? {
      TextTransitive(a.text, b.text, c.text);
    }
  }

  lemma {:induction false} IdentifiersOrder(a: seq<Identifier>, b: seq<Identifier>)
    ensures CompareIdentifiers(a, b) == -CompareIdentifiers(b, a)
    ensures CompareIdentifiers(a, b) == 0 <==> a == b
  {
    hide CompareIdentifier;
    if a != [] && b != [] {
      IdentifierOrder(a[0], b[0]);
      IdentifiersOrder(a[1..], b[1..]);
      assert a == [a[0]] + a[1..] && b == [b[0]] + b[1..];
    }
  }

  lemma {:induction false} IdentifiersTransitive(a: seq<Identifier>, b: seq<Identifier>, c: seq<Identifier>)
    requires CompareIdentifiers(a, b) <= 0 && CompareIdentifiers(b, c) <= 0
    ensures CompareIdentifiers(a, c) <= 0
  {
    hide CompareIdentifier;
    if a != [] && b != [] && c != [] {
      IdentifierOrder(a[0], b[0]);
      IdentifierOrder(b[0], c[0]);
      IdentifierOrder(a[0], c[0]);
      IdentifierTransitive(a[0], b[0], c[0]);
      if a[0] == b[0] == c[0] {
        IdentifiersTransitive(a[1..], b[1..], c[1..]);
      }
    }
  }

  /** Precedence is total, and equal only for versions that differ in the build text alone. */
  lemma PrecedenceIsTotal(a: Version, b: Version)
    ensures Compare(a, b) == -Compare(b, a)
    ensures Compare(a, b) == 0 <==> a.(build := b.build) == b
  {
    hide CompareIdentifiers;
    IdentifiersOrder(a.pre, b.pre);
  }

  lemma PrecedenceIsTransitive(a: Version, b: Version, c: Version)
    requires AtMost(a, b) && AtMost(b, c)
    ensures AtMost(a, c)
  {
    hide CompareIdentifiers;
    if a.pre != [] && b.pre != [] && c.pre != [] {
      if CompareIdentifiers(a.pre, b.pre) <= 0 && CompareIdentifiers(b.pre, c.pre) <= 0 {
        IdentifiersTransitive(a.pre, b.pre, c.pre);
      }
    }
  }

  /** It extends the order of (major, minor, patch), and a pre-release is below its release. */
  lemma PrecedenceExtends(a: Version, b: Version)
    requires AtMost(a, b)
    ensures a.major <= b.major
    ensures a.major == b.major ==> a.minor <= b.minor
    ensures a.major == b.major && a.minor == b.minor ==> a.patch <= b.patch
    ensures a.(build := "", pre := []) == b.(build := "", pre := []) && a.pre == [] ==> b.pre == []
  {
  }
}
