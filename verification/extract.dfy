/** dockerfile_utils.rs: reading a Dockerfile back, field by field. */
module Extract {
  import opened Text
  import opened Patterns

  function ExtractVersion(content: string): Option<string> {
    var found := Captures(content, Version);
    if found == [] || found[0] == [] then None else Some(found[0][0])
  }

  function First(found: seq<seq<string>>, default: string): string {
    if found == [] || found[0] == [] then default else found[0][0]
  }

  function Last(found: seq<seq<string>>, default: string): string {
    if found == [] || found[|found| - 1] == [] then default else found[|found| - 1][0]
  }

  function ExtractBase(content: string): string {
    Last(Captures(content, From), "scratch")
  }

  function ExtractUser(content: string): string {
    Last(Captures(content, User), "65532:65532")
  }

  function ExtractStop(content: string): string {
    First(Captures(content, Stop), "SIGTERM")
  }

  // --- Entrypoint ---------------------------------------------------------------

  function NonEmpty(parts: seq<string>): (r: seq<string>)
    ensures forall a | a in r :: a != "" && a in parts
  {
    if parts == [] then [] else (if parts[0] == "" then [] else [parts[0]]) + NonEmpty(parts[1..])
  }

  function Cleaned(parts: seq<string>): (r: seq<string>)
    ensures |r| == |parts| && forall i | 0 <= i < |parts| :: r[i] == Unquote(Trim(parts[i]))
  {
    seq(|parts|, i requires 0 <= i < |parts| => Unquote(Trim(parts[i])))
  }

  function ParseArgs(list: string): seq<string> {
    NonEmpty(Cleaned(Split(list, ',')))
  }

  function ExtractEntrypoint(content: string): seq<string> {
    var found := Captures(content, Entrypoint);
    if found == [] || found[0] == [] then ["/app/entrypoint"] else ParseArgs(found[0][0])
  }

  // --- Ports ----------------------------------------------------------------------

  /** `split_whitespace` */
  function Words(s: string): (r: seq<string>)
    decreases |s|
  {
    if s == "" then [] else
    if White(s[0]) then Words(s[1..]) else
    var n := Run(s, NonBlank);
    [s[..n]] + Words(s[n..])
  }

  function Value(digits: string): nat
    requires forall i | 0 <= i < |digits| :: Digit(digits[i])
  {
    if digits == "" then 0
    else 10 * Value(digits[..|digits| - 1]) + DigitValue(digits[|digits| - 1])
  }

  function DigitValue(c: char): nat
    requires Digit(c)
  {
    c as int - '0' as int
  }

  /** `parse::<u16>`: an optional plus sign and digits, at most 65535. */
  function ParseU16(s: string): (n: Option<nat>)
    ensures n.Some? ==> n.value < 0x1_0000
  {
    var d := if s != "" && s[0] == '+' then s[1..] else s;
    if d != "" && (forall i | 0 <= i < |d| :: Digit(d[i])) && Value(d) < 0x1_0000 then Some(Value(d)) else None
  }

  /** `to_string` of an unsigned number. */
  function Decimal(n: nat): (s: string)
    ensures s != "" && forall i | 0 <= i < |s| :: Digit(s[i])
  {
    (if n < 10 then "" else Decimal(n / 10)) + [(n % 10 + '0' as int) as char]
  }

  predicate Canonical(port: string) {
    ParseU16(port).Some? && port == Decimal(ParseU16(port).value)
  }

  function PortOf(part: string): seq<string> {
    match ParseU16(Before(part, '/'))
    case None => []
    case Some(n) => [Decimal(n)]
  }

  function PortsIn(parts: seq<string>): (r: seq<string>)
  {
    if parts == [] then [] else PortOf(parts[0]) + PortsIn(parts[1..])
  }

  function PortsFound(found: seq<seq<string>>): seq<string> {
    if found == [] then [] else
    (if found[0] == [] then [] else PortsIn(Words(found[0][0]))) + PortsFound(found[1..])
  }

  function PortsOf(content: string): seq<string> {
    PortsFound(Captures(content, Expose))
  }

  /** The order in which strings sort. */
  predicate Less(a: string, b: string) {
    b != "" && (a == "" || a[0] < b[0] || (a[0] == b[0] && Less(a[1..], b[1..])))
  }

  ghost predicate Ascending(s: seq<string>) {
    forall i, j | 0 <= i < j < |s| :: Less(s[i], s[j])
  }

  lemma {:induction false} LessTotal(a: string, b: string)
    ensures a == b || Less(a, b) || Less(b, a)
  {
    if a != "" && b != "" && a[0] == b[0] {
      LessTotal(a[1..], b[1..]);
      assert a == [a[0]] + a[1..] && b == [b[0]] + b[1..];
    }
  }

  lemma {:induction false} LessTransitive(a: string, b: string, c: string)
    requires Less(a, b) && Less(b, c)
    ensures Less(a, c)
  {
    if a != "" && a[0] == b[0] == c[0] {
      LessTransitive(a[1..], b[1..], c[1..]);
    }
  }

  lemma {:induction false} LessIrreflexive(a: string)
    ensures !Less(a, a)
  {
    if a != "" {
      LessIrreflexive(a[1..]);
    }
  }

  /** Puts one string in its place among sorted ones, unless it is there already. */
  method Place(sorted: seq<string>, x: string) returns (r: seq<string>)
    requires Ascending(sorted)
    ensures Ascending(r)
    ensures forall y :: y in r <==> y == x || y in sorted
  {
    var i := 0;
    while i < |sorted| && Less(sorted[i], x)
      invariant 0 <= i <= |sorted|
      invariant forall j | 0 <= j < i :: Less(sorted[j], x)
    {
      i := i + 1;
    }
    if i < |sorted| && sorted[i] == x {
      return sorted;
    }
    r := sorted[..i] + [x] + sorted[i..];
    forall j | i <= j < |sorted| ensures Less(x, sorted[j]) {
      LessTotal(sorted[i], x);
      if i < j {
        LessTransitive(x, sorted[i], sorted[j]);
      }
    }
  }

  lemma NothingAscends()
    ensures Ascending([])
  {
  }

  /** The inner loop: the ports of one EXPOSE line. */
  method CollectParts(parts: seq<string>) returns (ports: seq<string>)
    ensures ports == PortsIn(parts)
  {
    hide PortOf;
    ports := [];
    for j := 0 to |parts|
      invariant PortsIn(parts) == ports + PortsIn(parts[j..])
    {
      assert parts[j..][1..] == parts[j + 1..];
      ports := ports + PortOf(parts[j]);
    }
  }

  method CollectPorts(content: string) returns (all: seq<string>)
    ensures all == PortsOf(content)
  {
    hide Captures;
    hide PortsIn;
    hide Words;
    var found := Captures(content, Expose);
    all := [];
    for i := 0 to |found|
      invariant PortsOf(content) == all + PortsFound(found[i..])
    {
      assert found[i..][1..] == found[i + 1..];
      if found[i] != [] {
        ghost var before := all;
        var ports := CollectParts(Words(found[i][0]));
        all := all + ports;
        assert all + PortsFound(found[i + 1..]) == before + PortsFound(found[i..]);
      }
    }
  }

  /** `extract_ports`: collect over all matches, then sort and drop repetitions. */
  method ExtractPorts(content: string) returns (ports: seq<string>)
    ensures Ascending(ports)
    ensures forall p :: p in ports <==> p in PortsOf(content)
  {
    hide PortsOf;
    hide Ascending;
    hide Less;
    var all := CollectPorts(content);
    ports := [];
    NothingAscends();
    for i := 0 to |all|
      invariant Ascending(ports)
      invariant forall p :: p in ports <==> p in all[..i]
    {
      assert all[..i + 1] == all[..i] + [all[i]];
      ports := Place(ports, all[i]);
    }
    assert all[..|all|] == all;
  }

  // --- Labels -----------------------------------------------------------------------

  predicate Kept(key: string) {
    '.' in key && !("ARG" <= key)
  }

  /** One turn of the loop: a later pair replaces an earlier one with its key. */
  function Inserted(labels: map<string, string>, pair: seq<string>): map<string, string> {
    if |pair| == 2 && Kept(pair[0]) then labels[pair[0] := pair[1]] else labels
  }

  function Folded(labels: map<string, string>, found: seq<seq<string>>): map<string, string>
    decreases |found|
  {
    if found == [] then labels else Folded(Inserted(labels, found[0]), found[1..])
  }

  function LabelsOf(content: string): map<string, string> {
    Folded(map[], Captures(content, Label))
  }

  /** `extract_all_labels` */
  method ExtractAllLabels(content: string) returns (labels: map<string, string>)
    ensures labels == LabelsOf(content)
  {
    labels := map[];
    var found := Captures(content, Label);
    for i := 0 to |found|
      invariant Folded(labels, found[i..]) == LabelsOf(content)
    {
      assert found[i..][1..] == found[i + 1..];
      if |found[i]| == 2 {
        var key, val := found[i][0], found[i][1];
        if '.' in key && !("ARG" <= key) {
          labels := labels[key := val];
        }
      }
    }
  }

  /** `extract_source_type`: the first tell-tale command decides. */
  function ExtractSourceType(content: string): string {
    if Has(content, "apk add") || Has(content, "apt-get install") then "package-manager"
    else if Has(content, "git clone") then "source-build"
    else if Has(content, "curl ") || Has(content, "wget ") then "binary-download"
    else "copy-from"
  }
}
