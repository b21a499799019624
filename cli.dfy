/** The command line tool's parsing and formatting (scanner/main.go): the
    port specification, the target list, the plain-text rendering of
    results and the choice of output encoding. `fmt.Sscanf` is modelled for
    the two formats the tool uses; file contents and the JSON encoder's
    output are inputs. */
module Cli {
  import opened Strings
  import opened Collections
  import SubdomainEnumeration
  import PortScanning
  import HttpProbing

  const MinInt64 := -0x8000_0000_0000_0000
  const MaxInt64 := 0x7fff_ffff_ffff_ffff

  predicate IsDigit(c: char)
  {
    '0' <= c <= '9'
  }

  predicate AllDigits(d: string)
  {
    forall m :: 0 <= m < |d| ==> IsDigit(d[m])
  }

  /** The end of the run of decimal digits that starts at `i`. */
  function DigitRun(s: string, i: nat): (k: nat)
    requires i <= |s|
    ensures i <= k <= |s|
    ensures forall m :: i <= m < k ==> IsDigit(s[m])
    ensures k == |s| || !IsDigit(s[k])
    decreases |s| - i
  {
    if i < |s| && IsDigit(s[i]) then DigitRun(s, i + 1) else i
  }

  /** The white space the scanner skips before a number; a newline is not
      skipped, because `Sscanf` treats it as an error. */
  function SkipBlanks(s: string, i: nat): (k: nat)
    requires i <= |s|
    ensures i <= k <= |s|
    ensures forall m :: i <= m < k ==> IsSpace(s[m]) && s[m] != '\n'
    ensures k == |s| || !IsSpace(s[k]) || s[k] == '\n'
    decreases |s| - i
  {
    if i < |s| && IsSpace(s[i]) && s[i] != '\n' then SkipBlanks(s, i + 1) else i
  }

  /** The value of a string of decimal digits. */
  function DecimalValue(d: string): (v: int)
    ensures AllDigits(d) ==> v >= 0
  {
    if d == [] then 0 else DecimalValue(d[..|d| - 1]) * 10 + (d[|d| - 1] as int - '0' as int)
  }

  /** Where the digits of a number start: past an optional sign. */
  function SignEnd(s: string, j: nat): (k: nat)
    requires j < |s|
    ensures j <= k <= j + 1 <= |s|
  {
    if s[j] == '+' || s[j] == '-' then j + 1 else j
  }

  /** A scanned magnitude with its sign, kept when it fits in 64 bits. */
  function Signed(negative: bool, magnitude: int, e: nat): (r: Option<(int, nat)>)
    ensures r.Some? ==> MinInt64 <= r.value.0 <= MaxInt64 && r.value.1 == e
  {
    var v := if negative then -magnitude else magnitude;
    if MinInt64 <= v <= MaxInt64 then Some((v, e)) else None
  }

  /** One `%d` verb of `fmt.Sscanf` at the start of `s`: blanks are skipped,
      an optional sign and at least one decimal digit are read, as many
      digits as follow, and the value must fit in 64 bits. The result is the
      value and the number of characters consumed, or `None` when the scan
      fails. */
  function ScanInt(s: string): (r: Option<(int, nat)>)
    ensures r.Some? ==> MinInt64 <= r.value.0 <= MaxInt64
    ensures r.Some? ==> 0 < r.value.1 <= |s| && IsDigit(s[r.value.1 - 1])
    ensures r.Some? ==> r.value.1 == |s| || !IsDigit(s[r.value.1])
  {
    var j := SkipBlanks(s, 0);
    if j == |s| || s[j] == '\n' then None
    else
      var k := SignEnd(s, j);
      var e := DigitRun(s, k);
      if e == k then None else Signed(s[j] == '-', DecimalValue(s[k..e]), e)
  }

  /** `fmt.Sscanf(part, "%d-%d", &start, &end)` on zero-initialised
      variables: a failed scan leaves the variable it was filling, and every
      later one, at 0. */
  function ScanRange(part: string): (bounds: (int, int))
    ensures ScanInt(part).None? ==> bounds == (0, 0)
    ensures ScanInt(part).Some? ==> bounds.0 == ScanInt(part).value.0
  {
    match ScanInt(part)
    case None => (0, 0)
    case Some((start, j)) =>
      if j < |part| && part[j] == '-' then
        match ScanInt(part[j + 1..])
        case None => (start, 0)
        case Some((end, _)) => (start, end)
      else (start, 0)
  }

  /** `fmt.Sscanf(part, "%d", &p)` on a zero-initialised `p`. */
  function ScanSingle(part: string): (p: int)
    ensures ScanInt(part).None? ==> p == 0
    ensures ScanInt(part).Some? ==> p == ScanInt(part).value.0
  {
    match ScanInt(part)
    case None => 0
    case Some((p, _)) => p
  }

  /** The ports from `a` to `b` inclusive, ascending. */
  function Interval(a: int, b: int): (ps: seq<int>)
    ensures |ps| == if b < a then 0 else b - a + 1
    ensures forall k :: 0 <= k < |ps| ==> ps[k] == a + k
    decreases b - a
  {
    if b < a then [] else Interval(a, b - 1) + [b]
  }

  /** The ports one comma-separated part gives: a trimmed part with a "-"
      is a range, any other is a single port kept when positive. */
  function PartPorts(part: string): seq<int>
  {
    var t := TrimSpace(part);
    if '-' in t then
      var bounds := ScanRange(t);
      Interval(bounds.0, bounds.1)
    else
      var p := ScanSingle(t);
      if p > 0 then [p] else []
  }

  /** The ports of the parts, part after part. */
  function PartsPorts(parts: seq<string>): seq<int>
  {
    if parts == [] then [] else PartsPorts(parts[..|parts| - 1]) + PartPorts(parts[|parts| - 1])
  }

  function PortsOf(spec: string): seq<int>
  {
    PartsPorts(Split(spec, ','))
  }

  lemma PartsPortsStep(parts: seq<string>, i: nat)
    requires i < |parts|
    ensures PartsPorts(parts[..i + 1]) == PartsPorts(parts[..i]) + PartPorts(parts[i])
  {
    assert parts[..i + 1] == parts[..i] + [parts[i]];
  }

  /** The inner loop of `parsePorts`: every port from `start` to `end`,
      appended in ascending order. */
  method AppendRange(ports: seq<int>, start: int, end: int) returns (ports': seq<int>)
    ensures ports' == ports + Interval(start, end)
  {
    ports' := ports;
    var p := start;
    while p <= end
      invariant start <= p && (p <= end + 1 || p == start)
      invariant ports' == ports + Interval(start, p - 1)
      decreases end - p
    {
      ports' := ports' + [p];
      p := p + 1;
    }
  }

  /** `parsePorts`: each part in order, a range appended port by port. */
  method ParsePorts(spec: string) returns (ports: seq<int>)
    ensures ports == PortsOf(spec)
  {
    ports := [];
    var parts := Split(spec, ',');
    for i := 0 to |parts|
      invariant ports == PartsPorts(parts[..i])
    {
      var part := TrimSpace(parts[i]);
      if '-' in part {
        var bounds := ScanRange(part);
        ports := AppendRange(ports, bounds.0, bounds.1);
      } else {
        var p := ScanSingle(part);
        if p > 0 {
          ports := ports + [p];
        }
      }
      PartsPortsStep(parts, i);
    }
    assert parts[..|parts|] == parts;
  }

  /** Splicing two specifications with a comma splices their ports: the
      output keeps the order of the parts and repeats a port as often as
      the parts give it. */
  lemma {:induction false} PartsPortsAppend(a: seq<string>, b: seq<string>)
    ensures PartsPorts(a + b) == PartsPorts(a) + PartsPorts(b)
    decreases |b|
  {
    if b == [] {
      assert a + b == a;
    } else {
      var init, last := b[..|b| - 1], b[|b| - 1];
      PartsPortsAppend(a, init);
      AppendInit(a, b);
      assert PartsPorts(a + b) == PartsPorts(a + init) + PartPorts(last);
      assert PartsPorts(b) == PartsPorts(init) + PartPorts(last);
      AppendAssoc(PartsPorts(a), PartsPorts(init), PartPorts(last));
    }
  }

  /** Joining two comma-free specifications with a comma concatenates
      their ports. */
  lemma PortsOfJoin(s1: string, s2: string)
    requires ',' !in s1
    ensures PortsOf(s1 + [','] + s2) == PortsOf(s1) + PortsOf(s2)
  {
    SplitAppend(s1, s2, ',');
    PartsPortsAppend(Split(s1, ','), Split(s2, ','));
  }

  /** The decimal numeral of a natural number. */
  function NatDecimal(n: nat): (d: string)
    ensures d != [] && AllDigits(d)
    ensures DecimalValue(d) == n
  {
    var last := ['0' + (n % 10) as char];
    if n < 10 then last
    else
      var init := NatDecimal(n / 10);
      assert (init + last)[..|init + last| - 1] == init;
      init + last
  }

  /** `%d` formatting of an integer. */
  function Decimal(n: int): (d: string)
    ensures d != []
  {
    if n < 0 then "-" + NatDecimal(-n) else NatDecimal(n)
  }

  lemma DigitRunOver(s: string, lo: nat, hi: nat)
    requires lo <= hi <= |s|
    requires forall m :: lo <= m < hi ==> IsDigit(s[m])
    requires hi == |s| || !IsDigit(s[hi])
    ensures DigitRun(s, lo) == hi
    decreases hi - lo
  {
    if lo < hi {
      DigitRunOver(s, lo + 1, hi);
    }
  }

  /** A numeral at the start of `s`, with a sign when `k` is 1, scans as
      the signed value of its digits. */
  lemma ScanNumeral(s: string, k: nat, e: nat)
    requires k <= 1 && k < e <= |s|
    requires k == 1 ==> s[0] == '-'
    requires forall m :: k <= m < e ==> IsDigit(s[m])
    requires e == |s| || !IsDigit(s[e])
    ensures ScanInt(s) == Signed(k == 1, DecimalValue(s[k..e]), e)
  {
    assert !IsSpace(s[0]) by {
      assert s[0] == '-' || IsDigit(s[0]);
    }
    assert SkipBlanks(s, 0) == 0;
    assert SignEnd(s, 0) == k;
    DigitRunOver(s, k, e);
  }

  /** The digits of `Decimal(n)` past its sign are those of its magnitude. */
  lemma DecimalDigits(n: int, s: string, k: nat)
    requires |Decimal(n)| <= |s| && s[..|Decimal(n)|] == Decimal(n)
    requires k == if n < 0 then 1 else 0
    ensures k < |Decimal(n)|
    ensures s[k..|Decimal(n)|] == NatDecimal(if n < 0 then -n else n)
    ensures k == 1 ==> s[0] == '-'
  {
    var dn := Decimal(n);
    assert s[0] == dn[0];
    assert forall m :: k <= m < |dn| ==> s[m] == dn[m];
  }

  /** The scanner reads back what `%d` formatting writes, for every value in
      64-bit range, whatever non-digit text follows. */
  lemma {:induction false} ScanDecimal(n: int, s: string)
    requires MinInt64 <= n <= MaxInt64
    requires |Decimal(n)| <= |s| && s[..|Decimal(n)|] == Decimal(n)
    requires |s| == |Decimal(n)| || !IsDigit(s[|Decimal(n)|])
    ensures ScanInt(s) == Some((n, |Decimal(n)|))
  {
    var e := |Decimal(n)|;
    var k := if n < 0 then 1 else 0;
    var d := NatDecimal(if n < 0 then -n else n);
    DecimalDigits(n, s, k);
    assert forall m :: k <= m < e ==> IsDigit(s[m]) by {
      assert forall m :: k <= m < e ==> s[m] == d[m - k];
    }
    ScanNumeral(s, k, e);
  }

  /** A numeral alone scans back to its value. */
  lemma ScanDecimalAlone(n: int)
    requires MinInt64 <= n <= MaxInt64
    ensures ScanInt(Decimal(n)) == Some((n, |Decimal(n)|))
  {
    var d := Decimal(n);
    assert d[..|d|] == d;
    ScanDecimal(n, d);
  }

  /** A positive port written out is a part that gives that port alone. */
  lemma SinglePortRoundTrip(p: int)
    requires 0 < p <= MaxInt64
    ensures PartPorts(Decimal(p)) == [p]
  {
    var d := Decimal(p);
    ScanDecimalAlone(p);
    TrimSpaceOfTrimmed(d);
    assert '-' !in d by {
      assert AllDigits(d);
    }
  }

  /** "a-b" with non-negative bounds gives a..b inclusive, ascending, and
      nothing when a > b. */
  lemma RangeRoundTrip(a: int, b: int)
    requires 0 <= a <= MaxInt64 && 0 <= b <= MaxInt64
    ensures PartPorts(Decimal(a) + "-" + Decimal(b)) == Interval(a, b)
    ensures a > b ==> PartPorts(Decimal(a) + "-" + Decimal(b)) == []
  {
    var da, db := Decimal(a), Decimal(b);
    var t := da + "-" + db;
    assert t[..|da|] == da;
    assert t[|da|] == '-';
    ScanDecimal(a, t);
    assert t[|da| + 1..] == db;
    ScanDecimalAlone(b);
    assert ScanRange(t) == (a, b);
    assert t[0] == da[0] && t[|t| - 1] == db[|db| - 1];
    TrimSpaceOfTrimmed(t);
    assert '-' in t;
  }

  /** The scan is not filtered for sign: "-80" reads as the range from -80
      to 0, since the sign is taken for the start and the end stays 0. */
  lemma NegativePortIsARange(n: int)
    requires 0 < n <= MaxInt64
    ensures PartPorts(Decimal(-n)) == Interval(-n, 0)
  {
    var t := Decimal(-n);
    ScanDecimalAlone(-n);
    assert t[0] == '-';
    TrimSpaceOfTrimmed(t);
  }

  /** A part with a "-" whose start does not scan gives the single port 0. */
  lemma MalformedRangeGivesZero(part: string)
    requires '-' in TrimSpace(part) && ScanInt(TrimSpace(part)).None?
    ensures PartPorts(part) == [0]
  {
  }

  // ---------------------------------------------------------------------
  // Targets

  /** What the target argument names on disk: nothing (the argument is a
      host), a path that cannot be read, or a file with its contents. */
  datatype TargetFile = NoFile | Unreadable | Contents(data: string)

  /** `parseTargets`: the argument itself unless it names a readable file;
      then the file's trimmed lines that are neither blank nor "#" comments. */
  function Targets(target: string, file: TargetFile): seq<string>
  {
    if file.Contents? then Mapped(Split(TrimSpace(file.data), '\n'), SubdomainEnumeration.ListEntry)
    else [target]
  }

  method ParseTargets(target: string, file: TargetFile) returns (targets: seq<string>)
    ensures targets == Targets(target, file)
  {
    if !file.Contents? {
      return [target];
    }
    var lines := Split(TrimSpace(file.data), '\n');
    targets := MapAll(lines, SubdomainEnumeration.ListEntry);
  }

  /** Without a readable file the target list is the argument alone; with
      one, a target is a trimmed non-blank, non-comment line of the file, and
      each such line is a target. */
  lemma TargetsSpec(target: string, file: TargetFile, t: string)
    ensures !file.Contents? ==> Targets(target, file) == [target]
    ensures file.Contents? ==> t in Targets(target, file) ==>
      t != "" && !HasPrefix(t, "#") &&
      exists i :: 0 <= i < |Split(TrimSpace(file.data), '\n')| && TrimSpace(Split(TrimSpace(file.data), '\n')[i]) == t
    ensures file.Contents? ==> t != "" && !HasPrefix(t, "#") ==>
      (exists i :: 0 <= i < |Split(TrimSpace(file.data), '\n')| && TrimSpace(Split(TrimSpace(file.data), '\n')[i]) == t) ==>
      t in Targets(target, file)
  {
    if file.Contents? {
      var lines := Split(TrimSpace(file.data), '\n');
      if t in Mapped(lines, SubdomainEnumeration.ListEntry) {
        MappedSource(lines, SubdomainEnumeration.ListEntry, t);
      }
      if t != "" && !HasPrefix(t, "#") && exists i :: 0 <= i < |lines| && TrimSpace(lines[i]) == t {
        var i :| 0 <= i < |lines| && TrimSpace(lines[i]) == t;
        MappedMember(lines, SubdomainEnumeration.ListEntry, i);
      }
    }
  }

  /** A readable file of nothing but white space gives no targets at all,
      not the argument. */
  lemma BlankFileGivesNoTargets(target: string, data: string)
    requires forall k :: 0 <= k < |data| ==> IsSpace(data[k])
    ensures Targets(target, Contents(data)) == []
  {
    TrimSpaceEmpty(data);
    SplitNoSeparator("", '\n');
    assert Split(TrimSpace(data), '\n') == [""];
    assert [""][..0] == [];
  }

  // ---------------------------------------------------------------------
  // Plain-text output

  /** The kinds of result the tool prints; `Other` stands for any other
      value, given by its JSON encoding. */
  datatype Records =
    | Lines(lines: seq<string>)
    | Subdomains(subdomains: seq<SubdomainEnumeration.Result>)
    | Ports(ports: seq<PortScanning.ScanResult>)
    | Probes(probes: seq<HttpProbing.ProbeResult>)
    | Other(json: string)

  /** `"%s:%d %s"` of host, port and service. */
  function PortLine(r: PortScanning.ScanResult): string
  {
    r.host + ":" + Decimal(r.port) + " " + r.service
  }

  function SubdomainLine(r: SubdomainEnumeration.Result): Option<string>
  {
    Some(r.subdomain)
  }

  function PortLineOf(r: PortScanning.ScanResult): Option<string>
  {
    Some(PortLine(r))
  }

  function ProbeLine(r: HttpProbing.ProbeResult): Option<string>
  {
    Some(r.url)
  }

  /** One line per record, in order. */
  function TextLines(records: Records): seq<string>
    requires !records.Other?
  {
    match records
    case Lines(lines) => lines
    case Subdomains(rs) => Mapped(rs, SubdomainLine)
    case Ports(rs) => Mapped(rs, PortLineOf)
    case Probes(rs) => Mapped(rs, ProbeLine)
  }

  /** `formatAsText`: the lines joined by newlines; any other value is its
      JSON encoding. */
  function Text(records: Records): string
  {
    if records.Other? then records.json else Join(TextLines(records), '\n')
  }

  method FormatAsText(records: Records) returns (text: string)
    ensures text == Text(records)
  {
    var lines: seq<string>;
    match records {
      case Other(json) => return json;
      case Lines(ls) => lines := ls;
      case Subdomains(rs) => lines := MapAll(rs, SubdomainLine);
      case Ports(rs) => lines := MapAll(rs, PortLineOf);
      case Probes(rs) => lines := MapAll(rs, ProbeLine);
    }
    text := Join(lines, '\n');
  }

  /** There is one line per record and line `i` renders record `i`. */
  lemma TextLinesSpec(records: Records)
    requires !records.Other?
    ensures records.Subdomains? ==> |TextLines(records)| == |records.subdomains|
    ensures records.Subdomains? ==>
      forall i :: 0 <= i < |records.subdomains| ==> TextLines(records)[i] == records.subdomains[i].subdomain
    ensures records.Ports? ==> |TextLines(records)| == |records.ports|
    ensures records.Ports? ==>
      forall i :: 0 <= i < |records.ports| ==> TextLines(records)[i] == PortLine(records.ports[i])
    ensures records.Probes? ==> |TextLines(records)| == |records.probes|
    ensures records.Probes? ==>
      forall i :: 0 <= i < |records.probes| ==> TextLines(records)[i] == records.probes[i].url
  {
    match records
    case Lines(_) =>
    case Subdomains(rs) => MappedTotal(rs, SubdomainLine);
    case Ports(rs) => MappedTotal(rs, PortLineOf);
    case Probes(rs) => MappedTotal(rs, ProbeLine);
  }

  /** When no line holds a newline and there is at least one, splitting the
      text at newlines gives the lines back. */
  lemma TextSplitsIntoLines(records: Records)
    requires !records.Other?
    requires |TextLines(records)| >= 1
    requires forall i :: 0 <= i < |TextLines(records)| ==> '\n' !in TextLines(records)[i]
    ensures Split(Text(records), '\n') == TextLines(records)
  {
    SplitJoin(TextLines(records), '\n');
  }

  /** The port number sits between the first ":" after the host and the
      space before the service, so a port line of a host without ":" splits
      back into its host and its port. */
  lemma PortLineFields(r: PortScanning.ScanResult)
    requires ':' !in r.host && MinInt64 <= r.port <= MaxInt64
    ensures Split(PortLine(r), ':')[0] == r.host
    ensures ScanInt(PortLine(r)[|r.host| + 1..]) == Some((r.port, |Decimal(r.port)|))
  {
    var d := Decimal(r.port);
    var rest := " " + r.service;
    var line := PortLine(r);
    assert line == r.host + [':'] + (d + rest);
    SplitAppend(r.host, d + rest, ':');
    SplitNoSeparator(r.host, ':');
    var tail := line[|r.host| + 1..];
    assert tail == d + rest;
    assert tail[..|d|] == d;
    assert tail[|d|] == ' ';
    ScanDecimal(r.port, tail);
  }

  // ---------------------------------------------------------------------
  // Output

  /** Where the output goes, and what is written: a file, standard output
      (with `Println`'s newline), or nothing when encoding failed and the
      tool exits with status 1. */
  datatype Output = Written(path: string, data: string) | Printed(data: string) | Failed

  const FormatJson := "json"
  const FormatTxt := "txt"

  /** `outputResults`: "txt" gives the plain text and every other format
      the indented JSON encoding, which `json` gives or fails to give. */
  function OutputOf(records: Records, outputFile: string, format: string, json: Option<string>): (out: Output)
    ensures format == FormatTxt ==> !out.Failed?
    ensures format != FormatTxt && json.None? ==> out.Failed?
    ensures out.Written? <==> outputFile != "" && (format == FormatTxt || json.Some?)
    ensures out.Written? ==> out.path == outputFile
    ensures out.Written? && format == FormatTxt ==> out.data == Text(records)
    ensures out.Printed? && format == FormatTxt ==> out.data == Text(records) + "\n"
    ensures !out.Failed? && format != FormatTxt ==>
      out == (if outputFile != "" then Written(outputFile, json.value) else Printed(json.value + "\n"))
  {
    var encoded := if format == FormatTxt then Some(Text(records)) else json;
    if encoded.None? then Failed
    else if outputFile != "" then Written(outputFile, encoded.value)
    else Printed(encoded.value + "\n")
  }

  /** An unknown format falls back to JSON, as "json" itself does. */
  lemma UnknownFormatIsJson(records: Records, outputFile: string, format: string, json: Option<string>)
    requires format != FormatTxt
    ensures OutputOf(records, outputFile, format, json) == OutputOf(records, outputFile, FormatJson, json)
  {
  }
}
