/** Service fingerprinting of one open port: the well-known-port table, banner
    cleaning, the ordered banner rules and the HTTP probe fallback. The bytes a
    banner read returns and the HTTP probe's response are oracles. */
module ServiceDetection {
  import opened Strings
  import opened Collections
  import opened PortScanning

  /** `wellKnownPort`: the table's name for a listed port, "" for any other. */
  function WellKnownPort(port: int): (name: string)
    ensures name != "unknown"
  {
    match port
    case 20 => "ftp-data"
    case 21 => "ftp"
    case 22 => "ssh"
    case 23 => "telnet"
    case 25 => "smtp"
    case 53 => "dns"
    case 67 => "dhcp"
    case 68 => "dhcp"
    case 69 => "tftp"
    case 80 => "http"
    case 110 => "pop3"
    case 111 => "rpcbind"
    case 123 => "ntp"
    case 135 => "msrpc"
    case 137 => "netbios-ns"
    case 138 => "netbios-dgm"
    case 139 => "netbios-ssn"
    case 143 => "imap"
    case 161 => "snmp"
    case 162 => "snmptrap"
    case 389 => "ldap"
    case 443 => "https"
    case 445 => "microsoft-ds"
    case 465 => "smtps"
    case 514 => "syslog"
    case 515 => "printer"
    case 587 => "submission"
    case 636 => "ldaps"
    case 873 => "rsync"
    case 993 => "imaps"
    case 995 => "pop3s"
    case 1080 => "socks"
    case 1433 => "mssql"
    case 1434 => "mssql-m"
    case 1521 => "oracle"
    case 1723 => "pptp"
    case 2049 => "nfs"
    case 2082 => "cpanel"
    case 2083 => "cpanel-ssl"
    case 2181 => "zookeeper"
    case 3306 => "mysql"
    case 3389 => "ms-wbt-server"
    case 4369 => "epmd"
    case 5432 => "postgresql"
    case 5672 => "amqp"
    case 5900 => "vnc"
    case 5984 => "couchdb"
    case 6379 => "redis"
    case 6667 => "irc"
    case 8000 => "http-alt"
    case 8080 => "http-proxy"
    case 8443 => "https-alt"
    case 8888 => "http-alt"
    case 9000 => "cslistener"
    case 9090 => "zeus-admin"
    case 9200 => "elasticsearch"
    case 9300 => "elasticsearch"
    case 11211 => "memcached"
    case 27017 => "mongodb"
    case 27018 => "mongodb"
    case 28017 => "mongodb-web"
    case _ => ""
  }

  /** `looksLikeHTTP`. */
  predicate LooksLikeHTTP(port: int)
  {
    port in {80, 443, 8000, 8080, 8443, 8888, 3000, 5000, 9000, 9090}
  }

  /** Of the HTTP-looking ports, only 3000 and 5000 are missing from the
      well-known table, so only they can still be "unknown" on the table's
      account. */
  lemma UnnamedHttpPorts(port: int)
    ensures LooksLikeHTTP(port) && WellKnownPort(port) == "" <==> port == 3000 || port == 5000
  {
  }

  /** The bytes `cleanBanner` keeps. */
  predicate Printable(c: char)
  {
    (32 <= c as int < 127) || c == '\n' || c == '\r' || c == '\t'
  }

  /** The kept bytes of `s`, in their order. */
  function KeepPrintable(s: string): (r: string)
    ensures |r| <= |s|
    ensures forall i :: 0 <= i < |r| ==> Printable(r[i])
  {
    if s == [] then []
    else KeepPrintable(s[..|s| - 1]) + (if Printable(s[|s| - 1]) then [s[|s| - 1]] else [])
  }

  const MaxBanner: nat := 256

  /** What `cleanBanner` returns: the kept bytes, truncated to 256. */
  function Cleaned(s: string): string
  {
    Take(KeepPrintable(s), MaxBanner)
  }

  /** `cleanBanner`. */
  method CleanBanner(s: string) returns (r: string)
    ensures r == Cleaned(s)
  {
    var result: string := [];
    for i := 0 to |s|
      invariant result == KeepPrintable(s[..i])
    {
      assert s[..i + 1][..i] == s[..i];
      if (32 <= s[i] as int < 127) || s[i] == '\n' || s[i] == '\r' || s[i] == '\t' {
        result := result + [s[i]];
      }
    }
    assert s[..|s|] == s;
    if |result| > MaxBanner {
      result := result[..MaxBanner];
    }
    r := result;
  }

  /** Filtering distributes over concatenation: the kept bytes keep their
      input order, and a dropped byte leaves no trace. */
  lemma {:induction false} KeepPrintableAppend(a: string, b: string)
    ensures KeepPrintable(a + b) == KeepPrintable(a) + KeepPrintable(b)
    decreases |b|
  {
    if b == [] {
      assert a + b == a;
    } else {
      var b' := b[..|b| - 1];
      assert (a + b)[..|a + b| - 1] == a + b';
      KeepPrintableAppend(a, b');
    }
  }

  /** Printable text is kept whole. */
  lemma {:induction false} KeepPrintableOfPrintable(s: string)
    requires forall i :: 0 <= i < |s| ==> Printable(s[i])
    ensures KeepPrintable(s) == s
  {
    if s != [] {
      KeepPrintableOfPrintable(s[..|s| - 1]);
    }
  }

  /** A cleaned banner is printable, at most 256 bytes long, the front of the
      kept bytes, and cleaning it again changes nothing. */
  lemma CleanedSpec(s: string)
    ensures |Cleaned(s)| <= MaxBanner
    ensures forall i :: 0 <= i < |Cleaned(s)| ==> Printable(Cleaned(s)[i])
    ensures Cleaned(s) <= KeepPrintable(s)
    ensures Cleaned(Cleaned(s)) == Cleaned(s)
  {
    var c := Cleaned(s);
    assert forall i :: 0 <= i < |c| ==> c[i] == KeepPrintable(s)[i];
    KeepPrintableOfPrintable(c);
  }

  /** What `grabBanner` returns for the bytes its last read produced. */
  function GrabbedBanner(read: string): string
  {
    if |read| > 0 then Cleaned(read) else ""
  }

  /** The least index at which `sub` occurs case-insensitively from `i` on, or -1. */
  function FoldIndexFrom(s: string, sub: string, i: nat): (r: int)
    decreases |s| - i
    ensures r == -1 || (i <= r && FoldOccursAt(s, sub, r))
    ensures forall k :: i <= k && (r == -1 || k < r) ==> !FoldOccursAt(s, sub, k)
  {
    if i > |s| - |sub| then -1
    else if FoldEquals(s[i..i + |sub|], sub) then i
    else FoldIndexFrom(s, sub, i + 1)
  }

  /** The least index at which `sub` occurs case-insensitively, or -1. */
  function FoldIndex(s: string, sub: string): (r: int)
    ensures r == -1 <==> !ContainsFold(s, sub)
    ensures r != -1 ==> FoldOccursAt(s, sub, r) && forall k :: 0 <= k < r ==> !FoldOccursAt(s, sub, k)
  {
    var r := FoldIndexFrom(s, sub, 0);
    assert r != -1 ==> FoldOccursAt(s, sub, r);
    r
  }

  /** `findString`. */
  method FindString(s: string, sub: string) returns (r: int)
    ensures r == FoldIndex(s, sub)
  {
    var i := 0;
    while i <= |s| - |sub|
      invariant 0 <= i
      invariant i <= |s| - |sub| + 1 || i == 0
      invariant forall k :: 0 <= k < i ==> !FoldOccursAt(s, sub, k)
      decreases |s| - |sub| - i
    {
      var eq := EqualFoldBytes(s[i..i + |sub|], sub);
      if eq {
        assert FoldOccursAt(s, sub, i);
        return i;
      }
      i := i + 1;
    }
    return -1;
  }

  /** The least index of `c` in `s`, or -1. */
  function IndexOf(s: string, c: char): (r: int)
    ensures r == -1 <==> c !in s
    ensures r != -1 ==> 0 <= r < |s| && s[r] == c && c !in s[..r]
  {
    if s == [] then -1
    else if s[0] == c then 0
    else
      var r := IndexOf(s[1..], c);
      assert s == [s[0]] + s[1..];
      if r == -1 then -1
      else
        assert s[..r + 1] == [s[0]] + s[1..][..r];
        r + 1
  }

  /** `findChar`. */
  method FindChar(s: string, c: char) returns (r: int)
    ensures r == IndexOf(s, c)
  {
    for i := 0 to |s|
      invariant c !in s[..i]
    {
      if s[i] == c {
        return i;
      }
      assert s[..i + 1] == s[..i] + [s[i]];
    }
    assert s[..|s|] == s;
    return -1;
  }

  function Min(a: int, b: int): (m: int)
    ensures m <= a && m <= b && (m == a || m == b)
  {
    if a < b then a else b
  }

  datatype ServiceInfo = ServiceInfo(name: string, version: string, banner: string, product: string)

  const NoInfo := ServiceInfo("", "", "", "")

  /** The end of the `Server:` line as `parseBanner` finds it: the first
      '\r', else the first '\n', else the rest of the text up to 100 bytes. */
  function ServerLineEnd(rest: string): (end: int)
    requires |rest| >= 7
    requires forall k :: 0 <= k < 7 ==> rest[k] != '\r' && rest[k] != '\n'
    ensures 7 <= end <= |rest|
  {
    var cr := IndexOf(rest, '\r');
    if cr != -1 then cr
    else
      var lf := IndexOf(rest, '\n');
      if lf != -1 then lf
      else Min(|rest|, 100)
  }

  lemma ServerPrefixHasNoLineBreak(s: string, idx: int)
    requires FoldOccursAt(s, "Server:", idx)
    ensures |s[idx..]| >= 7
    ensures forall k :: 0 <= k < 7 ==> s[idx..][k] != '\r' && s[idx..][k] != '\n'
  {
    forall k | 0 <= k < 7
      ensures s[idx..][k] != '\r' && s[idx..][k] != '\n'
    {
      assert s[idx..][k] == s[idx..idx + 7][k];
      assert LowerChar(s[idx..idx + 7][k]) == LowerChar("Server:"[k]);
    }
  }

  /** The `Server:` product of the banner rules as written: `None` where the
      slice `banner[idx+8 : idx+end]` panics, which happens when `end` is 7. */
  function ServerProductAsWritten(banner: string): Option<string>
  {
    var idx := FoldIndex(banner, "Server:");
    if idx == -1 then Some("")
    else
      var rest := banner[idx..];
      ServerPrefixHasNoLineBreak(banner, idx);
      var end := ServerLineEnd(rest);
      if end < 8 then None else Some(banner[idx + 8..idx + end])
  }

  /** The corrected product: taken only past the `Server:` header name and its
      separator, as the HTTP probe guards it. */
  function ServerProduct(banner: string): string
  {
    var idx := FoldIndex(banner, "Server:");
    if idx == -1 then ""
    else
      var rest := banner[idx..];
      ServerPrefixHasNoLineBreak(banner, idx);
      var end := ServerLineEnd(rest);
      if end > 8 then banner[idx + 8..idx + end] else ""
  }

  function Named(name: string): ServiceInfo
  {
    ServiceInfo(name, "", "", "")
  }

  /** The SSH version text: bytes 4 up to 50 of a banner longer than 10. */
  function SshVersion(banner: string): string
    requires |banner| > 3
  {
    if |banner| > 10 then banner[4..Min(|banner|, 50)] else ""
  }

  /** The rules after the HTTP rule, shared by both versions of `parseBanner`. */
  function LaterRules(banner: string): ServiceInfo
    requires banner != []
  {
    if ContainsFold(banner, "mysql") || ContainsFold(banner, "mariadb") then Named("mysql")
    else if ContainsFold(banner, "postgresql") then Named("postgresql")
    else if ContainsFold(banner, "redis") || banner[..1] == "-" || banner[..1] == "+" then Named("redis")
    else if |banner| > 3 && banner[..3] == "220" then ServiceInfo("ftp", "", banner, "")
    else if |banner| > 3 && (banner[..3] == "220" || banner[..4] == "250 ")
            && (ContainsFold(banner, "smtp") || ContainsFold(banner, "mail")) then Named("smtp")
    else NoInfo
  }

  predicate IsSshBanner(banner: string)
  {
    |banner| > 3 && banner[..4] == "SSH-"
  }

  predicate IsHttpBanner(banner: string)
  {
    |banner| > 4 && (banner[..4] == "HTTP" || banner[..4] == "http")
  }

  /** `parseBanner` as written: `None` where it panics, on an empty banner
      (the `banner[:1]` test) and on a `Server:` line shorter than 8 bytes. */
  function ParseBannerAsWritten(banner: string): Option<ServiceInfo>
  {
    if IsSshBanner(banner) then Some(ServiceInfo("ssh", SshVersion(banner), "", ""))
    else if IsHttpBanner(banner) then
      match ServerProductAsWritten(banner)
      case None => None
      case Some(p) => Some(ServiceInfo("http", "", "", p))
    else if banner == [] then None
    else Some(LaterRules(banner))
  }

  /** `parseBanner` with the `Server:` slice guarded; the banner must be
      non-empty, as `Detect` guarantees. */
  function ParseBanner(banner: string): ServiceInfo
    requires banner != []
  {
    if IsSshBanner(banner) then ServiceInfo("ssh", SshVersion(banner), "", "")
    else if IsHttpBanner(banner) then ServiceInfo("http", "", "", ServerProduct(banner))
    else LaterRules(banner)
  }

  /** An HTTP banner whose first `Server:` header name is followed at once by
      '\r' makes the written rules panic: the slice's lower bound passes its
      upper bound. */
  lemma EmptyServerHeaderPanics(b: string)
    requires IsHttpBanner(b) && !IsSshBanner(b)
    requires FoldIndex(b, "Server:") != -1
    requires FoldIndex(b, "Server:") + 7 < |b| && b[FoldIndex(b, "Server:") + 7] == '\r'
    ensures ParseBannerAsWritten(b) == None
  {
    var idx := FoldIndex(b, "Server:");
    var rest := b[idx..];
    ServerPrefixHasNoLineBreak(b, idx);
    assert rest[7] == '\r';
    assert '\r' !in rest[..7];
    assert IndexOf(rest, '\r') == 7;
  }

  /** The concrete banner "HTTP Server:\r\n" is one such banner. */
  lemma ParseBannerAsWrittenPanics()
    ensures ParseBannerAsWritten("HTTP Server:\r\n") == None
  {
    var b := "HTTP Server:\r\n";
    assert b[..4] == "HTTP";
    assert b[0] != 'S';
    ExampleServerIndex();
    assert b[12] == '\r';
    EmptyServerHeaderPanics(b);
  }

  /** The header of the example banner is found at index 5. */
  lemma ExampleServerIndex()
    ensures FoldIndex("HTTP Server:\r\n", "Server:") == 5
  {
    var b := "HTTP Server:\r\n";
    assert b[5..12] == "Server:";
    assert FoldOccursAt(b, "Server:", 5);
    forall k | 0 <= k < 5
      ensures !FoldOccursAt(b, "Server:", k)
    {
      assert b[k..k + 7][0] == b[k];
      assert LowerChar(b[k]) != LowerChar('S');
    }
  }

  /** The corrected rules never panic on a non-empty banner and agree with the
      written ones wherever those do not panic. */
  lemma ParseBannerAgrees(banner: string)
    requires banner != []
    ensures ParseBannerAsWritten(banner).Some? ==> ParseBannerAsWritten(banner).value == ParseBanner(banner)
  {
  }

  /** The rule order: SSH first, then HTTP. */
  lemma ParseBannerFirstRules(banner: string)
    requires banner != []
    ensures HasPrefix(banner, "SSH-") ==>
      ParseBanner(banner) == ServiceInfo("ssh", SshVersion(banner), "", "")
    ensures !HasPrefix(banner, "SSH-") && |banner| > 4 && (HasPrefix(banner, "HTTP") || HasPrefix(banner, "http")) ==>
      ParseBanner(banner).name == "http" && ParseBanner(banner).version == ""
  {
  }

  /** The names the rules give, and where the other fields come from: the
      version only for ssh, the banner only for ftp, the product only for http. */
  lemma ParseBannerFields(banner: string)
    requires banner != []
    ensures ParseBanner(banner).name in {"", "ssh", "http", "mysql", "postgresql", "redis", "ftp", "smtp"}
    ensures ParseBanner(banner).version != "" ==> ParseBanner(banner).name == "ssh"
    ensures ParseBanner(banner).banner != "" ==> ParseBanner(banner).name == "ftp" && ParseBanner(banner).banner == banner
    ensures ParseBanner(banner).product != "" ==> ParseBanner(banner).name == "http"
  {
  }

  /** A "220" banner is never smtp (the ftp rule takes it first); smtp comes
      only from a "250 " banner that mentions smtp or mail. */
  lemma ParseBannerSmtp(banner: string)
    requires banner != []
    ensures HasPrefix(banner, "220") ==> ParseBanner(banner).name != "smtp"
    ensures ParseBanner(banner).name == "smtp" ==>
      HasPrefix(banner, "250 ") && (ContainsFold(banner, "smtp") || ContainsFold(banner, "mail"))
  {
  }

  /** A product is the text of the first `Server:` line after the header name
      and one separator byte, and holds no carriage return. */
  lemma ServerProductSpec(banner: string)
    ensures var p := ServerProduct(banner);
      p != "" ==>
        '\r' !in p
        && exists idx :: FoldOccursAt(banner, "Server:", idx) && idx + 8 + |p| <= |banner|
                         && banner[idx + 8..idx + 8 + |p|] == p
  {
    var p := ServerProduct(banner);
    if p != "" {
      var idx := FoldIndex(banner, "Server:");
      var rest := banner[idx..];
      ServerPrefixHasNoLineBreak(banner, idx);
      var end := ServerLineEnd(rest);
      SliceOfSuffix(banner, idx, 8, end);
      assert FoldOccursAt(banner, "Server:", idx) && |p| == end - 8;
      var cr := IndexOf(rest, '\r');
      if cr == -1 {
        NotInSlice(rest, '\r', 8, end);
      } else {
        NotInSlice(rest[..cr], '\r', 8, cr);
        SliceOfPrefix(rest, cr, 8, cr);
      }
    }
  }

  /** What a sequence lacks, each of its slices lacks. */
  lemma NotInSlice<T>(s: seq<T>, x: T, lo: int, hi: int)
    requires 0 <= lo <= hi <= |s| && x !in s
    ensures x !in s[lo..hi]
  {
  }

  /** `probeHTTP`, with `response` the bytes read after the request ("" when
      the dial or the read failed). */
  function ProbeHTTP(response: string): (info: ServiceInfo)
    ensures info.version == "" && info.banner == ""
    ensures info.name == "http" <==> |response| > 4 && response[..4] == "HTTP"
    ensures info.name != "http" ==> info == NoInfo
  {
    if |response| > 4 && response[..4] == "HTTP" then
      var idx := FoldIndex(response, "Server:");
      if idx == -1 then Named("http")
      else
        var rest := response[idx..];
        var cr := IndexOf(rest, '\r');
        var end := if cr != -1 then cr else IndexOf(rest, '\n');
        if end > 8 then ServiceInfo("http", "", "", response[idx + 8..idx + end]) else Named("http")
    else NoInfo
  }

  /** `Detect`, with `read` the bytes the banner read produced and `response`
      the HTTP probe's answer. */
  method Detect(port: int, read: string, response: string) returns (info: ServiceInfo)
    ensures info.name != ""
    ensures var b := GrabbedBanner(read);
            var parsed := if b != "" then ParseBanner(b) else NoInfo;
            var name := if parsed.name != "" then parsed.name
                        else if WellKnownPort(port) != "" then WellKnownPort(port) else "unknown";
            var probed := LooksLikeHTTP(port) && name == "unknown" && ProbeHTTP(response).name != "";
            (probed ==> info == ProbeHTTP(response) && (port == 3000 || port == 5000))
            && (!probed ==> info == ServiceInfo(name, parsed.version, b, parsed.product))
  {
    info := ServiceInfo("unknown", "", "", "");
    var known := WellKnownPort(port);
    if known != "" {
      info := info.(name := known);
    }
    var banner := "";
    if |read| > 0 {
      banner := CleanBanner(read);
    }
    if banner != "" {
      info := info.(banner := banner);
      var parsed := ParseBanner(banner);
      ParseBannerFields(banner);
      if parsed.name != "" {
        info := info.(name := parsed.name);
      }
      if parsed.version != "" {
        info := info.(version := parsed.version);
      }
      if parsed.product != "" {
        info := info.(product := parsed.product);
      }
    }
    if LooksLikeHTTP(port) && info.name == "unknown" {
      var httpInfo := ProbeHTTP(response);
      if httpInfo.name != "" {
        UnnamedHttpPorts(port);
        return httpInfo;
      }
    }
  }
}
