/** The TCP port scanner: ASCII case-insensitive search, banner identification,
    the scanner's own well-known-service table, configuration defaults and the
    sequential meaning of a scan. Connection attempts and banner reads are
    oracles. */
module PortScanning {
  import opened Strings

  /** Case-insensitive byte equality: equal lengths, and equal bytes once A-Z
      are mapped to a-z. */
  predicate FoldEquals(s: string, t: string)
  {
    |s| == |t| && forall i :: 0 <= i < |s| ==> LowerChar(s[i]) == LowerChar(t[i])
  }

  /** `sub` occurs case-insensitively in `s` starting at `i`. */
  predicate FoldOccursAt(s: string, sub: string, i: int)
  {
    0 <= i <= |s| - |sub| && FoldEquals(s[i..i + |sub|], sub)
  }

  /** `sub` occurs case-insensitively somewhere in `s`. */
  predicate ContainsFold(s: string, sub: string)
  {
    exists i :: 0 <= i <= |s| - |sub| && FoldOccursAt(s, sub, i)
  }

  /** `equalFoldBytes`. */
  method EqualFoldBytes(s: string, t: string) returns (r: bool)
    ensures r == FoldEquals(s, t)
  {
    if |s| != |t| {
      return false;
    }
    for i := 0 to |s|
      invariant forall k :: 0 <= k < i ==> LowerChar(s[k]) == LowerChar(t[k])
    {
      var sr := s[i];
      var tr := t[i];
      if 'A' <= sr <= 'Z' {
        sr := (sr as int + 32) as char;
      }
      if 'A' <= tr <= 'Z' {
        tr := (tr as int + 32) as char;
      }
      if sr != tr {
        return false;
      }
    }
    return true;
  }

  /** `containsIgnoreCase`: tries every window of `s` of the length of `sub`. */
  method ContainsIgnoreCase(s: string, sub: string) returns (r: bool)
    ensures r == ContainsFold(s, sub)
  {
    var i := 0;
    while i <= |s| - |sub|
      invariant 0 <= i
      invariant i <= |s| - |sub| + 1 || i == 0
      invariant forall k :: 0 <= k < i ==> !FoldOccursAt(s, sub, k)
      decreases |s| - |sub| - i
    {
      var eq := EqualFoldBytes(s[i..i + |sub|], sub);
      if eq {
        assert FoldOccursAt(s, sub, i);
        return true;
      }
      i := i + 1;
    }
    return false;
  }

  /** Case-insensitive equality is equality after lower-casing. */
  lemma FoldEqualsIsLowerEquality(s: string, t: string)
    ensures FoldEquals(s, t) <==> |s| == |t| && ToLower(s) == ToLower(t)
  {
    if |s| == |t| && ToLower(s) == ToLower(t) {
      forall i | 0 <= i < |s|
        ensures LowerChar(s[i]) == LowerChar(t[i])
      {
        assert ToLower(s)[i] == ToLower(t)[i];
      }
    }
  }

  /** At one position, a case-insensitive occurrence is an occurrence after
      lower-casing. */
  lemma FoldOccursAtIsLower(s: string, sub: string, i: int)
    requires 0 <= i <= |s| - |sub|
    ensures FoldOccursAt(s, sub, i) <==> OccursAt(ToLower(s), ToLower(sub), i)
  {
    var n := |sub|;
    var w, t := ToLower(s)[i..i + n], ToLower(sub);
    forall k | 0 <= k < n
      ensures w[k] == LowerChar(s[i..i + n][k])
    {
      assert w[k] == ToLower(s)[i + k];
      assert s[i..i + n][k] == s[i + k];
    }
    if FoldOccursAt(s, sub, i) {
      assert w == t;
    }
    if w == t {
      forall k | 0 <= k < n
        ensures LowerChar(s[i..i + n][k]) == LowerChar(sub[k])
      {
        assert w[k] == t[k];
      }
    }
  }

  /** Case-insensitive containment is containment after lower-casing. */
  lemma ContainsFoldIsLowerContains(s: string, sub: string)
    ensures ContainsFold(s, sub) <==> Contains(ToLower(s), ToLower(sub))
  {
    if ContainsFold(s, sub) {
      var i :| 0 <= i <= |s| - |sub| && FoldOccursAt(s, sub, i);
      FoldOccursAtIsLower(s, sub, i);
    }
    if Contains(ToLower(s), ToLower(sub)) {
      var i :| 0 <= i <= |s| - |sub| && OccursAt(ToLower(s), ToLower(sub), i);
      FoldOccursAtIsLower(s, sub, i);
    }
  }

  /** The empty pattern occurs in every text. */
  lemma ContainsFoldEmpty(s: string)
    ensures ContainsFold(s, "")
  {
    assert FoldOccursAt(s, "", 0);
  }

  /** The banner patterns of `identifyFromBanner` and their services. */
  const BannerPatterns: map<string, string> := map[
    "SSH" := "ssh",
    "HTTP" := "http",
    "SMTP" := "smtp",
    "FTP" := "ftp",
    "MySQL" := "mysql",
    "PostgreSQL" := "postgresql",
    "MongoDB" := "mongodb",
    "Redis" := "redis",
    "nginx" := "nginx",
    "Apache" := "apache"]

  /** An iteration order of the pattern map: only its keys, all of them. */
  predicate PatternOrder(order: seq<string>)
  {
    (forall i :: 0 <= i < |order| ==> order[i] in BannerPatterns)
    && (forall p :: p in BannerPatterns ==> p in order)
  }

  function FirstMatch(banner: string, order: seq<string>): string
  {
    if order == [] then "unknown"
    else if order[0] in BannerPatterns && ContainsFold(banner, order[0]) then BannerPatterns[order[0]]
    else FirstMatch(banner, order[1..])
  }

  /** `identifyFromBanner`, with `order` the order the map is walked in. */
  function IdentifyFromBanner(banner: string, order: seq<string>): string
    requires PatternOrder(order)
  {
    FirstMatch(banner, order)
  }

  lemma {:induction false} FirstMatchFound(banner: string, order: seq<string>)
    requires forall i :: 0 <= i < |order| ==> order[i] in BannerPatterns
    ensures FirstMatch(banner, order) == "unknown" <==>
              forall i :: 0 <= i < |order| ==> !ContainsFold(banner, order[i])
    ensures FirstMatch(banner, order) != "unknown" ==>
              exists i :: 0 <= i < |order| && ContainsFold(banner, order[i])
                          && BannerPatterns[order[i]] == FirstMatch(banner, order)
  {
    assert forall p :: p in BannerPatterns ==> BannerPatterns[p] != "unknown";
    if order != [] {
      FirstMatchFound(banner, order[1..]);
      if !ContainsFold(banner, order[0]) {
        forall i | 0 <= i < |order[1..]| && ContainsFold(banner, order[1..][i])
          ensures ContainsFold(banner, order[i + 1])
        {
        }
        if FirstMatch(banner, order) != "unknown" {
          var i :| 0 <= i < |order[1..]| && ContainsFold(banner, order[1..][i])
                   && BannerPatterns[order[1..][i]] == FirstMatch(banner, order);
          assert order[i + 1] == order[1..][i];
        }
      }
    }
  }

  /** "unknown" exactly when no pattern occurs; otherwise the service of some
      pattern that occurs. */
  lemma IdentifyFromBannerSpec(banner: string, order: seq<string>)
    requires PatternOrder(order)
    ensures IdentifyFromBanner(banner, order) == "unknown" <==>
              forall p :: p in BannerPatterns ==> !ContainsFold(banner, p)
    ensures IdentifyFromBanner(banner, order) != "unknown" ==>
              exists p :: p in BannerPatterns && ContainsFold(banner, p)
                          && BannerPatterns[p] == IdentifyFromBanner(banner, order)
  {
    FirstMatchFound(banner, order);
    if forall i :: 0 <= i < |order| ==> !ContainsFold(banner, order[i]) {
      forall p | p in BannerPatterns
        ensures !ContainsFold(banner, p)
      {
        var i :| 0 <= i < |order| && order[i] == p;
      }
    }
    if IdentifyFromBanner(banner, order) != "unknown" {
      var i :| 0 <= i < |order| && ContainsFold(banner, order[i])
               && BannerPatterns[order[i]] == FirstMatch(banner, order);
      assert order[i] in BannerPatterns;
    }
  }

  /** Two walks of the pattern map that differ in their first two keys. */
  const ListedOrder: seq<string> :=
    ["SSH", "HTTP", "SMTP", "FTP", "MySQL", "PostgreSQL", "MongoDB", "Redis", "nginx", "Apache"]
  const SwappedOrder: seq<string> :=
    ["HTTP", "SSH", "SMTP", "FTP", "MySQL", "PostgreSQL", "MongoDB", "Redis", "nginx", "Apache"]

  lemma WalkOrdersArePatternOrders()
    ensures PatternOrder(ListedOrder) && PatternOrder(SwappedOrder)
  {
    forall p | p in BannerPatterns
      ensures p in ListedOrder && p in SwappedOrder
    {
    }
  }

  lemma ListedOrderFindsSsh()
    ensures FirstMatch("SSH HTTP", ListedOrder) == "ssh"
  {
    assert FoldOccursAt("SSH HTTP", "SSH", 0);
    assert BannerPatterns["SSH"] == "ssh";
  }

  lemma SwappedOrderFindsHttp()
    ensures FirstMatch("SSH HTTP", SwappedOrder) == "http"
  {
    assert FoldOccursAt("SSH HTTP", "HTTP", 4);
    assert BannerPatterns["HTTP"] == "http";
  }

  /** The choice depends on the map's iteration order: a banner naming two
      services is classified differently by two walks of the same map. */
  lemma IdentifyDependsOnOrder()
    ensures PatternOrder(ListedOrder) && PatternOrder(SwappedOrder)
    ensures IdentifyFromBanner("SSH HTTP", ListedOrder) == "ssh"
    ensures IdentifyFromBanner("SSH HTTP", SwappedOrder) == "http"
  {
    WalkOrdersArePatternOrders();
    ListedOrderFindsSsh();
    SwappedOrderFindsHttp();
  }

  /** The well-known-service table of `detectService`. */
  const ScannerServices: map<int, string> := map[
    21 := "ftp", 22 := "ssh", 23 := "telnet", 25 := "smtp", 53 := "dns",
    80 := "http", 110 := "pop3", 143 := "imap", 443 := "https", 445 := "smb",
    993 := "imaps", 995 := "pop3s", 1433 := "mssql", 1521 := "oracle",
    3306 := "mysql", 3389 := "rdp", 5432 := "postgresql", 5900 := "vnc",
    6379 := "redis", 8080 := "http-proxy", 8443 := "https-alt", 27017 := "mongodb"]

  /** `detectService`, with `banner` what `grabBanner` would answer; the banner
      is only consulted for ports outside the table. */
  function DetectService(port: int, banner: string, order: seq<string>): string
    requires PatternOrder(order)
  {
    if port in ScannerServices then ScannerServices[port]
    else if banner != "" then IdentifyFromBanner(banner, order)
    else "unknown"
  }

  /** A listed port gets its table entry whatever the banner; an unlisted one
      gets the banner's classification, or "unknown" without a banner. */
  lemma DetectServiceSpec(port: int, banner: string, other: string, order: seq<string>)
    requires PatternOrder(order)
    ensures port in ScannerServices ==>
      DetectService(port, banner, order) == ScannerServices[port] == DetectService(port, other, order)
    ensures port !in ScannerServices && banner == "" ==> DetectService(port, banner, order) == "unknown"
    ensures port !in ScannerServices && banner != "" ==>
      DetectService(port, banner, order) == IdentifyFromBanner(banner, order)
    ensures DetectService(port, banner, order) != ""
  {
    assert forall p :: p in ScannerServices ==> ScannerServices[p] != "";
    FirstMatchNonEmpty(banner, order);
  }

  lemma {:induction false} FirstMatchNonEmpty(banner: string, order: seq<string>)
    ensures FirstMatch(banner, order) != ""
  {
    assert forall p :: p in BannerPatterns ==> BannerPatterns[p] != "";
    if order != [] {
      FirstMatchNonEmpty(banner, order[1..]);
    }
  }

  datatype ScanConfig = ScanConfig(
    targets: seq<string>,
    ports: seq<int>,
    workers: int,
    timeout: int,
    rateLimit: int,
    serviceDetect: bool)

  /** `NewScanner`'s defaults: zero workers, timeout and rate become 300, 3 s
      and 1000 per second; every other value is kept. */
  function ScannerDefaults(c: ScanConfig): (r: ScanConfig)
    ensures r.workers != 0 && r.timeout != 0 && r.rateLimit != 0
    ensures c.workers == 0 ==> r.workers == 300
    ensures c.timeout == 0 ==> r.timeout == 3
    ensures c.rateLimit == 0 ==> r.rateLimit == 1000
    ensures c.workers != 0 ==> r.workers == c.workers
    ensures c.timeout != 0 ==> r.timeout == c.timeout
    ensures c.rateLimit != 0 ==> r.rateLimit == c.rateLimit
    ensures r.targets == c.targets && r.ports == c.ports && r.serviceDetect == c.serviceDetect
  {
    c.(workers := if c.workers == 0 then 300 else c.workers,
       timeout := if c.timeout == 0 then 3 else c.timeout,
       rateLimit := if c.rateLimit == 0 then 1000 else c.rateLimit)
  }

  lemma ScannerDefaultsIdempotent(c: ScanConfig)
    ensures ScannerDefaults(ScannerDefaults(c)) == ScannerDefaults(c)
  {
  }

  datatype ScanJob = ScanJob(host: string, port: int)

  /** A port-scan record; the scanner never sets a banner, and leaves the
      service empty unless service detection fills it. */
  datatype ScanResult = ScanResult(host: string, port: int, open: bool, service: string)

  /** The jobs for one target, in port order. */
  function Row(host: string, ports: seq<int>): (row: seq<ScanJob>)
    ensures |row| == |ports|
    ensures forall k :: 0 <= k < |ports| ==> row[k] == ScanJob(host, ports[k])
  {
    seq(|ports|, k requires 0 <= k < |ports| => ScanJob(host, ports[k]))
  }

  /** The host-by-port product the feeder sends, target by target. */
  function Jobs(targets: seq<string>, ports: seq<int>): seq<ScanJob>
  {
    if targets == [] then []
    else Jobs(targets[..|targets| - 1], ports) + Row(targets[|targets| - 1], ports)
  }

  /** Every pair of a target and a port is a job, and nothing else is; there
      are |targets| * |ports| jobs. */
  lemma {:induction false} JobsProduct(targets: seq<string>, ports: seq<int>)
    ensures |Jobs(targets, ports)| == |targets| * |ports|
    ensures forall j :: j in Jobs(targets, ports) <==> j.host in targets && j.port in ports
  {
    if targets != [] {
      var init := targets[..|targets| - 1];
      var last := targets[|targets| - 1];
      JobsProduct(init, ports);
      assert targets == init + [last];
      forall j
        ensures j in Jobs(targets, ports) <==> j.host in targets && j.port in ports
      {
        if j in Row(last, ports) {
          var k :| 0 <= k < |ports| && Row(last, ports)[k] == j;
        }
        if j.host == last && j.port in ports {
          var k :| 0 <= k < |ports| && ports[k] == j.port;
          assert Row(last, ports)[k] == j;
        }
      }
    }
  }

  /** The feeder's nested loop. */
  method Feed(targets: seq<string>, ports: seq<int>) returns (jobs: seq<ScanJob>)
    ensures jobs == Jobs(targets, ports)
  {
    jobs := [];
    for i := 0 to |targets|
      invariant jobs == Jobs(targets[..i], ports)
    {
      for j := 0 to |ports|
        invariant jobs == Jobs(targets[..i], ports) + Row(targets[i], ports[..j])
      {
        assert Row(targets[i], ports[..j + 1]) == Row(targets[i], ports[..j]) + [ScanJob(targets[i], ports[j])];
        jobs := jobs + [ScanJob(targets[i], ports[j])];
      }
      assert ports[..|ports|] == ports;
      assert targets[..i + 1][..i] == targets[..i];
    }
    assert targets[..|targets|] == targets;
  }

  /** What a worker sends for one job: the dial result, with the service
      filled in only for an open port under service detection. */
  function JobResult(c: ScanConfig, job: ScanJob, dial: (string, int) -> bool,
                     grab: (string, int) -> string, order: seq<string>): ScanResult
    requires PatternOrder(order)
  {
    var r := ScanResult(job.host, job.port, dial(job.host, job.port), "");
    if r.open && c.serviceDetect then r.(service := DetectService(job.port, grab(job.host, job.port), order))
    else r
  }

  /** The collector's filter: the open results, in job order. */
  function OpenResults(c: ScanConfig, jobs: seq<ScanJob>, dial: (string, int) -> bool,
                       grab: (string, int) -> string, order: seq<string>): seq<ScanResult>
    requires PatternOrder(order)
  {
    if jobs == [] then []
    else
      var r := JobResult(c, jobs[|jobs| - 1], dial, grab, order);
      OpenResults(c, jobs[..|jobs| - 1], dial, grab, order) + (if r.open then [r] else [])
  }

  /** `Scan` run sequentially: feed the product, scan each job, keep the open
      results. */
  method Scan(c: ScanConfig, dial: (string, int) -> bool, grab: (string, int) -> string,
              order: seq<string>) returns (openPorts: seq<ScanResult>)
    requires PatternOrder(order)
    ensures openPorts == OpenResults(c, Jobs(c.targets, c.ports), dial, grab, order)
  {
    var jobs := Feed(c.targets, c.ports);
    openPorts := [];
    for i := 0 to |jobs|
      invariant openPorts == OpenResults(c, jobs[..i], dial, grab, order)
    {
      var open := dial(jobs[i].host, jobs[i].port);
      var result := ScanResult(jobs[i].host, jobs[i].port, open, "");
      if result.open && c.serviceDetect {
        result := result.(service := DetectService(jobs[i].port, grab(jobs[i].host, jobs[i].port), order));
      }
      assert result == JobResult(c, jobs[i], dial, grab, order);
      OpenResultsStep(c, jobs, i, dial, grab, order);
      if result.open {
        openPorts := openPorts + [result];
      }
    }
    assert jobs[..|jobs|] == jobs;
  }

  lemma OpenResultsStep(c: ScanConfig, jobs: seq<ScanJob>, i: nat, dial: (string, int) -> bool,
                        grab: (string, int) -> string, order: seq<string>)
    requires PatternOrder(order) && i < |jobs|
    ensures var r := JobResult(c, jobs[i], dial, grab, order);
      OpenResults(c, jobs[..i + 1], dial, grab, order) ==
        OpenResults(c, jobs[..i], dial, grab, order) + (if r.open then [r] else [])
  {
    assert jobs[..i + 1][..i] == jobs[..i];
  }

  /** The kept results are exactly the results of the open jobs, each with its
      own job's host and port. */
  lemma {:induction false} OpenResultsSpec(c: ScanConfig, jobs: seq<ScanJob>, dial: (string, int) -> bool,
                                           grab: (string, int) -> string, order: seq<string>)
    requires PatternOrder(order)
    ensures forall r :: r in OpenResults(c, jobs, dial, grab, order) <==>
              exists j :: j in jobs && dial(j.host, j.port) && r == JobResult(c, j, dial, grab, order)
  {
    if jobs != [] {
      var init := jobs[..|jobs| - 1];
      var last := jobs[|jobs| - 1];
      OpenResultsSpec(c, init, dial, grab, order);
      assert jobs == init + [last];
    }
  }

  /** Every returned record is open, belongs to a listed target and port that
      the dial reached, and has a service exactly when detection is on; every
      reachable target and port has a record. */
  lemma ScanSpec(c: ScanConfig, dial: (string, int) -> bool, grab: (string, int) -> string,
                 order: seq<string>)
    requires PatternOrder(order)
    ensures var out := OpenResults(c, Jobs(c.targets, c.ports), dial, grab, order);
      (forall r :: r in out ==>
         r.open && r.host in c.targets && r.port in c.ports && dial(r.host, r.port)
         && (c.serviceDetect <==> r.service != "")
         && (c.serviceDetect ==> r.service == DetectService(r.port, grab(r.host, r.port), order)))
      && (forall t, p :: t in c.targets && p in c.ports && dial(t, p) ==>
            JobResult(c, ScanJob(t, p), dial, grab, order) in out)
  {
    var jobs := Jobs(c.targets, c.ports);
    JobsProduct(c.targets, c.ports);
    OpenResultsSpec(c, jobs, dial, grab, order);
    forall j | j in jobs
      ensures JobResult(c, j, dial, grab, order).open && c.serviceDetect ==>
                JobResult(c, j, dial, grab, order).service != ""
    {
      DetectServiceSpec(j.port, grab(j.host, j.port), "", order);
    }
  }
}
