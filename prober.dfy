/** The decisions of the HTTP prober: configuration defaults, the redirect rule,
    URL normalisation, the retry loop around one probe, the choice between a
    target's candidate URLs, and the post-processing of titles and technology
    hints. The HTTP exchange itself is an oracle `probe(url, attempt)`. */
module HttpProbing {
  import opened Strings
  import opened Collections
  import Retrying

  /** The fields of `ProbeConfig` the prober's logic reads. */
  datatype ProbeConfig = ProbeConfig(
    workers: int,
    timeout: int,
    followRedirect: bool,
    maxRedirects: int,
    retries: int,
    rateLimit: int,
    userAgent: string)

  const DefaultUserAgent: string :=
    "Mozilla/5.0 (Windows NT 10.0; Win64; x64) AppleWebKit/537.36 (KHTML, like Gecko) Chrome/120.0.0.0 Safari/537.36"

  /** `NewProber`'s defaults: a zero field takes its default, any other value
      (negative ones included) is kept. */
  function ProberDefaults(c: ProbeConfig): (r: ProbeConfig)
    ensures r.workers == (if c.workers == 0 then 100 else c.workers)
    ensures r.timeout == (if c.timeout == 0 then 10 else c.timeout)
    ensures r.maxRedirects == (if c.maxRedirects == 0 then 5 else c.maxRedirects)
    ensures r.retries == (if c.retries == 0 then 2 else c.retries)
    ensures r.rateLimit == (if c.rateLimit == 0 then 500 else c.rateLimit)
    ensures r.userAgent == (if c.userAgent == "" then DefaultUserAgent else c.userAgent)
    ensures r.followRedirect == c.followRedirect
  {
    c.(workers := if c.workers == 0 then 100 else c.workers,
       timeout := if c.timeout == 0 then 10 else c.timeout,
       maxRedirects := if c.maxRedirects == 0 then 5 else c.maxRedirects,
       retries := if c.retries == 0 then 2 else c.retries,
       rateLimit := if c.rateLimit == 0 then 500 else c.rateLimit,
       userAgent := if c.userAgent == "" then DefaultUserAgent else c.userAgent)
  }

  /** After the defaults no numeric field is zero, so zero retries cannot be
      asked for, and applying the defaults again changes nothing. */
  lemma ProberDefaultsSpec(c: ProbeConfig)
    ensures var r := ProberDefaults(c);
      r.workers != 0 && r.timeout != 0 && r.maxRedirects != 0 && r.retries != 0 &&
      r.rateLimit != 0 && r.userAgent != ""
    ensures ProberDefaults(ProberDefaults(c)) == ProberDefaults(c)
  {
  }

  /** What `CheckRedirect` tells the HTTP client about a redirect answered
      after `via` requests: follow it, stop with an error, or keep the
      redirect response as the final one (`http.ErrUseLastResponse`). */
  datatype RedirectDecision = Follow | Refuse(maxRedirects: int) | KeepLast

  function CheckRedirect(c: ProbeConfig, via: nat): (d: RedirectDecision)
    ensures d == KeepLast <==> !c.followRedirect
    ensures d == Follow <==> c.followRedirect && via < c.maxRedirects
    ensures d.Refuse? ==> d.maxRedirects == c.maxRedirects
  {
    if !c.followRedirect then KeepLast
    else if via >= c.maxRedirects then Refuse(c.maxRedirects)
    else Follow
  }

  /** A request chain as the HTTP client runs it when the server would answer
      `hops` more redirects and `via` requests were made so far: the number of
      requests made and whether the chain ended in the redirect error. */
  function RedirectChain(c: ProbeConfig, hops: nat, via: nat): (nat, bool)
    decreases hops
  {
    if hops == 0 then (via, false)
    else
      match CheckRedirect(c, via)
      case Follow => RedirectChain(c, hops - 1, via + 1)
      case Refuse(_) => (via, true)
      case KeepLast => (via, false)
  }

  function Max(a: int, b: int): int { if a < b then b else a }

  /** Starting from the first request: without `FollowRedirect` exactly one
      request is made and it never fails; with it, at most
      max(MaxRedirects, 1) requests are made, and the chain fails exactly
      when the server asks for at least that many redirects. */
  lemma RedirectChainSpec(c: ProbeConfig, hops: nat)
    ensures !c.followRedirect ==> RedirectChain(c, hops, 1) == (1, false)
    ensures c.followRedirect ==> RedirectChain(c, hops, 1).0 <= Max(c.maxRedirects, 1)
    ensures c.followRedirect ==>
      (RedirectChain(c, hops, 1).1 <==> hops >= Max(c.maxRedirects, 1))
  {
    if c.followRedirect {
      RedirectChainFrom(c, hops, 1);
    }
  }

  lemma {:induction false} RedirectChainFrom(c: ProbeConfig, hops: nat, via: nat)
    requires c.followRedirect
    requires 1 <= via <= Max(c.maxRedirects, 1)
    ensures via <= RedirectChain(c, hops, via).0 <= Max(c.maxRedirects, 1)
    ensures RedirectChain(c, hops, via).1 <==> via + hops > Max(c.maxRedirects, 1)
  {
    if hops > 0 && via < c.maxRedirects {
      RedirectChainFrom(c, hops - 1, via + 1);
    }
  }

  /** `normalizeURL`: the trimmed target alone when it names its scheme, else
      the HTTPS form followed by the HTTP form. */
  function NormalizeURL(target: string): (urls: seq<string>)
    ensures 1 <= |urls| <= 2
  {
    var t := TrimSpace(target);
    if HasPrefix(t, "http://") || HasPrefix(t, "https://") then [t]
    else ["https://" + t, "http://" + t]
  }

  predicate HasScheme(u: string)
  {
    HasPrefix(u, "http://") || HasPrefix(u, "https://")
  }

  /** `normalizeURL`'s two cases: a target that names its scheme is kept
      alone, trimmed; any other gets the HTTPS form first, then HTTP. */
  lemma NormalizeURLCases(target: string)
    ensures HasScheme(TrimSpace(target)) ==> NormalizeURL(target) == [TrimSpace(target)]
    ensures !HasScheme(TrimSpace(target)) ==>
      NormalizeURL(target) == ["https://" + TrimSpace(target), "http://" + TrimSpace(target)]
  {
  }

  /** Every candidate names its scheme, and normalising a candidate gives
      back just that candidate. */
  lemma NormalizeURLFixpoint(target: string, i: nat)
    requires i < |NormalizeURL(target)|
    ensures HasScheme(NormalizeURL(target)[i])
    ensures NormalizeURL(NormalizeURL(target)[i]) == [NormalizeURL(target)[i]]
  {
    var urls := NormalizeURL(target);
    if HasScheme(TrimSpace(target)) {
      TrimmedCandidate(target);
      assert urls == [TrimSpace(target)];
    } else {
      SchemeCandidates(target);
      assert i == 0 || i == 1;
    }
  }

  lemma TrimmedCandidate(target: string)
    requires HasScheme(TrimSpace(target))
    ensures NormalizeURL(target) == [TrimSpace(target)]
    ensures NormalizeURL(TrimSpace(target)) == [TrimSpace(target)]
  {
    NormalizeURLCases(target);
    TrimSpaceIdempotent(target);
    NormalizeURLCases(TrimSpace(target));
  }

  lemma SchemeCandidates(target: string)
    requires !HasScheme(TrimSpace(target))
    ensures var t := TrimSpace(target);
      NormalizeURL(target) == ["https://" + t, "http://" + t] &&
      HasScheme("https://" + t) && NormalizeURL("https://" + t) == ["https://" + t] &&
      HasScheme("http://" + t) && NormalizeURL("http://" + t) == ["http://" + t]
  {
    var t := TrimSpace(target);
    NormalizeURLCases(target);
    SchemeCandidate("https://", t);
    SchemeCandidate("http://", t);
  }

  lemma SchemeCandidate(scheme: string, t: string)
    requires scheme == "https://" || scheme == "http://"
    requires t == [] || !IsSpace(t[|t| - 1])
    ensures HasScheme(scheme + t)
    ensures NormalizeURL(scheme + t) == [scheme + t]
  {
    var u := scheme + t;
    assert u[..|scheme|] == scheme;
    assert u[0] == 'h';
    assert u[|u| - 1] == if t == [] then '/' else t[|t| - 1];
    TrimSpaceOfTrimmed(u);
    NormalizeURLCases(u);
  }

  /** The part of a `ProbeResult` the prober's decisions read or produce. A
      failed request leaves `statusCode` at 0. */
  datatype ProbeResult = ProbeResult(url: string, statusCode: int, title: string,
    technologies: seq<string>)

  const NoResult := ProbeResult("", 0, "", [])

  predicate Succeeded(r: ProbeResult) { r.statusCode > 0 }

  /** The attempt loop of `probeWithRetry` from `attempt` on, `last` being the
      previous attempt's result: the result returned and the number of probes
      made. */
  function RetriedFrom(retries: int, url: string, probe: (string, nat) -> ProbeResult,
                       attempt: nat, last: ProbeResult): (ProbeResult, nat)
    decreases retries + 1 - attempt
  {
    if attempt > retries then (last, attempt)
    else if Succeeded(probe(url, attempt)) then (probe(url, attempt), attempt + 1)
    else RetriedFrom(retries, url, probe, attempt + 1, probe(url, attempt))
  }

  function Retried(retries: int, url: string, probe: (string, nat) -> ProbeResult): (ProbeResult, nat)
  {
    RetriedFrom(retries, url, probe, 0, NoResult)
  }

  /** The sleeps before the retries of a loop that made `calls` probes:
      attempt × 500 ms before attempt 1, 2, …, none before the first. */
  function RetrySleeps(calls: nat): (s: seq<int>)
    ensures |s| == if calls == 0 then 0 else calls - 1
    ensures forall k :: 0 <= k < |s| ==> s[k] == (k + 1) * 500 * Retrying.Millisecond
  {
    if calls <= 1 then [] else RetrySleeps(calls - 1) + [(calls - 1) * 500 * Retrying.Millisecond]
  }

  /** `probeWithRetry`: probes until one succeeds or Retries + 1 probes were
      made, and returns them with the sleeps it took. */
  method ProbeWithRetry(c: ProbeConfig, url: string, probe: (string, nat) -> ProbeResult)
    returns (result: ProbeResult, calls: nat, sleeps: seq<int>)
    ensures (result, calls) == Retried(c.retries, url, probe)
    ensures sleeps == RetrySleeps(calls)
  {
    var lastResult := NoResult;
    var attempt: nat := 0;
    sleeps := [];
    while attempt <= c.retries
      invariant Retried(c.retries, url, probe) == RetriedFrom(c.retries, url, probe, attempt, lastResult)
      invariant sleeps == RetrySleeps(attempt)
      decreases c.retries + 1 - attempt
    {
      if attempt > 0 {
        sleeps := sleeps + [attempt * 500 * Retrying.Millisecond];
      }
      var r := probe(url, attempt);
      if Succeeded(r) {
        return r, attempt + 1, sleeps;
      }
      lastResult := r;
      attempt := attempt + 1;
    }
    return lastResult, attempt, sleeps;
  }

  /** What the retry loop promises: no more than Retries + 1 probes, at least
      one when Retries ≥ 0; a success is the first successful probe; a
      failure means every one of the Retries + 1 probes failed and the last of
      them is returned. */
  lemma RetriedSpec(retries: int, url: string, probe: (string, nat) -> ProbeResult)
    ensures var (r, n) := Retried(retries, url, probe);
      n <= Max(retries + 1, 0) &&
      (retries >= 0 ==> n >= 1) &&
      (Succeeded(r) ==> r == probe(url, n - 1)) &&
      (forall k :: 0 <= k < n - 1 ==> !Succeeded(probe(url, k))) &&
      (!Succeeded(r) ==> n == Max(retries + 1, 0) &&
                         (retries >= 0 ==> r == probe(url, retries)) &&
                         (retries < 0 ==> r == NoResult))
  {
    RetriedFromSpec(retries, url, probe, 0, NoResult);
  }

  lemma {:induction false} RetriedFromSpec(retries: int, url: string, probe: (string, nat) -> ProbeResult,
                                           attempt: nat, last: ProbeResult)
    requires attempt <= Max(retries + 1, 0)
    requires !Succeeded(last)
    requires forall k :: 0 <= k < attempt ==> !Succeeded(probe(url, k))
    requires attempt > 0 ==> last == probe(url, attempt - 1)
    ensures var (r, n) := RetriedFrom(retries, url, probe, attempt, last);
      attempt <= n <= Max(retries + 1, 0) &&
      (retries >= 0 ==> n >= 1) &&
      (Succeeded(r) ==> r == probe(url, n - 1)) &&
      (forall k :: 0 <= k < n - 1 ==> !Succeeded(probe(url, k))) &&
      (!Succeeded(r) ==> n == Max(retries + 1, 0) &&
                         (n > 0 ==> r == probe(url, n - 1)) &&
                         (n == 0 ==> r == last))
    decreases retries + 1 - attempt
  {
    if attempt <= retries && !Succeeded(probe(url, attempt)) {
      RetriedFromSpec(retries, url, probe, attempt + 1, probe(url, attempt));
    }
  }

  /** The worker's choice for one target: the retried result of the first
      candidate URL that succeeded, or nothing. */
  function FirstSuccess(retries: int, urls: seq<string>, probe: (string, nat) -> ProbeResult)
    : (o: Option<ProbeResult>)
    ensures o.Some? ==> Succeeded(o.value)
  {
    if urls == [] then None
    else
      var r := Retried(retries, urls[0], probe).0;
      if Succeeded(r) then Some(r) else FirstSuccess(retries, urls[1..], probe)
  }

  /** The worker emits a result exactly when some candidate succeeds, and then
      it is the first such candidate's result. */
  lemma {:induction false} FirstSuccessSpec(retries: int, urls: seq<string>,
                                            probe: (string, nat) -> ProbeResult)
    ensures FirstSuccess(retries, urls, probe).None? <==>
      forall i :: 0 <= i < |urls| ==> !Succeeded(Retried(retries, urls[i], probe).0)
    ensures FirstSuccess(retries, urls, probe).Some? ==>
      exists i :: 0 <= i < |urls| &&
        FirstSuccess(retries, urls, probe).value == Retried(retries, urls[i], probe).0 &&
        forall j :: 0 <= j < i ==> !Succeeded(Retried(retries, urls[j], probe).0)
  {
    if urls != [] {
      FirstSuccessSpec(retries, urls[1..], probe);
      var r := Retried(retries, urls[0], probe).0;
      if !Succeeded(r) {
        if FirstSuccess(retries, urls, probe).Some? {
          var i :| 0 <= i < |urls[1..]| &&
            FirstSuccess(retries, urls[1..], probe).value == Retried(retries, urls[1..][i], probe).0 &&
            forall j :: 0 <= j < i ==> !Succeeded(Retried(retries, urls[1..][j], probe).0);
          assert forall j :: 0 <= j < i + 1 ==> !Succeeded(Retried(retries, urls[j], probe).0) by {
            forall j | 0 <= j < i + 1
              ensures !Succeeded(Retried(retries, urls[j], probe).0)
            {
              if j > 0 { assert urls[j] == urls[1..][j - 1]; }
            }
          }
          assert urls[i + 1] == urls[1..][i];
        } else {
          forall i | 0 <= i < |urls|
            ensures !Succeeded(Retried(retries, urls[i], probe).0)
          {
            if i > 0 { assert urls[i] == urls[1..][i - 1]; }
          }
        }
      }
    }
  }

  /** One job of `worker`: try the normalised candidates in order and stop at
      the first whose retried probe succeeded. */
  method Worker(c: ProbeConfig, target: string, probe: (string, nat) -> ProbeResult)
    returns (emitted: Option<ProbeResult>)
    ensures emitted == FirstSuccess(c.retries, NormalizeURL(target), probe)
  {
    var urls := NormalizeURL(target);
    var i := 0;
    while i < |urls|
      invariant 0 <= i <= |urls|
      invariant FirstSuccess(c.retries, urls, probe) == FirstSuccess(c.retries, urls[i..], probe)
    {
      FirstSuccessStep(c.retries, urls, i, probe);
      var result, _, _ := ProbeWithRetry(c, urls[i], probe);
      if Succeeded(result) {
        return Some(result);
      }
      i := i + 1;
    }
    assert urls[i..] == [];
    return None;
  }

  lemma FirstSuccessStep(retries: int, urls: seq<string>, i: nat, probe: (string, nat) -> ProbeResult)
    requires i < |urls|
    ensures FirstSuccess(retries, urls[i..], probe) ==
      if Succeeded(Retried(retries, urls[i], probe).0) then Some(Retried(retries, urls[i], probe).0)
      else FirstSuccess(retries, urls[i + 1..], probe)
  {
    assert urls[i..][0] == urls[i];
    assert urls[i..][1..] == urls[i + 1..];
  }

  /** The worker's choice for each target, in target order. */
  function Choices(retries: int, targets: seq<string>, probe: (string, nat) -> ProbeResult)
    : (cs: seq<Option<ProbeResult>>)
    ensures |cs| == |targets|
  {
    if targets == [] then []
    else
      Choices(retries, targets[..|targets| - 1], probe) +
      [FirstSuccess(retries, NormalizeURL(targets[|targets| - 1]), probe)]
  }

  lemma {:induction false} ChoicesAt(retries: int, targets: seq<string>,
                                     probe: (string, nat) -> ProbeResult, i: nat)
    requires i < |targets|
    ensures Choices(retries, targets, probe)[i] == FirstSuccess(retries, NormalizeURL(targets[i]), probe)
  {
    var n := |targets| - 1;
    var init := targets[..n];
    assert Choices(retries, targets, probe) ==
      Choices(retries, init, probe) + [FirstSuccess(retries, NormalizeURL(targets[n]), probe)];
    if i < n {
      assert init[i] == targets[i];
      ChoicesAt(retries, init, probe, i);
    }
  }

  /** `Probe` in its sequential meaning: run the worker on each target and keep
      the results with a positive status code. */
  method Probe(c: ProbeConfig, targets: seq<string>, probe: (string, nat) -> ProbeResult)
    returns (probed: seq<ProbeResult>)
    ensures probed == Present(Choices(c.retries, targets, probe))
  {
    probed := [];
    for i := 0 to |targets|
      invariant probed == Present(Choices(c.retries, targets[..i], probe))
    {
      ProbeStep(c.retries, targets, i, probe);
      var emitted := Worker(c, targets[i], probe);
      if emitted.Some? && Succeeded(emitted.value) {
        probed := probed + [emitted.value];
      }
    }
    assert targets[..|targets|] == targets;
  }

  lemma ProbeStep(retries: int, targets: seq<string>, i: nat, probe: (string, nat) -> ProbeResult)
    requires i < |targets|
    ensures Present(Choices(retries, targets[..i + 1], probe)) ==
      Present(Choices(retries, targets[..i], probe)) + AsSeq(FirstSuccess(retries, NormalizeURL(targets[i]), probe))
  {
    assert targets[..i + 1][..i] == targets[..i];
    PresentSnoc(Choices(retries, targets[..i], probe), FirstSuccess(retries, NormalizeURL(targets[i]), probe));
  }

  /** What `Probe` returns: at most one result per target, each with a
      positive status code and each the first successful candidate of some
      target, and such a result for every target that has one. */
  lemma ProbeSpec(retries: int, targets: seq<string>, probe: (string, nat) -> ProbeResult)
    ensures var probed := Present(Choices(retries, targets, probe));
      |probed| <= |targets| &&
      (forall r :: r in probed ==>
         (Succeeded(r) &&
          exists i :: 0 <= i < |targets| && FirstSuccess(retries, NormalizeURL(targets[i]), probe) == Some(r))) &&
      (forall i :: 0 <= i < |targets| && FirstSuccess(retries, NormalizeURL(targets[i]), probe).Some? ==>
         FirstSuccess(retries, NormalizeURL(targets[i]), probe).value in probed)
  {
    var cs := Choices(retries, targets, probe);
    PresentSpec(cs);
    forall r | r in Present(cs)
      ensures Succeeded(r) &&
        exists i :: 0 <= i < |targets| && FirstSuccess(retries, NormalizeURL(targets[i]), probe) == Some(r)
    {
      var i :| 0 <= i < |cs| && cs[i] == Some(r);
      ChoicesAt(retries, targets, probe, i);
    }
    forall i | 0 <= i < |targets| && FirstSuccess(retries, NormalizeURL(targets[i]), probe).Some?
      ensures FirstSuccess(retries, NormalizeURL(targets[i]), probe).value in Present(cs)
    {
      ChoicesAt(retries, targets, probe, i);
    }
  }

  const MaxTitle := 100

  /** `extractTitle`'s post-processing of the captured title, `None` when the
      pattern did not match: trimmed, and cut to its first 100 bytes
      followed by "..." when longer. */
  function ExtractTitle(captured: Option<string>): (title: string)
    ensures captured.None? ==> title == ""
    ensures |title| <= MaxTitle + 3
    ensures captured.Some? && |TrimSpace(captured.value)| <= MaxTitle ==>
      title == TrimSpace(captured.value)
    ensures captured.Some? && |TrimSpace(captured.value)| > MaxTitle ==>
      title == TrimSpace(captured.value)[..MaxTitle] + "..."
  {
    match captured
    case None => ""
    case Some(m) =>
      var t := TrimSpace(m);
      if |t| > MaxTitle then t[..MaxTitle] + "..." else t
  }

  /** Extracting from an extracted title keeps it as it is. */
  lemma ExtractTitleIdempotent(captured: Option<string>)
    requires captured.Some?
    ensures ExtractTitle(Some(ExtractTitle(captured))) == ExtractTitle(captured)
  {
    var t := TrimSpace(captured.value);
    if |t| > MaxTitle {
      assert ExtractTitle(captured) == t[..MaxTitle] + "...";
      LongTitleStable(t);
    } else {
      assert ExtractTitle(captured) == t;
      TrimSpaceIdempotent(captured.value);
      assert ExtractTitle(Some(t)) == t;
    }
  }

  /** A cut title is kept as it is: it starts with the title's non-space first
      byte and ends with '.', and its first 100 bytes are the title's. */
  lemma LongTitleStable(t: string)
    requires |t| > MaxTitle && !IsSpace(t[0])
    ensures ExtractTitle(Some(t[..MaxTitle] + "...")) == t[..MaxTitle] + "..."
  {
    var u := t[..MaxTitle] + "...";
    assert u[0] == t[0];
    assert u[|u| - 1] == '.';
    TrimSpaceOfTrimmed(u);
    assert u[..MaxTitle] == t[..MaxTitle];
  }

  /** Response headers after Go's canonicalisation of their names. */
  type Headers = map<string, string>

  /** `http.Header.Get` for a name in canonical form: the value, or "" for an
      absent header. Go canonicalises the name it is given, so each call here
      passes the canonical spelling (Go's `Get("CF-Ray")` looks up "Cf-Ray"). */
  function Get(h: Headers, name: string): string
  {
    if name in h then h[name] else ""
  }

  /** The rules of `detectTechnologies` in their order, each a condition and
      the technology it adds: the Server and X-Powered-By rules (which run
      only for a present header), the body markers, then Cf-Ray and Via. */
  function TechnologyRules(h: Headers, body: string): (rules: seq<(bool, string)>)
    ensures |rules| == 19
  {
    var server := Get(h, "Server");
    var s := ToLower(server);
    var poweredBy := Get(h, "X-Powered-By");
    var p := ToLower(poweredBy);
    var bodyLower := ToLower(body);
    [ (server != "" && Contains(s, "nginx"), "Nginx"),
      (server != "" && Contains(s, "apache"), "Apache"),
      (server != "" && Contains(s, "cloudflare"), "Cloudflare"),
      (server != "" && Contains(s, "iis"), "IIS"),
      (poweredBy != "" && Contains(p, "php"), "PHP"),
      (poweredBy != "" && Contains(p, "asp.net"), "ASP.NET"),
      (poweredBy != "" && Contains(p, "express"), "Express.js"),
      (Contains(bodyLower, "react") || Contains(body, "__NEXT_DATA__"), "React"),
      (Contains(body, "ng-") || Contains(bodyLower, "angular"), "Angular"),
      (Contains(bodyLower, "vue"), "Vue.js"),
      (Contains(bodyLower, "jquery"), "jQuery"),
      (Contains(bodyLower, "wordpress") || Contains(body, "wp-content"), "WordPress"),
      (Contains(bodyLower, "drupal"), "Drupal"),
      (Contains(bodyLower, "joomla"), "Joomla"),
      (Contains(bodyLower, "laravel"), "Laravel"),
      (Contains(bodyLower, "django"), "Django"),
      (Contains(bodyLower, "rails") || Contains(body, "csrf-token"), "Ruby on Rails"),
      (Get(h, "Cf-Ray") != "", "Cloudflare"),
      (Contains(Get(h, "Via"), "cloudfront"), "CloudFront") ]
  }

  /** `detectTechnologies`: the rules in order, each adding its technology
      unless already seen. The result has no repetitions, and holds exactly
      the technologies of the rules that fired, in the order they first
      fired (Cloudflare found by both the Server header and Cf-Ray is listed
      once, in the Server rule's place). */
  method DetectTechnologies(h: Headers, body: string) returns (techs: seq<string>)
    ensures techs == Dedup(Fired(TechnologyRules(h, body)))
    ensures FiredOnce(TechnologyRules(h, body), techs)
  {
    techs := AddFired(TechnologyRules(h, body));
    AddFiredSpec(TechnologyRules(h, body));
  }

  /** A Cf-Ray header alone, with an empty body, is detected as Cloudflare and
      as nothing else. */
  lemma CfRayAloneIsCloudflare(ray: string)
    requires ray != ""
    ensures Dedup(Fired(TechnologyRules(map["Cf-Ray" := ray], ""))) == ["Cloudflare"]
  {
    var h := map["Cf-Ray" := ray];
    var rules := TechnologyRules(h, "");
    assert "Server"[0] != "Cf-Ray"[0] && "X-Powered-By"[0] != "Cf-Ray"[0] && "Via"[0] != "Cf-Ray"[0];
    assert Get(h, "Server") == "" && Get(h, "X-Powered-By") == "" && Get(h, "Via") == "";
    assert ToLower("") == [];
    forall sub: string | sub != []
      ensures !Contains([], sub)
    {
    }
    assert forall i :: 0 <= i < |rules| && rules[i].0 ==> i == 17;
    FiredSingle(rules, 17);
    assert Dedup(["Cloudflare"]) == Dedup([]) + ["Cloudflare"];
  }

  /** A Server header naming cloudflare together with a Cf-Ray header: both
      rules fire, and Cloudflare is listed exactly once. */
  lemma CloudflareListedOnce(h: Headers, body: string)
    requires "Server" in h && Contains(ToLower(h["Server"]), "cloudflare")
    requires "Cf-Ray" in h && h["Cf-Ray"] != ""
    ensures TechnologyRules(h, body)[2] == (true, "Cloudflare")
    ensures TechnologyRules(h, body)[17] == (true, "Cloudflare")
    ensures var techs := Dedup(Fired(TechnologyRules(h, body)));
            exists i :: 0 <= i < |techs| && techs[i] == "Cloudflare"
              && forall j :: 0 <= j < |techs| && techs[j] == "Cloudflare" ==> j == i
  {
    var rules := TechnologyRules(h, body);
    assert h["Server"] != [] by {
      var k :| 0 <= k <= |ToLower(h["Server"])| - |"cloudflare"| && OccursAt(ToLower(h["Server"]), "cloudflare", k);
    }
    assert rules[2].0;
    var techs := Dedup(Fired(rules));
    AddFiredSpec(rules);
    assert "Cloudflare" in techs;
    var i :| 0 <= i < |techs| && techs[i] == "Cloudflare";
    forall j | 0 <= j < |techs| && techs[j] == "Cloudflare"
      ensures j == i
    {
      assert NoDuplicates(techs);
    }
    assert techs == Dedup(Fired(TechnologyRules(h, body)));
  }
}
