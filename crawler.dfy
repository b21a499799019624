/** The crawler's bookkeeping: the seen set keyed by scheme, host and path,
    href resolution and its filters, the same-host test, URL classification,
    link and form extraction, and the queueing rules of one crawled page.
    URL parsing and reference resolution, the HTTP fetches and the regular
    expression matches are oracles or inputs. */
module Crawling {
  import opened Strings
  import opened Collections
  import HttpProbing

  /** The parts of a parsed URL the crawler reads. */
  datatype Url = Url(scheme: string, host: string, path: string, query: string, fragment: string)

  /** `URL.String()` for the URLs the crawler builds: scheme, "://", host,
      path, then the query and the fragment when present. */
  function Render(u: Url): (s: string)
    ensures HasPrefix(s, u.scheme + "://")
  {
    var s := u.scheme + "://" + u.host + u.path +
      (if u.query == "" then "" else "?" + u.query) +
      (if u.fragment == "" then "" else "#" + u.fragment);
    assert s[..|u.scheme + "://"|] == u.scheme + "://";
    s
  }

  /** The seen-set key: scheme + "://" + host + path, dropping query and
      fragment. */
  function Key(u: Url): string
  {
    u.scheme + "://" + u.host + u.path
  }

  /** URLs that differ only in their query or fragment share a key. */
  lemma KeyIgnoresQueryAndFragment(u: Url, query: string, fragment: string)
    ensures Key(u.(query := query, fragment := fragment)) == Key(u)
  {
  }

  /** The crawler's configuration. */
  datatype CrawlConfig = CrawlConfig(
    startURLs: seq<string>,
    maxDepth: int,
    maxURLs: int,
    workers: int,
    timeout: int,
    rateLimit: int,
    sameHost: bool,
    jsParse: bool,
    userAgent: string)

  /** `NewCrawler`'s defaults: a zero field takes its default. */
  function CrawlerDefaults(c: CrawlConfig): (r: CrawlConfig)
    ensures r.maxDepth == (if c.maxDepth == 0 then 3 else c.maxDepth)
    ensures r.maxURLs == (if c.maxURLs == 0 then 1000 else c.maxURLs)
    ensures r.workers == (if c.workers == 0 then 20 else c.workers)
    ensures r.timeout == (if c.timeout == 0 then 10 else c.timeout)
    ensures r.rateLimit == (if c.rateLimit == 0 then 50 else c.rateLimit)
    ensures r.userAgent == (if c.userAgent == "" then "ReconCrawler/1.0" else c.userAgent)
    ensures r.startURLs == c.startURLs && r.sameHost == c.sameHost && r.jsParse == c.jsParse
  {
    c.(maxDepth := if c.maxDepth == 0 then 3 else c.maxDepth,
       maxURLs := if c.maxURLs == 0 then 1000 else c.maxURLs,
       workers := if c.workers == 0 then 20 else c.workers,
       timeout := if c.timeout == 0 then 10 else c.timeout,
       rateLimit := if c.rateLimit == 0 then 50 else c.rateLimit,
       userAgent := if c.userAgent == "" then "ReconCrawler/1.0" else c.userAgent)
  }

  /** The prober the crawler builds: redirects followed up to 3, and the
      prober's own defaults for what the crawler leaves zero. */
  function CrawlerProber(c: CrawlConfig): (p: HttpProbing.ProbeConfig)
    ensures p.followRedirect && p.maxRedirects == 3
    ensures p.retries == 2 && p.rateLimit == 500
    ensures c.workers != 0 ==> p.workers == c.workers
  {
    HttpProbing.ProberDefaults(HttpProbing.ProbeConfig(c.workers, c.timeout, true, 3, 0, 0, c.userAgent))
  }

  /** `markSeen` on a seen set: an unparsable URL is refused and changes
      nothing; otherwise the key is inserted and the answer is whether it
      was new. */
  function MarkSeen(seen: set<string>, urlStr: string, parse: string -> Option<Url>): (set<string>, bool)
  {
    match parse(urlStr)
    case None => (seen, false)
    case Some(u) => if Key(u) in seen then (seen, false) else (seen + {Key(u)}, true)
  }

  /** `markSeen` answers true exactly when the key was absent, the set only
      grows, and `urlCount` grows by one exactly then. */
  lemma MarkSeenSpec(seen: set<string>, urlStr: string, parse: string -> Option<Url>)
    ensures var (seen', isNew) := MarkSeen(seen, urlStr, parse);
      seen <= seen' &&
      (isNew <==> parse(urlStr).Some? && Key(parse(urlStr).value) !in seen) &&
      (parse(urlStr).Some? ==> seen' == seen + {Key(parse(urlStr).value)}) &&
      (parse(urlStr).None? ==> seen' == seen) &&
      |seen'| == |seen| + (if isNew then 1 else 0)
  {
  }

  /** `resolveURL`: drops empty, fragment-only, javascript:, mailto: and
      data: references, then resolves against the base (`resolve` is
      `url.Parse` followed by `ResolveReference`, `None` on a parse error)
      and keeps only http and https results. */
  function ResolveURL(href: string, base: Url, resolve: (Url, string) -> Option<Url>): string
  {
    var h := TrimSpace(href);
    if Skipped(h) then ""
    else
      match resolve(base, h)
      case None => ""
      case Some(u) => if u.scheme != "http" && u.scheme != "https" then "" else Render(u)
  }

  predicate Skipped(h: string)
  {
    h == "" || HasPrefix(h, "#") || HasPrefix(h, "javascript:") ||
    HasPrefix(h, "mailto:") || HasPrefix(h, "data:")
  }

  /** Skipped references resolve to "", and a non-empty result is an http or
      https URL. */
  lemma ResolveURLSpec(href: string, base: Url, resolve: (Url, string) -> Option<Url>)
    ensures Skipped(TrimSpace(href)) ==> ResolveURL(href, base, resolve) == ""
    ensures ResolveURL(href, base, resolve) != "" ==>
      HasPrefix(ResolveURL(href, base, resolve), "http://") ||
      HasPrefix(ResolveURL(href, base, resolve), "https://")
  {
    var h := TrimSpace(href);
    if !Skipped(h) && resolve(base, h).Some? {
      var u := resolve(base, h).value;
      if u.scheme == "http" || u.scheme == "https" {
        RenderedScheme(u);
      }
    }
  }

  /** An http or https URL renders with its scheme's prefix. */
  lemma RenderedScheme(u: Url)
    requires u.scheme == "http" || u.scheme == "https"
    ensures HasPrefix(Render(u), "http://") || HasPrefix(Render(u), "https://")
  {
    if u.scheme == "http" {
      assert u.scheme + "://" == "http://";
    } else {
      assert u.scheme + "://" == "https://";
    }
  }

  /** `isSameHost`: the parsed host is `host` or ends with "." + `host`. */
  predicate IsSameHost(urlStr: string, host: string, parse: string -> Option<Url>)
  {
    match parse(urlStr)
    case None => false
    case Some(u) => u.host == host || HasSuffix(u.host, "." + host)
  }

  /** A host other than `host` itself must end with `host` right after a dot:
      "a.example.com" is on the same host as "example.com", "xexample.com"
      is not. */
  lemma SameHostSpec(urlStr: string, host: string, parse: string -> Option<Url>)
    ensures IsSameHost(urlStr, host, parse) <==>
      parse(urlStr).Some? &&
      var h := parse(urlStr).value.host;
      h == host || (|h| > |host| && h[|h| - |host| - 1] == '.' && h[|h| - |host|..] == host)
  {
    if parse(urlStr).Some? {
      var h := parse(urlStr).value.host;
      var d := "." + host;
      if |h| > |host| && h[|h| - |host| - 1] == '.' && h[|h| - |host|..] == host {
        assert h[|h| - |d|..] == [h[|h| - |host| - 1]] + h[|h| - |host|..];
      }
      if HasSuffix(h, d) {
        assert h[|h| - |host|..] == h[|h| - |d|..][1..];
      }
    }
  }

  /** `classifyURL`: the first rule that applies. */
  function ClassifyURL(urlStr: string, contentType: string): string
  {
    var lower := ToLower(urlStr);
    if Contains(lower, "/api/") || Contains(lower, "/graphql") then "api"
    else if HasSuffix(lower, ".js") then "js"
    else if HasSuffix(lower, ".css") then "css"
    else if Contains(contentType, "json") then "api"
    else if Contains(contentType, "javascript") then "js"
    else "page"
  }

  /** The URL's own path markers decide before the content type: an /api/ or
      /graphql URL is an api even when served as JavaScript, and a .js URL is
      js even when served as JSON. */
  lemma ClassifyURLSpec(urlStr: string, contentType: string)
    ensures var k := ClassifyURL(urlStr, contentType);
      var lower := ToLower(urlStr);
      var byPath := Contains(lower, "/api/") || Contains(lower, "/graphql");
      var bySuffix := HasSuffix(lower, ".js") || HasSuffix(lower, ".css");
      (k == "api" <==> byPath || (!bySuffix && Contains(contentType, "json"))) &&
      (k == "js" <==> !byPath && (HasSuffix(lower, ".js") ||
                                  (!HasSuffix(lower, ".css") && !Contains(contentType, "json") &&
                                   Contains(contentType, "javascript")))) &&
      (k == "css" <==> !byPath && !HasSuffix(lower, ".js") && HasSuffix(lower, ".css")) &&
      (k == "page" <==> !byPath && !bySuffix && !Contains(contentType, "json") &&
                        !Contains(contentType, "javascript"))
  {
  }

  /** `resolveURL` against a fixed base, as a function of the reference. */
  function Resolver(base: Url, resolve: (Url, string) -> Option<Url>): (link: string -> string)
  {
    h => ResolveURL(h, base, resolve)
  }

  /** The result of `link` when it is not empty. */
  function NonBlank(link: string -> string): (keep: string -> Option<string>)
    ensures forall h :: keep(h) == if link(h) != "" then Some(link(h)) else None
  {
    h => if link(h) != "" then Some(link(h)) else None
  }

  /** The non-empty results of `link` on `refs`, in order. */
  function Kept(refs: seq<string>, link: string -> string): (links: seq<string>)
    ensures |links| <= |refs|
  {
    Mapped(refs, NonBlank(link))
  }

  /** Every kept link is non-empty and is the result for one of the
      references; every non-empty result is kept. */
  lemma KeptSpec(refs: seq<string>, link: string -> string)
    ensures forall l :: l in Kept(refs, link) ==>
      l != "" && exists i :: 0 <= i < |refs| && link(refs[i]) == l
    ensures forall i :: 0 <= i < |refs| && link(refs[i]) != "" ==> link(refs[i]) in Kept(refs, link)
  {
    MappedSpec(refs, NonBlank(link));
  }

  lemma KeptAppend(refs: seq<string>, more: seq<string>, link: string -> string)
    ensures Kept(refs + more, link) == Kept(refs, link) + Kept(more, link)
  {
    MappedAppend(refs, more, NonBlank(link));
  }

  /** `extractLinks` with the href and src captures in match order: the
      resolved links, href ones first, each once. */
  method ExtractLinks(hrefs: seq<string>, srcs: seq<string>, link: string -> string)
    returns (links: seq<string>)
    ensures links == Dedup(Kept(hrefs + srcs, link))
  {
    var seen: set<string>;
    links, seen := CollectMapped([], [], {}, hrefs, NonBlank(link));
    assert [] + hrefs == hrefs;
    links, seen := CollectMapped(hrefs, links, seen, srcs, NonBlank(link));
  }

  /** The extracted links hold no duplicates and no empty string, each is the
      resolution of a capture, every capture that resolves is among them, and
      the href links come first, in their own order. */
  lemma ExtractLinksSpec(hrefs: seq<string>, srcs: seq<string>, base: Url,
                         resolve: (Url, string) -> Option<Url>)
    ensures var links := Dedup(Kept(hrefs + srcs, Resolver(base, resolve)));
      NoDuplicates(links) &&
      (forall l :: l in links ==> (l != "" &&
        exists i :: 0 <= i < |hrefs + srcs| && ResolveURL((hrefs + srcs)[i], base, resolve) == l)) &&
      (forall i :: 0 <= i < |hrefs + srcs| && ResolveURL((hrefs + srcs)[i], base, resolve) != "" ==>
        ResolveURL((hrefs + srcs)[i], base, resolve) in links) &&
      Dedup(Kept(hrefs, Resolver(base, resolve))) <= links
  {
    var link := Resolver(base, resolve);
    var all := Kept(hrefs + srcs, link);
    KeptAppend(hrefs, srcs, link);
    DedupPrefix(Kept(hrefs, link), Kept(srcs, link));
    KeptSpec(hrefs + srcs, link);
    DedupSpec(all);
    forall l | l in Dedup(all)
      ensures l != "" && exists i :: 0 <= i < |hrefs + srcs| && ResolveURL((hrefs + srcs)[i], base, resolve) == l
    {
      assert l in all;
      var i :| 0 <= i < |hrefs + srcs| && link((hrefs + srcs)[i]) == l;
    }
    forall i | 0 <= i < |hrefs + srcs| && ResolveURL((hrefs + srcs)[i], base, resolve) != ""
      ensures ResolveURL((hrefs + srcs)[i], base, resolve) in Dedup(all)
    {
      assert link((hrefs + srcs)[i]) in all;
    }
  }

  /** `extractJSEndpoints` with the captures of each pattern in pattern order:
      the resolved endpoints, each once. */
  method ExtractJSEndpoints(captures: seq<seq<string>>, link: string -> string)
    returns (endpoints: seq<string>)
    ensures endpoints == Dedup(Kept(Flatten(captures), link))
  {
    endpoints := [];
    var seen: set<string> := {};
    for p := 0 to |captures|
      invariant endpoints == Dedup(Kept(Flatten(captures[..p]), link))
      invariant Tracks(seen, Kept(Flatten(captures[..p]), link))
    {
      endpoints, seen := CollectMapped(Flatten(captures[..p]), endpoints, seen, captures[p], NonBlank(link));
      FlattenPrefixStep(captures, p);
    }
    assert captures[..|captures|] == captures;
  }

  /** A form as the form pattern captures it: the action attribute and the
      input names of its body. */
  datatype FormMatch = FormMatch(action: string, inputs: seq<string>)

  datatype FormInfo = FormInfo(url: string, params: seq<string>)

  /** One form of `extractForms`: its action as `link` resolves it, or the
      page's own URL `fallback` when that is empty, with every input name. */
  function FormOf(m: FormMatch, link: string -> string, fallback: string): (f: FormInfo)
    ensures fallback != "" ==> f.url != ""
    ensures f.params == m.inputs
  {
    var action := link(m.action);
    FormInfo(if action == "" then fallback else action, m.inputs)
  }

  /** The forms of a page as `extractForms` reports them, one per match. */
  function FormsOf(matches: seq<FormMatch>, link: string -> string, fallback: string): (forms: seq<FormInfo>)
    ensures |forms| == |matches|
  {
    seq(|matches|, i requires 0 <= i < |matches| => FormOf(matches[i], link, fallback))
  }

  /** Each form keeps its match's input names and has a non-empty URL: the
      resolved action, or the base URL when the action resolves to nothing. */
  lemma FormsOfSpec(matches: seq<FormMatch>, base: Url, resolve: (Url, string) -> Option<Url>)
    ensures var forms := FormsOf(matches, Resolver(base, resolve), Render(base));
      forall i :: 0 <= i < |matches| ==>
        forms[i].params == matches[i].inputs && forms[i].url != "" &&
        (forms[i].url == ResolveURL(matches[i].action, base, resolve) ||
         (ResolveURL(matches[i].action, base, resolve) == "" && forms[i].url == Render(base)))
  {
    assert |Render(base)| >= 3;
  }

  /** `extractForms`: one entry per form match, in order. */
  method ExtractForms(matches: seq<FormMatch>, link: string -> string, fallback: string)
    returns (forms: seq<FormInfo>)
    ensures forms == FormsOf(matches, link, fallback)
  {
    forms := [];
    for i := 0 to |matches|
      invariant |forms| == i
      invariant forall k :: 0 <= k < i ==> forms[k] == FormOf(matches[k], link, fallback)
    {
      var action := link(matches[i].action);
      if action == "" {
        action := fallback;
      }
      var params: seq<string> := [];
      for j := 0 to |matches[i].inputs|
        invariant params == matches[i].inputs[..j]
      {
        assert matches[i].inputs[..j + 1] == params + [matches[i].inputs[j]];
        params := params + [matches[i].inputs[j]];
      }
      assert matches[i].inputs[..|matches[i].inputs|] == matches[i].inputs;
      forms := forms + [FormInfo(action, params)];
    }
    assert forms == FormsOf(matches, link, fallback);
  }

  /** A page to crawl and the depth it was found at. */
  datatype CrawlJob = CrawlJob(url: string, depth: int)

  /** A discovered URL, where it was found and how it was classified. */
  datatype CrawlResult = CrawlResult(url: string, source: string, depth: int, kind: string,
                                     params: seq<string>)

  /** What the network and the regular expressions give for one page: the
      probe's status code and content type, the status code of the second
      probe, the body (or "" when the fetch failed), and the captures of the
      href, src, script-endpoint and form patterns. */
  datatype Page = Page(
    statusCode: int,
    contentType: string,
    fullStatusCode: int,
    body: string,
    hrefs: seq<string>,
    srcs: seq<string>,
    scriptCaptures: seq<seq<string>>,
    forms: seq<FormMatch>)

  /** The queueing loop of `crawlURL` from the `links` still to do: stop once
      `urlCount` reaches MaxURLs, skip off-host links when SameHost is set,
      and queue a newly seen link at `depth` unless the queue is full. */
  function QueueLinks(c: CrawlConfig, capacity: nat, links: seq<string>, baseHost: string,
                      depth: int, parse: string -> Option<Url>,
                      seen: set<string>, queue: seq<CrawlJob>): (set<string>, seq<CrawlJob>)
  {
    if links == [] || |seen| >= c.maxURLs then (seen, queue)
    else if c.sameHost && !IsSameHost(links[0], baseHost, parse) then
      QueueLinks(c, capacity, links[1..], baseHost, depth, parse, seen, queue)
    else
      var (seen', isNew) := MarkSeen(seen, links[0], parse);
      var queue' := if isNew && |queue| < capacity then queue + [CrawlJob(links[0], depth)] else queue;
      QueueLinks(c, capacity, links[1..], baseHost, depth, parse, seen', queue')
  }

  /** What the queueing loop promises: the queue only grows, by jobs at
      `depth` for links of the page, never beyond the channel's capacity;
      the seen set only grows, by keys of links that passed the host filter
      (so off-host links are never marked seen), and it grows past MaxURLs by
      at most the one key added when the count was below it. */
  lemma {:induction false} QueueLinksSpec(c: CrawlConfig, capacity: nat, links: seq<string>,
                                          baseHost: string, depth: int, parse: string -> Option<Url>,
                                          seen: set<string>, queue: seq<CrawlJob>)
    ensures var (seen', queue') := QueueLinks(c, capacity, links, baseHost, depth, parse, seen, queue);
      queue <= queue' &&
      |queue'| <= (if |queue| < capacity then capacity else |queue|) &&
      (forall k :: |queue| <= k < |queue'| ==> queue'[k].depth == depth && queue'[k].url in links) &&
      seen <= seen' &&
      (forall key :: key in seen' && key !in seen ==>
        exists i :: 0 <= i < |links| && (c.sameHost ==> IsSameHost(links[i], baseHost, parse)) &&
                    parse(links[i]).Some? && Key(parse(links[i]).value) == key) &&
      |seen'| <= (if |seen| < c.maxURLs then c.maxURLs else |seen|)
    decreases |links|
  {
    if links == [] || |seen| >= c.maxURLs {
    } else if c.sameHost && !IsSameHost(links[0], baseHost, parse) {
      QueueLinksSpec(c, capacity, links[1..], baseHost, depth, parse, seen, queue);
      QueueLinksTail(c, capacity, links, baseHost, depth, parse, seen, queue, seen, queue);
    } else {
      var (seen1, isNew) := MarkSeen(seen, links[0], parse);
      MarkSeenSpec(seen, links[0], parse);
      var queue1 := if isNew && |queue| < capacity then queue + [CrawlJob(links[0], depth)] else queue;
      QueueLinksSpec(c, capacity, links[1..], baseHost, depth, parse, seen1, queue1);
      QueueLinksTail(c, capacity, links, baseHost, depth, parse, seen, queue, seen1, queue1);
    }
  }

  /** The facts about the rest of the links carry over to all of them. */
  lemma QueueLinksTail(c: CrawlConfig, capacity: nat, links: seq<string>,
                       baseHost: string, depth: int, parse: string -> Option<Url>,
                       seen: set<string>, queue: seq<CrawlJob>, seen1: set<string>, queue1: seq<CrawlJob>)
    requires links != [] && |seen| < c.maxURLs
    requires queue <= queue1 && |queue1| <= |queue| + 1 && (|queue1| > |queue| ==> |queue| < capacity)
    requires forall k :: |queue| <= k < |queue1| ==> queue1[k].depth == depth && queue1[k].url == links[0]
    requires seen <= seen1 && |seen1| <= |seen| + 1
    requires forall key :: key in seen1 && key !in seen ==>
      (c.sameHost ==> IsSameHost(links[0], baseHost, parse)) &&
      parse(links[0]).Some? && Key(parse(links[0]).value) == key
    requires var (seen', queue') := QueueLinks(c, capacity, links[1..], baseHost, depth, parse, seen1, queue1);
      queue1 <= queue' &&
      |queue'| <= (if |queue1| < capacity then capacity else |queue1|) &&
      (forall k :: |queue1| <= k < |queue'| ==> queue'[k].depth == depth && queue'[k].url in links[1..]) &&
      seen1 <= seen' &&
      (forall key :: key in seen' && key !in seen1 ==>
        exists i :: 0 <= i < |links[1..]| && (c.sameHost ==> IsSameHost(links[1..][i], baseHost, parse)) &&
                    parse(links[1..][i]).Some? && Key(parse(links[1..][i]).value) == key) &&
      |seen'| <= (if |seen1| < c.maxURLs then c.maxURLs else |seen1|)
    ensures var (seen', queue') := QueueLinks(c, capacity, links[1..], baseHost, depth, parse, seen1, queue1);
      queue <= queue' &&
      |queue'| <= (if |queue| < capacity then capacity else |queue|) &&
      (forall k :: |queue| <= k < |queue'| ==> queue'[k].depth == depth && queue'[k].url in links) &&
      seen <= seen' &&
      (forall key :: key in seen' && key !in seen ==>
        exists i :: 0 <= i < |links| && (c.sameHost ==> IsSameHost(links[i], baseHost, parse)) &&
                    parse(links[i]).Some? && Key(parse(links[i]).value) == key) &&
      |seen'| <= (if |seen| < c.maxURLs then c.maxURLs else |seen|)
  {
    var (seen', queue') := QueueLinks(c, capacity, links[1..], baseHost, depth, parse, seen1, queue1);
    forall k | |queue| <= k < |queue'|
      ensures queue'[k].depth == depth && queue'[k].url in links
    {
      if k >= |queue1| {
        assert queue'[k].url in links[1..];
      } else {
        assert queue'[k] == queue1[k];
      }
    }
    forall key | key in seen' && key !in seen
      ensures exists i :: 0 <= i < |links| && (c.sameHost ==> IsSameHost(links[i], baseHost, parse)) &&
                          parse(links[i]).Some? && Key(parse(links[i]).value) == key
    {
      if key in seen1 {
        assert 0 < |links| && (c.sameHost ==> IsSameHost(links[0], baseHost, parse)) &&
               parse(links[0]).Some? && Key(parse(links[0]).value) == key;
      } else {
        var i :| 0 <= i < |links[1..]| && (c.sameHost ==> IsSameHost(links[1..][i], baseHost, parse)) &&
                 parse(links[1..][i]).Some? && Key(parse(links[1..][i]).value) == key;
        assert links[1..][i] == links[i + 1];
      }
    }
  }

  /** The emission loops for script endpoints and form actions: each newly
      seen URL is reported at `depth` with the given source and kind. */
  function Announce(items: seq<FormInfo>, source: string, kind: string, depth: int,
                    parse: string -> Option<Url>, seen: set<string>, results: seq<CrawlResult>)
    : (set<string>, seq<CrawlResult>)
  {
    if items == [] then (seen, results)
    else
      var (seen', isNew) := MarkSeen(seen, items[0].url, parse);
      var results' := if isNew then results + [CrawlResult(items[0].url, source, depth, kind, items[0].params)]
                      else results;
      Announce(items[1..], source, kind, depth, parse, seen', results')
  }

  /** Every announced result carries the page's depth, the given source and
      kind, and the URL of one of the items; the seen set only grows. */
  lemma {:induction false} AnnounceSpec(items: seq<FormInfo>, source: string, kind: string, depth: int,
                                        parse: string -> Option<Url>, seen: set<string>,
                                        results: seq<CrawlResult>)
    ensures var (seen', results') := Announce(items, source, kind, depth, parse, seen, results);
      seen <= seen' && results <= results' &&
      |results'| <= |results| + |items| &&
      forall k :: |results| <= k < |results'| ==>
        results'[k].depth == depth && results'[k].source == source && results'[k].kind == kind
    decreases |items|
  {
    if items != [] {
      var (seen1, isNew) := MarkSeen(seen, items[0].url, parse);
      var results1 := if isNew then results + [CrawlResult(items[0].url, source, depth, kind, items[0].params)]
                      else results;
      AnnounceSpec(items[1..], source, kind, depth, parse, seen1, results1);
      var (seen', results') := Announce(items[1..], source, kind, depth, parse, seen1, results1);
      forall k | |results| <= k < |results'|
        ensures results'[k].depth == depth && results'[k].source == source && results'[k].kind == kind
      {
        if k < |results1| {
          assert results'[k] == results1[k];
        }
      }
    }
  }

  function AsItems(urls: seq<string>): (items: seq<FormInfo>)
    ensures |items| == |urls|
    ensures forall i :: 0 <= i < |urls| ==> items[i] == FormInfo(urls[i], [])
  {
    if urls == [] then [] else [FormInfo(urls[0], [])] + AsItems(urls[1..])
  }

  /** The crawler's shared state in one value: the seen set, the pending
      jobs and the reported results. */
  datatype State = State(seen: set<string>, queue: seq<CrawlJob>, results: seq<CrawlResult>)

  /** The record `crawlURL` reports for a page it reached. */
  function Record(job: CrawlJob, page: Page): CrawlResult
  {
    CrawlResult(job.url, "crawl", job.depth, ClassifyURL(job.url, page.contentType), [])
  }

  /** Whether `crawlURL` goes on to extract from the page: below MaxDepth,
      served as HTML, and both the second probe and the body fetch
      succeeded. */
  predicate Expands(c: CrawlConfig, job: CrawlJob, page: Page)
  {
    job.depth < c.maxDepth && Contains(page.contentType, "text/html") &&
    page.fullStatusCode != 0 && page.body != ""
  }

  /** The link loop applied to a state. */
  function QueueStage(c: CrawlConfig, capacity: nat, s: State, links: seq<string>, baseHost: string,
                      depth: int, parse: string -> Option<Url>): State
  {
    var (seen', queue') := QueueLinks(c, capacity, links, baseHost, depth, parse, s.seen, s.queue);
    s.(seen := seen', queue := queue')
  }

  /** An emission loop applied to a state. */
  function AnnounceStage(items: seq<FormInfo>, source: string, kind: string, depth: int,
                         parse: string -> Option<Url>, s: State): State
  {
    var (seen', results') := Announce(items, source, kind, depth, parse, s.seen, s.results);
    s.(seen := seen', results := results')
  }

  /** What an expanded page adds: its links queued at depth + 1, then its
      script endpoints when JSParse is set, then its form actions. `link`
      resolves a reference against the page's URL, whose host is `baseHost`
      and whose text is `baseText`. */
  function Discover(c: CrawlConfig, capacity: nat, s: State, job: CrawlJob, page: Page,
                    baseHost: string, baseText: string, link: string -> string,
                    parse: string -> Option<Url>): State
  {
    var s2 := QueueStage(c, capacity, s, Dedup(Kept(page.hrefs + page.srcs, link)), baseHost, job.depth + 1, parse);
    var s3 := if c.jsParse then
                AnnounceStage(AsItems(Dedup(Kept(Flatten(page.scriptCaptures), link))), "js-parse", "api",
                              job.depth, parse, s2)
              else s2;
    AnnounceStage(FormsOf(page.forms, link, baseText), "form", "form", job.depth, parse, s3)
  }

  /** Discovery is its three stages in turn. */
  lemma DiscoverStages(c: CrawlConfig, capacity: nat, s1: State, s2: State, s3: State, job: CrawlJob, page: Page,
                       baseHost: string, baseText: string, link: string -> string, parse: string -> Option<Url>)
    requires s2 == QueueStage(c, capacity, s1, Dedup(Kept(page.hrefs + page.srcs, link)), baseHost, job.depth + 1, parse)
    requires s3 == if c.jsParse then
        AnnounceStage(AsItems(Dedup(Kept(Flatten(page.scriptCaptures), link))), "js-parse", "api", job.depth, parse, s2)
        else s2
    ensures Discover(c, capacity, s1, job, page, baseHost, baseText, link, parse) ==
      AnnounceStage(FormsOf(page.forms, link, baseText), "form", "form", job.depth, parse, s3)
  {
  }

  /** `crawlURL` in its sequential meaning: a page whose probe fails changes
      nothing; otherwise it is reported, and an expanded page then
      discovers. */
  function CrawlStep(c: CrawlConfig, capacity: nat, s: State, job: CrawlJob, page: Page,
                     baseHost: string, baseText: string, link: string -> string,
                     parse: string -> Option<Url>): State
  {
    if page.statusCode == 0 then s
    else
      var s1 := s.(results := s.results + [Record(job, page)]);
      if Expands(c, job, page) then Discover(c, capacity, s1, job, page, baseHost, baseText, link, parse) else s1
  }

  /** The link stage only grows the seen set and the queue, by jobs at the
      given depth, and leaves the results alone. */
  lemma QueueStageSpec(c: CrawlConfig, capacity: nat, s: State, links: seq<string>, baseHost: string,
                       depth: int, parse: string -> Option<Url>)
    ensures var s' := QueueStage(c, capacity, s, links, baseHost, depth, parse);
      s.seen <= s'.seen && s.queue <= s'.queue && s'.results == s.results &&
      forall k :: |s.queue| <= k < |s'.queue| ==> s'.queue[k].depth == depth
  {
    QueueLinksSpec(c, capacity, links, baseHost, depth, parse, s.seen, s.queue);
  }

  /** An emission stage only grows the seen set and the results, by results
      at the given depth, and leaves the queue alone. */
  lemma AnnounceStageSpec(items: seq<FormInfo>, source: string, kind: string, depth: int,
                          parse: string -> Option<Url>, s: State)
    ensures var s' := AnnounceStage(items, source, kind, depth, parse, s);
      s.seen <= s'.seen && s.results <= s'.results && s'.queue == s.queue &&
      forall k :: |s.results| <= k < |s'.results| ==> s'.results[k].depth == depth
  {
    AnnounceSpec(items, source, kind, depth, parse, s.seen, s.results);
  }

  /** Discovery only grows the state; what it queues is one level deeper
      than the page and what it reports is at the page's depth. */
  lemma DiscoverSpec(c: CrawlConfig, capacity: nat, s1: State, job: CrawlJob, page: Page,
                     baseHost: string, baseText: string, link: string -> string,
                     parse: string -> Option<Url>)
    ensures var d := Discover(c, capacity, s1, job, page, baseHost, baseText, link, parse);
      s1.seen <= d.seen && s1.queue <= d.queue && s1.results <= d.results &&
      (forall k :: |s1.queue| <= k < |d.queue| ==> d.queue[k].depth == job.depth + 1) &&
      (forall k :: |s1.results| <= k < |d.results| ==> d.results[k].depth == job.depth)
  {
    var links := Dedup(Kept(page.hrefs + page.srcs, link));
    var s2 := QueueStage(c, capacity, s1, links, baseHost, job.depth + 1, parse);
    QueueStageSpec(c, capacity, s1, links, baseHost, job.depth + 1, parse);
    var scripts := AsItems(Dedup(Kept(Flatten(page.scriptCaptures), link)));
    var s3 := if c.jsParse then AnnounceStage(scripts, "js-parse", "api", job.depth, parse, s2) else s2;
    AnnounceStageSpec(scripts, "js-parse", "api", job.depth, parse, s2);
    var forms := FormsOf(page.forms, link, baseText);
    AnnounceStageSpec(forms, "form", "form", job.depth, parse, s3);
    DiscoverStages(c, capacity, s1, s2, s3, job, page, baseHost, baseText, link, parse);
    var s4 := AnnounceStage(forms, "form", "form", job.depth, parse, s3);
    DepthsChain(s1.results, s3.results, s4.results, job.depth);
  }

  /** A crawled page is reported at its job's depth before anything it leads
      to; everything it reports is at that depth, everything it queues is at
      depth + 1, and it queues nothing at or beyond MaxDepth, for a non-HTML
      page or when the page cannot be fetched. */
  lemma CrawlStepSpec(c: CrawlConfig, capacity: nat, s: State, job: CrawlJob, page: Page,
                      baseHost: string, baseText: string, link: string -> string,
                      parse: string -> Option<Url>)
    ensures var s' := CrawlStep(c, capacity, s, job, page, baseHost, baseText, link, parse);
      (page.statusCode == 0 ==> s' == s) &&
      (page.statusCode != 0 ==> s.results + [Record(job, page)] <= s'.results) &&
      s.seen <= s'.seen && s.queue <= s'.queue &&
      (forall k :: |s.queue| <= k < |s'.queue| ==> s'.queue[k].depth == job.depth + 1) &&
      (!Expands(c, job, page) ==> s'.queue == s.queue && s'.seen == s.seen) &&
      (forall k :: |s.results| <= k < |s'.results| ==> s'.results[k].depth == job.depth)
  {
    if page.statusCode != 0 {
      var s1 := s.(results := s.results + [Record(job, page)]);
      if Expands(c, job, page) {
        DiscoverSpec(c, capacity, s1, job, page, baseHost, baseText, link, parse);
        var d := Discover(c, capacity, s1, job, page, baseHost, baseText, link, parse);
        DepthsCarry(s.results, s1.results, s1.results, d.results, job.depth);
      }
    }
  }

  /** Results at one depth past two prefixes in a chain stay at that depth
      past the first. */
  lemma DepthsChain(r1: seq<CrawlResult>, r2: seq<CrawlResult>, r3: seq<CrawlResult>, depth: int)
    requires r1 <= r2 <= r3
    requires forall k :: |r1| <= k < |r2| ==> r2[k].depth == depth
    requires forall k :: |r2| <= k < |r3| ==> r3[k].depth == depth
    ensures forall k :: |r1| <= k < |r3| ==> r3[k].depth == depth
  {
    forall k | |r1| <= k < |r3|
      ensures r3[k].depth == depth
    {
      if k < |r2| {
        assert r3[k] == r2[k];
      }
    }
  }

  /** Results at one depth past each of a chain of prefixes stay at that
      depth past the first. */
  lemma DepthsCarry(r0: seq<CrawlResult>, r1: seq<CrawlResult>, r2: seq<CrawlResult>, r3: seq<CrawlResult>, depth: int)
    requires r0 <= r1 <= r2 <= r3 && |r1| == |r0| + 1 && r1[|r0|].depth == depth
    requires forall k :: |r1| <= k < |r2| ==> r2[k].depth == depth
    requires forall k :: |r2| <= k < |r3| ==> r3[k].depth == depth
    ensures forall k :: |r0| <= k < |r3| ==> r3[k].depth == depth
  {
    forall k | |r0| <= k < |r3|
      ensures r3[k].depth == depth
    {
      if k < |r1| {
        assert r3[k] == r1[k];
      } else if k < |r2| {
        assert r3[k] == r2[k];
      }
    }
  }

  /** The seeding of `Crawl`: each start URL in turn is marked seen, and
      queued at depth 0 when `markSeen` reports it new. The result is the
      seen set and the queue afterwards. */
  function SeedSpec(seen: set<string>, queue: seq<CrawlJob>, urls: seq<string>,
                    parse: string -> Option<Url>): (set<string>, seq<CrawlJob>)
    decreases |urls|
  {
    if urls == [] then (seen, queue)
    else
      var (s, q) := SeedSpec(seen, queue, urls[..|urls| - 1], parse);
      var u := urls[|urls| - 1];
      var (s', isNew) := MarkSeen(s, u, parse);
      (s', if isNew then q + [CrawlJob(u, 0)] else q)
  }

  /** Seeding only grows the state: the new jobs are start URLs at depth 0,
      one per newly seen key, and the key of every start URL that parses is
      seen afterwards. */
  lemma {:induction false} SeedSpecFacts(seen: set<string>, queue: seq<CrawlJob>, urls: seq<string>,
                                         parse: string -> Option<Url>)
    ensures var (s', q') := SeedSpec(seen, queue, urls, parse);
      queue <= q' && seen <= s' && |q'| - |queue| == |s'| - |seen|
      && (forall k :: |queue| <= k < |q'| ==> q'[k].depth == 0 && q'[k].url in urls)
      && (forall i :: 0 <= i < |urls| && parse(urls[i]).Some? ==> Key(parse(urls[i]).value) in s')
    decreases |urls|
  {
    if urls != [] {
      var init := urls[..|urls| - 1];
      SeedSpecFacts(seen, queue, init, parse);
      var (s, q) := SeedSpec(seen, queue, init, parse);
      var u := urls[|urls| - 1];
      MarkSeenSpec(s, u, parse);
      assert forall i :: 0 <= i < |init| ==> init[i] == urls[i];
    }
  }

  /** A start URL is queued exactly when it parses and its key was seen
      neither before seeding nor for an earlier start URL. */
  lemma SeedStep(seen: set<string>, queue: seq<CrawlJob>, urls: seq<string>,
                 parse: string -> Option<Url>, i: nat)
    requires i < |urls|
    ensures var (s, q) := SeedSpec(seen, queue, urls[..i], parse);
      var (s', q') := SeedSpec(seen, queue, urls[..i + 1], parse);
      (|q'| == |q| + 1 <==> parse(urls[i]).Some? && Key(parse(urls[i]).value) !in s)
      && (q' == q || q' == q + [CrawlJob(urls[i], 0)])
  {
    assert urls[..i + 1][..i] == urls[..i];
    var (s, q) := SeedSpec(seen, queue, urls[..i], parse);
    MarkSeenSpec(s, urls[i], parse);
  }

  /** The crawler's shared state: the seen set behind its mutex, the job
      channel and the result channel. */
  class Crawler {
    const config: CrawlConfig
    const capacity: nat
    var seen: set<string>
    var queue: seq<CrawlJob>
    var results: seq<CrawlResult>

    /** `NewCrawler`: defaults applied, nothing seen, room for Workers × 10
        pending jobs. */
    constructor (c: CrawlConfig)
      ensures config == CrawlerDefaults(c)
      ensures capacity == if config.workers > 0 then config.workers * 10 else 0
      ensures seen == {} && queue == [] && results == []
    {
      config := CrawlerDefaults(c);
      var d := CrawlerDefaults(c);
      capacity := if d.workers > 0 then d.workers * 10 else 0;
      seen, queue, results := {}, [], [];
    }

    function View(): State
      reads this
    {
      State(seen, queue, results)
    }

    /** `urlCount`: the number of distinct keys seen. */
    function URLCount(): (n: nat)
      reads this
      ensures n == |seen|
    {
      |seen|
    }

    /** `markSeen`, one atomic step on the seen set. */
    method MarkSeenURL(urlStr: string, parse: string -> Option<Url>) returns (isNew: bool)
      modifies this`seen
      ensures (seen, isNew) == MarkSeen(old(seen), urlStr, parse)
      ensures URLCount() == old(URLCount()) + (if isNew then 1 else 0)
    {
      MarkSeenSpec(seen, urlStr, parse);
      match parse(urlStr)
      case None =>
        isNew := false;
      case Some(u) =>
        var normalized := u.scheme + "://" + u.host + u.path;
        if normalized in seen {
          isNew := false;
        } else {
          seen := seen + {normalized};
          isNew := true;
        }
    }

    /** The seeding loop of `Crawl`: every start URL that is new is queued at
        depth 0. */
    method Seed(parse: string -> Option<Url>)
      modifies this`seen, this`queue
      ensures (seen, queue) == SeedSpec(old(seen), old(queue), config.startURLs, parse)
      ensures forall k :: |old(queue)| <= k < |queue| ==> queue[k].depth == 0 && queue[k].url in config.startURLs
      ensures old(queue) <= queue && old(seen) <= seen
      ensures |queue| - |old(queue)| == |seen| - |old(seen)|
    {
      var urls := config.startURLs;
      ghost var q0 := queue;
      ghost var s0 := seen;
      for i := 0 to |urls|
        invariant (seen, queue) == SeedSpec(s0, q0, urls[..i], parse)
      {
        assert urls[..i + 1][..i] == urls[..i];
        var isNew := MarkSeenURL(urls[i], parse);
        if isNew {
          queue := queue + [CrawlJob(urls[i], 0)];
        }
      }
      assert urls[..|urls|] == urls;
      SeedSpecFacts(s0, q0, urls, parse);
    }

    /** The link loop of `crawlURL`. */
    method QueueLinksLoop(links: seq<string>, baseHost: string, depth: int, parse: string -> Option<Url>)
      modifies this`seen, this`queue
      ensures View() == QueueStage(config, capacity, old(View()), links, baseHost, depth, parse)
    {
      var i := 0;
      while i < |links|
        invariant 0 <= i <= |links|
        invariant results == old(results)
        invariant QueueLinks(config, capacity, links, baseHost, depth, parse, old(seen), old(queue)) ==
          QueueLinks(config, capacity, links[i..], baseHost, depth, parse, seen, queue)
      {
        assert links[i..][0] == links[i] && links[i..][1..] == links[i + 1..];
        if URLCount() >= config.maxURLs {
          break;
        }
        if config.sameHost && !IsSameHost(links[i], baseHost, parse) {
          i := i + 1;
          continue;
        }
        var isNew := MarkSeenURL(links[i], parse);
        if isNew {
          if |queue| < capacity {
            queue := queue + [CrawlJob(links[i], depth)];
          }
        }
        i := i + 1;
      }
    }

    /** An emission loop of `crawlURL`. */
    method AnnounceLoop(items: seq<FormInfo>, source: string, kind: string, depth: int,
                        parse: string -> Option<Url>)
      modifies this`seen, this`results
      ensures View() == AnnounceStage(items, source, kind, depth, parse, old(View()))
    {
      for i := 0 to |items|
        invariant queue == old(queue)
        invariant Announce(items, source, kind, depth, parse, old(seen), old(results)) ==
          Announce(items[i..], source, kind, depth, parse, seen, results)
      {
        assert items[i..][0] == items[i] && items[i..][1..] == items[i + 1..];
        var isNew := MarkSeenURL(items[i].url, parse);
        if isNew {
          results := results + [CrawlResult(items[i].url, source, depth, kind, items[i].params)];
        }
      }
    }

    /** `crawlURL` for a job whose URL parses to `base` (every queued URL was
        parsed by `markSeen`), with what the network gives for the page;
        `link` is `resolveURL` against `base`, as `Resolver` builds it. */
    method CrawlURL(job: CrawlJob, page: Page, base: Url, link: string -> string,
                    parse: string -> Option<Url>)
      modifies this`seen, this`queue, this`results
      ensures View() == CrawlStep(config, capacity, old(View()), job, page, base.host, Render(base), link, parse)
    {
      if page.statusCode == 0 {
        return;
      }
      results := results + [Record(job, page)];
      if job.depth >= config.maxDepth || !Contains(page.contentType, "text/html") {
        return;
      }
      if page.fullStatusCode == 0 || page.body == "" {
        return;
      }
      ghost var s1 := View();
      var links := ExtractLinks(page.hrefs, page.srcs, link);
      QueueLinksLoop(links, base.host, job.depth + 1, parse);
      ghost var s2 := View();
      if config.jsParse {
        var endpoints := ExtractJSEndpoints(page.scriptCaptures, link);
        AnnounceLoop(AsItems(endpoints), "js-parse", "api", job.depth, parse);
      }
      ghost var s3 := View();
      var forms := ExtractForms(page.forms, link, Render(base));
      AnnounceLoop(forms, "form", "form", job.depth, parse);
      DiscoverStages(config, capacity, s1, s2, s3, job, page, base.host, Render(base), link, parse);
    }
  }
}
