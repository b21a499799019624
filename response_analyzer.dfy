/** The response analyser: technology detection, the missing-security-header
    count, and the de-duplicated or capped lists it extracts from a body.
    Every regular-expression search is an input: a submatch list is the
    full match followed by one entry per capture group, as Go's `regexp`
    returns it, and a match list is every match in order, before any
    `FindAll` limit. */
module ResponseAnalysis {
  import opened Strings
  import opened Collections
  import HttpProbing

  type Headers = map<string, string>

  /** The value of `headers[name]`, "" when absent. */
  function Lookup(h: Headers, name: string): string
  {
    if name in h then h[name] else ""
  }

  /** The rules of `detectAllTechnologies` in their order, each a condition
      and the technology it adds: the Server and X-Powered-By rules (which
      run only for a present header, lower-cased), the script-framework,
      CMS and CSS markers of the body, then Cf-Ray, Via and a case-sensitive
      AmazonS3 in Server. */
  function AllTechnologyRules(h: Headers, body: string): (rules: seq<(bool, string)>)
    ensures |rules| == 26
  {
    var server := ToLower(Lookup(h, "Server"));
    var hasServer := "Server" in h;
    var powered := ToLower(Lookup(h, "X-Powered-By"));
    var hasPowered := "X-Powered-By" in h;
    var bodyLower := ToLower(body);
    [ (hasServer && Contains(server, "nginx"), "Nginx"),
      (hasServer && Contains(server, "apache"), "Apache"),
      (hasServer && Contains(server, "iis"), "IIS"),
      (hasServer && Contains(server, "gunicorn"), "Gunicorn"),
      (hasServer && Contains(server, "openresty"), "OpenResty"),
      (hasPowered && Contains(powered, "php"), "PHP"),
      (hasPowered && Contains(powered, "asp.net"), "ASP.NET"),
      (hasPowered && Contains(powered, "express"), "Express.js"),
      (hasPowered && Contains(powered, "next"), "Next.js"),
      (Contains(body, "__NEXT_DATA__") || Contains(body, "_next/static"), "Next.js"),
      (Contains(body, "__NUXT__"), "Nuxt.js"),
      (Contains(bodyLower, "react") || Contains(body, "data-reactroot"), "React"),
      (Contains(body, "ng-app") || Contains(body, "ng-controller"), "AngularJS"),
      (Contains(body, "_angular"), "Angular"),
      (Contains(body, "Vue.") || Contains(body, "v-bind"), "Vue.js"),
      (Contains(bodyLower, "svelte"), "Svelte"),
      (Contains(body, "wp-content") || Contains(body, "wp-includes"), "WordPress"),
      (Contains(body, "Drupal."), "Drupal"),
      (Contains(bodyLower, "joomla"), "Joomla"),
      (Contains(body, "shopify"), "Shopify"),
      (Contains(body, "wix.com"), "Wix"),
      (Contains(bodyLower, "bootstrap"), "Bootstrap"),
      (Contains(bodyLower, "tailwind"), "Tailwind CSS"),
      ("Cf-Ray" in h, "Cloudflare"),
      (Contains(Lookup(h, "Via"), "cloudfront"), "CloudFront"),
      (Contains(Lookup(h, "Server"), "AmazonS3"), "Amazon S3") ]
  }

  /** `detectAllTechnologies`: the rules in order, each adding its technology
      unless already seen. The result has no repetitions and holds exactly
      the technologies of the rules that fired, in the order they first
      fired (Next.js found by X-Powered-By and by the body is listed once). */
  method DetectAllTechnologies(h: Headers, body: string) returns (techs: seq<string>)
    ensures techs == Dedup(Fired(AllTechnologyRules(h, body)))
    ensures FiredOnce(AllTechnologyRules(h, body), techs)
  {
    techs := AddFired(AllTechnologyRules(h, body));
    AddFiredSpec(AllTechnologyRules(h, body));
  }

  /** The security headers the analyser reports, and how many of the four
      that count are missing. */
  datatype SecurityHeaders = SecurityHeaders(
    csp: string,
    hsts: string,
    xFrameOptions: string,
    xContentType: string,
    xssProtection: string,
    cors: string,
    missingCount: int)

  /** The security headers `analyzeSecurityHeaders` reads. */
  const CspHeader := "Content-Security-Policy"
  const HstsHeader := "Strict-Transport-Security"
  const FrameOptionsHeader := "X-Frame-Options"
  const ContentTypeOptionsHeader := "X-Content-Type-Options"
  const XssProtectionHeader := "X-Xss-Protection"
  const CorsHeader := "Access-Control-Allow-Origin"

  /** The headers whose absence counts. */
  const CountedHeaders: seq<string> :=
    [CspHeader, HstsHeader, FrameOptionsHeader, ContentTypeOptionsHeader]

  /** How many of `names` are absent from `h`. */
  function Missing(h: Headers, names: seq<string>): nat
  {
    if names == [] then 0
    else (if names[0] in h then 0 else 1) + Missing(h, names[1..])
  }

  /** The missing count is at most the number of names, zero exactly when
      all are present, the number of names exactly when none is, and headers
      outside the names do not change it. */
  lemma {:induction false} MissingSpec(h: Headers, names: seq<string>)
    ensures Missing(h, names) <= |names|
    ensures Missing(h, names) == 0 <==> forall i :: 0 <= i < |names| ==> names[i] in h
    ensures Missing(h, names) == |names| <==> forall i :: 0 <= i < |names| ==> names[i] !in h
  {
    if names != [] {
      MissingSpec(h, names[1..]);
      if forall i :: 0 <= i < |names[1..]| ==> names[1..][i] in h {
        assert forall i :: 1 <= i < |names| ==> names[i] in h by {
          forall i | 1 <= i < |names|
            ensures names[i] in h
          {
            assert names[1..][i - 1] == names[i];
          }
        }
      }
      if forall i :: 0 <= i < |names[1..]| ==> names[1..][i] !in h {
        assert forall i :: 1 <= i < |names| ==> names[i] !in h by {
          forall i | 1 <= i < |names|
            ensures names[i] !in h
          {
            assert names[1..][i - 1] == names[i];
          }
        }
      }
    }
  }

  /** A header outside `names` does not change their missing count. */
  lemma {:induction false} MissingIgnores(h: Headers, names: seq<string>, x: string, v: string)
    requires x !in names
    ensures Missing(h[x := v], names) == Missing(h, names)
  {
    if names != [] {
      assert x !in names[1..];
      MissingIgnores(h, names[1..], x, v);
    }
  }

  /** The count over the four counted headers, written out. */
  lemma MissingCounted(h: Headers)
    ensures Missing(h, CountedHeaders) ==
      (if CspHeader in h then 0 else 1) + (if HstsHeader in h then 0 else 1) +
      (if FrameOptionsHeader in h then 0 else 1) + (if ContentTypeOptionsHeader in h then 0 else 1)
  {
    var n3 := [ContentTypeOptionsHeader];
    var n2 := [FrameOptionsHeader] + n3;
    var n1 := [HstsHeader] + n2;
    assert n3[1..] == [] && n2[1..] == n3 && n1[1..] == n2 && CountedHeaders[1..] == n1;
    assert Missing(h, n3) == (if ContentTypeOptionsHeader in h then 0 else 1);
    assert Missing(h, n2) == (if FrameOptionsHeader in h then 0 else 1) + Missing(h, n3);
    assert Missing(h, n1) == (if HstsHeader in h then 0 else 1) + Missing(h, n2);
  }

  /** `analyzeSecurityHeaders`: the six values copied as they are ("" when
      absent), and a count of the absent ones among the four that count. */
  method AnalyzeSecurityHeaders(h: Headers) returns (sh: SecurityHeaders)
    ensures sh.csp == Lookup(h, CspHeader)
    ensures sh.hsts == Lookup(h, HstsHeader)
    ensures sh.xFrameOptions == Lookup(h, FrameOptionsHeader)
    ensures sh.xContentType == Lookup(h, ContentTypeOptionsHeader)
    ensures sh.xssProtection == Lookup(h, XssProtectionHeader)
    ensures sh.cors == Lookup(h, CorsHeader)
    ensures sh.missingCount == Missing(h, CountedHeaders)
  {
    sh := SecurityHeaders("", "", "", "", "", "", 0);
    var missing := 0;
    if CspHeader in h {
      sh := sh.(csp := h[CspHeader]);
    } else {
      missing := missing + 1;
    }
    ghost var m1 := if CspHeader in h then 0 else 1;
    assert sh.csp == Lookup(h, CspHeader) && missing == m1;
    if HstsHeader in h {
      sh := sh.(hsts := h[HstsHeader]);
    } else {
      missing := missing + 1;
    }
    ghost var m2 := m1 + if HstsHeader in h then 0 else 1;
    assert sh.hsts == Lookup(h, HstsHeader) && missing == m2;
    if FrameOptionsHeader in h {
      sh := sh.(xFrameOptions := h[FrameOptionsHeader]);
    } else {
      missing := missing + 1;
    }
    ghost var m3 := m2 + if FrameOptionsHeader in h then 0 else 1;
    assert sh.xFrameOptions == Lookup(h, FrameOptionsHeader) && missing == m3;
    if ContentTypeOptionsHeader in h {
      sh := sh.(xContentType := h[ContentTypeOptionsHeader]);
    } else {
      missing := missing + 1;
    }
    assert sh.xContentType == Lookup(h, ContentTypeOptionsHeader);
    assert missing == m3 + if ContentTypeOptionsHeader in h then 0 else 1;
    if XssProtectionHeader in h {
      sh := sh.(xssProtection := h[XssProtectionHeader]);
    }
    assert sh.xssProtection == Lookup(h, XssProtectionHeader);
    if CorsHeader in h {
      sh := sh.(cors := h[CorsHeader]);
    }
    assert sh.cors == Lookup(h, CorsHeader);
    sh := sh.(missingCount := missing);
    MissingCounted(h);
  }

  /** The missing count lies in 0..4 and ignores X-Xss-Protection and
      Access-Control-Allow-Origin. */
  lemma MissingCountRange(h: Headers, v: string)
    ensures 0 <= Missing(h, CountedHeaders) <= 4
    ensures Missing(h, CountedHeaders) == 0 <==> forall i :: 0 <= i < 4 ==> CountedHeaders[i] in h
    ensures Missing(h[XssProtectionHeader := v], CountedHeaders) == Missing(h, CountedHeaders)
    ensures Missing(h[CorsHeader := v], CountedHeaders) == Missing(h, CountedHeaders)
  {
    MissingSpec(h, CountedHeaders);
    MissingIgnores(h, CountedHeaders, XssProtectionHeader, v);
    MissingIgnores(h, CountedHeaders, CorsHeader, v);
  }

  /** The first capture group of a submatch list, if it has one. */
  function FirstGroup(m: seq<string>): Option<string>
  {
    if |m| > 1 then Some(m[1]) else None
  }

  /** The first capture of each submatch list that has one, in order. */
  function Captured(ms: seq<seq<string>>): (cs: seq<string>)
    ensures |cs| <= |ms|
  {
    Mapped(ms, FirstGroup)
  }

  /** The captures are exactly the first groups of the submatch lists that
      have one. */
  lemma CapturedSpec(ms: seq<seq<string>>)
    ensures forall c :: c in Captured(ms) ==> exists i :: 0 <= i < |ms| && |ms[i]| > 1 && ms[i][1] == c
    ensures forall i :: 0 <= i < |ms| && |ms[i]| > 1 ==> ms[i][1] in Captured(ms)
  {
    MappedSpec(ms, FirstGroup);
    forall i | 0 <= i < |ms| && |ms[i]| > 1
      ensures ms[i][1] in Captured(ms)
    {
      assert FirstGroup(ms[i]) == Some(ms[i][1]);
    }
  }

  /** Submatch lists without a capture contribute nothing. */
  lemma CapturedNone(ms: seq<seq<string>>)
    requires forall i :: 0 <= i < |ms| ==> |ms[i]| <= 1
    ensures Captured(ms) == []
  {
    MappedNone(ms, FirstGroup);
  }

  /** `extractEndpoints` with the submatch lists of each of its six patterns
      in pattern order: the captures, each once, in pattern-then-match
      order. */
  method ExtractEndpoints(matches: seq<seq<seq<string>>>) returns (endpoints: seq<string>)
    ensures endpoints == Dedup(Captured(Flatten(matches)))
  {
    endpoints := [];
    var seen: set<string> := {};
    for p := 0 to |matches|
      invariant endpoints == Dedup(Captured(Flatten(matches[..p])))
      invariant Tracks(seen, Captured(Flatten(matches[..p])))
    {
      endpoints, seen := CollectMapped(Flatten(matches[..p]), endpoints, seen, matches[p], FirstGroup);
      FlattenPrefixStep(matches, p);
    }
    assert matches[..|matches|] == matches;
  }

  /** How many capture groups each endpoint pattern has: the fourth, the
      absolute-URL /api/ pattern, has none. */
  const EndpointGroups: seq<nat> := [1, 1, 1, 0, 1, 1]

  /** Submatch lists as the six endpoint patterns produce them. */
  predicate EndpointShaped(matches: seq<seq<seq<string>>>)
  {
    |matches| == 6 &&
    forall p, k :: 0 <= p < 6 && 0 <= k < |matches[p]| ==> |matches[p][k]| == 1 + EndpointGroups[p]
  }

  /** The endpoints have no repetitions and are exactly the captures of the
      patterns' matches. */
  lemma EndpointsSpec(matches: seq<seq<seq<string>>>, e: string)
    ensures NoDuplicates(Dedup(Captured(Flatten(matches))))
    ensures e in Dedup(Captured(Flatten(matches))) <==>
      exists p, k :: 0 <= p < |matches| && 0 <= k < |matches[p]| && |matches[p][k]| > 1 && matches[p][k][1] == e
  {
    var all := Flatten(matches);
    DedupSpec(Captured(all));
    MappedFlattenSpec(matches, FirstGroup, e);
    if exists p, k :: 0 <= p < |matches| && 0 <= k < |matches[p]| && |matches[p][k]| > 1 && matches[p][k][1] == e {
      var p, k :| 0 <= p < |matches| && 0 <= k < |matches[p]| && |matches[p][k]| > 1 && matches[p][k][1] == e;
      assert FirstGroup(matches[p][k]) == Some(e);
    }
  }

  /** The absolute-URL /api/ pattern never contributes: the endpoints are the
      same with its matches removed. */
  lemma AbsoluteApiPatternSilent(matches: seq<seq<seq<string>>>)
    requires EndpointShaped(matches)
    ensures Captured(Flatten(matches)) == Captured(Flatten(matches[3 := []]))
  {
    var empty: seq<seq<string>> := [];
    var silent := matches[3 := empty];
    var a, b := Flatten(matches[..3]), Flatten(matches[4..]);
    FlattenSplit(matches, 3);
    FlattenSplit(silent, 3);
    assert silent[..3] == matches[..3] && silent[4..] == matches[4..];
    assert Flatten(silent) == a + b by {
      assert a + empty + b == a + b;
    }
    assert Captured(matches[3]) == [] by {
      assert EndpointGroups[3] == 0;
      CapturedNone(matches[3]);
    }
    calc {
      Captured(Flatten(matches));
    == { MappedAppend(a + matches[3], b, FirstGroup); MappedAppend(a, matches[3], FirstGroup); }
      Captured(a) + Captured(matches[3]) + Captured(b);
    == { assert Captured(a) + [] == Captured(a); }
      Captured(a) + Captured(b);
    == { MappedAppend(a, b, FirstGroup); }
      Captured(Flatten(silent));
    }
  }

  /** `extractParameters` with the submatch lists of the input-name pattern
      and of the URL-parameter pattern: the names, each once, input names
      first. */
  method ExtractParameters(inputs: seq<seq<string>>, urlParams: seq<seq<string>>) returns (params: seq<string>)
    ensures params == Dedup(Captured(inputs + urlParams))
    ensures NoDuplicates(params)
    ensures Dedup(Captured(inputs)) <= params
  {
    var seen: set<string>;
    assert [] + inputs == inputs;
    params, seen := CollectMapped([], [], {}, inputs, FirstGroup);
    params, seen := CollectMapped(inputs, params, seen, urlParams, FirstGroup);
    MappedAppend(inputs, urlParams, FirstGroup);
    DedupPrefix(Captured(inputs), Captured(urlParams));
    DedupSpec(Captured(inputs + urlParams));
  }

  /** What the form pattern and the patterns run on its parts give for one
      form: the form's submatch list (attributes and content), the action
      and method submatches of its attributes, and the input-name submatch
      lists of its content. */
  datatype FormMatch = FormMatch(groups: seq<string>, action: seq<string>, methodMatch: seq<string>,
                                 inputs: seq<seq<string>>)

  datatype FormDetails = FormDetails(action: string, httpMethod: string, fields: seq<string>)

  /** One form of `extractFormDetails`. */
  function DetailsOf(m: FormMatch): (f: FormDetails)
    ensures f.action == if |m.action| > 1 then m.action[1] else ""
    ensures f.httpMethod == if |m.methodMatch| > 1 then ToUpper(m.methodMatch[1]) else "GET"
    ensures f.fields == Captured(m.inputs)
  {
    FormDetails(if |m.action| > 1 then m.action[1] else "",
                if |m.methodMatch| > 1 then ToUpper(m.methodMatch[1]) else "GET",
                Captured(m.inputs))
  }

  /** A form's method never holds a lower-case ASCII letter. */
  lemma MethodUpperCase(m: FormMatch, i: int)
    requires 0 <= i < |DetailsOf(m).httpMethod|
    ensures !('a' <= DetailsOf(m).httpMethod[i] <= 'z')
  {
  }

  /** The form of one submatch list, when it has both groups. */
  function FormOf(m: FormMatch): (f: Option<FormDetails>)
    ensures f.Some? <==> |m.groups| >= 3
    ensures f.Some? ==> f.value == DetailsOf(m)
  {
    if |m.groups| < 3 then None else Some(DetailsOf(m))
  }

  /** The forms of `extractFormDetails`: one per form submatch list with both
      groups, in order. */
  function FormDetailsOf(ms: seq<FormMatch>): (forms: seq<FormDetails>)
    ensures |forms| <= |ms|
  {
    Mapped(ms, FormOf)
  }

  /** When every form match has its two groups, there is one entry per
      match, in order. */
  lemma FormDetailsOfSpec(ms: seq<FormMatch>)
    requires forall i :: 0 <= i < |ms| ==> |ms[i].groups| >= 3
    ensures |FormDetailsOf(ms)| == |ms|
    ensures forall i :: 0 <= i < |ms| ==> FormDetailsOf(ms)[i] == DetailsOf(ms[i])
  {
    MappedTotal(ms, FormOf);
  }

  /** `extractFormDetails`. */
  method ExtractFormDetails(ms: seq<FormMatch>) returns (forms: seq<FormDetails>)
    ensures forms == FormDetailsOf(ms)
  {
    forms := [];
    for i := 0 to |ms|
      invariant forms == FormDetailsOf(ms[..i])
    {
      MappedPrefixStep(ms, i, FormOf);
      var m := ms[i];
      if |m.groups| < 3 {
        continue;
      }
      var form := FormDetails("", "GET", []);
      if |m.action| > 1 {
        form := form.(action := m.action[1]);
      }
      if |m.methodMatch| > 1 {
        form := form.(httpMethod := ToUpper(m.methodMatch[1]));
      }
      var fields := MapAll(m.inputs, FirstGroup);
      form := form.(fields := fields);
      assert form == DetailsOf(m);
      forms := forms + [form];
    }
    assert ms[..|ms|] == ms;
  }

  /** The comment of one HTML-comment submatch list: its capture trimmed,
      kept only when longer than 5 and shorter than 500 bytes. */
  function CommentOf(m: seq<string>): (c: Option<string>)
    ensures c.Some? ==> |m| > 1 && c.value == TrimSpace(m[1]) && 5 < |c.value| < 500
  {
    if |m| > 1 && 5 < |TrimSpace(m[1])| < 500 then Some(TrimSpace(m[1])) else None
  }

  /** The HTML comments kept, in order. */
  function HtmlComments(ms: seq<seq<string>>): (cs: seq<string>)
    ensures |cs| <= |ms|
  {
    Mapped(ms, CommentOf)
  }

  /** Every kept comment is the trimmed capture of one of the submatch lists,
      and its length lies strictly between 5 and 500. */
  lemma HtmlCommentsSpec(ms: seq<seq<string>>)
    ensures forall c :: c in HtmlComments(ms) ==>
      5 < |c| < 500 && exists i :: 0 <= i < |ms| && |ms[i]| > 1 && c == TrimSpace(ms[i][1])
    ensures forall i :: 0 <= i < |ms| && |ms[i]| > 1 && 5 < |TrimSpace(ms[i][1])| < 500 ==>
      TrimSpace(ms[i][1]) in HtmlComments(ms)
  {
    MappedSpec(ms, CommentOf);
    forall i | 0 <= i < |ms| && |ms[i]| > 1 && 5 < |TrimSpace(ms[i][1])| < 500
      ensures TrimSpace(ms[i][1]) in HtmlComments(ms)
    {
      assert CommentOf(ms[i]) == Some(TrimSpace(ms[i][1]));
    }
  }

  /** `extractComments` with every HTML-comment submatch list and every
      keyword-comment match: the kept HTML comments among the first 20, then
      the first 10 keyword comments. */
  method ExtractComments(html: seq<seq<string>>, js: seq<string>) returns (comments: seq<string>)
    ensures comments == HtmlComments(Take(html, 20)) + Take(js, 10)
    ensures |comments| <= 30
  {
    comments := MapAll(Take(html, 20), CommentOf);
    comments := AppendAll(comments, Take(js, 10));
  }

  /** `extractEmails` with every match of the address pattern: the first 20
      matches, each once. */
  method ExtractEmails(all: seq<string>) returns (emails: seq<string>)
    ensures emails == Dedup(Take(all, 20))
    ensures |emails| <= 20 && NoDuplicates(emails)
    ensures forall e :: e in emails <==> e in Take(all, 20)
  {
    emails := DedupInOrder(Take(all, 20));
    DedupSpec(Take(all, 20));
    forall e | e in Take(all, 20)
      ensures e in emails
    {
      var i :| 0 <= i < |Take(all, 20)| && Take(all, 20)[i] == e;
    }
  }

  /** The names of the interesting-pattern table. */
  const Categories: seq<string> :=
    ["AWS Key", "Private Key", "API Key", "Password Field", "Internal IP",
     "Debug Enabled", "Admin Path", "File Path", "SQL Query", "Backup File"]

  /** An iteration order of the pattern table: each name once. */
  predicate CategoryOrder(order: seq<string>)
  {
    |order| == |Categories| && NoDuplicates(order) &&
    forall i :: 0 <= i < |order| ==> order[i] in Categories
  }

  /** The entries of one category: "name: match" for each match shorter
      than 200 bytes. */
  function Entries(name: string, ms: seq<string>): (es: seq<string>)
    ensures |es| <= |ms|
  {
    if ms == [] then []
    else
      var init := Entries(name, ms[..|ms| - 1]);
      var m := ms[|ms| - 1];
      if |m| < 200 then init + [name + ": " + m] else init
  }

  /** Every entry is the name, ": " and one of the matches, shorter than
      200 bytes. */
  lemma {:induction false} EntriesSpec(name: string, ms: seq<string>)
    ensures forall e :: e in Entries(name, ms) ==>
      exists m :: m in ms && |m| < 200 && e == name + ": " + m
  {
    if ms != [] {
      EntriesSpec(name, ms[..|ms| - 1]);
      forall e | e in Entries(name, ms)
        ensures exists m :: m in ms && |m| < 200 && e == name + ": " + m
      {
        if e in Entries(name, ms[..|ms| - 1]) {
          var m :| m in ms[..|ms| - 1] && |m| < 200 && e == name + ": " + m;
          assert m in ms;
        } else {
          assert ms[|ms| - 1] in ms;
        }
      }
    }
  }

  /** The entries of each category in the order the table is walked, from
      the first three matches of its pattern (`found`). */
  function Blocks(order: seq<string>, found: string -> seq<string>): (bs: seq<seq<string>>)
    ensures |bs| == |order|
    ensures forall i :: 0 <= i < |order| ==> bs[i] == Entries(order[i], Take(found(order[i]), 3))
  {
    seq(|order|, i requires 0 <= i < |order| => Entries(order[i], Take(found(order[i]), 3)))
  }

  /** `findInteresting`, with `order` the order the pattern map is walked in
      and `found` every match of a category's pattern. */
  method FindInteresting(order: seq<string>, found: string -> seq<string>) returns (interesting: seq<string>)
    ensures interesting == Flatten(Blocks(order, found))
  {
    interesting := [];
    for p := 0 to |order|
      invariant interesting == Flatten(Blocks(order, found)[..p])
    {
      var name := order[p];
      var matches := Take(found(name), 3);
      ghost var before := interesting;
      for i := 0 to |matches|
        invariant interesting == before + Entries(name, matches[..i])
      {
        assert matches[..i + 1][..i] == matches[..i];
        if |matches[i]| < 200 {
          interesting := interesting + [name + ": " + matches[i]];
        }
      }
      assert matches[..|matches|] == matches;
      FlattenPrefixStep(Blocks(order, found), p);
    }
    assert Blocks(order, found)[..|order|] == Blocks(order, found);
  }

  /** Each category contributes at most 3 entries, each "name: match" with a
      match among its first three and shorter than 200 bytes; over the ten
      categories that is at most 30. */
  lemma InterestingSpec(order: seq<string>, found: string -> seq<string>)
    ensures forall i :: 0 <= i < |order| ==> |Blocks(order, found)[i]| <= 3
    ensures forall i, e :: 0 <= i < |order| && e in Blocks(order, found)[i] ==>
      exists m :: m in Take(found(order[i]), 3) && |m| < 200 && e == order[i] + ": " + m
    ensures |Flatten(Blocks(order, found))| <= 3 * |order|
    ensures CategoryOrder(order) ==> |Flatten(Blocks(order, found))| <= 30
  {
    var bs := Blocks(order, found);
    forall i | 0 <= i < |order|
      ensures |bs[i]| <= 3
      ensures forall e :: e in bs[i] ==>
        exists m :: m in Take(found(order[i]), 3) && |m| < 200 && e == order[i] + ": " + m
    {
      EntriesSpec(order[i], Take(found(order[i]), 3));
    }
    FlattenLengthBound(bs, 3);
  }

  /** The meta description: the trimmed capture of the name-then-content
      pattern, else of the content-then-name pattern, else "". */
  function ExtractDescription(first: Option<string>, second: Option<string>): (d: string)
    ensures first.Some? ==> d == TrimSpace(first.value)
    ensures first.None? && second.Some? ==> d == TrimSpace(second.value)
    ensures first.None? && second.None? ==> d == ""
  {
    match first
    case Some(m) => TrimSpace(m)
    case None =>
      match second
      case Some(m) => TrimSpace(m)
      case None => ""
  }

  /** Every regular-expression result `Analyze` consumes for one body. */
  datatype BodyMatches = BodyMatches(
    title: Option<string>,
    description: Option<string>,
    descriptionAlt: Option<string>,
    endpoints: seq<seq<seq<string>>>,
    inputNames: seq<seq<string>>,
    urlParams: seq<seq<string>>,
    forms: seq<FormMatch>,
    htmlComments: seq<seq<string>>,
    keywordComments: seq<string>,
    emails: seq<string>,
    order: seq<string>,
    interesting: string -> seq<string>)

  datatype AnalysisResult = AnalysisResult(
    url: string,
    title: string,
    description: string,
    technologies: seq<string>,
    endpoints: seq<string>,
    parameters: seq<string>,
    forms: seq<FormDetails>,
    comments: seq<string>,
    emails: seq<string>,
    securityHeaders: SecurityHeaders,
    interesting: seq<string>,
    hash: string)

  /** `Analyze`: each field is its extractor's result; `hash` is the body's
      MD5 digest in hexadecimal. */
  method Analyze(url: string, h: Headers, body: string, m: BodyMatches, hash: string)
    returns (r: AnalysisResult)
    ensures r.url == url && r.hash == hash
    ensures r.title == HttpProbing.ExtractTitle(m.title)
    ensures r.description == ExtractDescription(m.description, m.descriptionAlt)
    ensures r.technologies == Dedup(Fired(AllTechnologyRules(h, body)))
    ensures r.endpoints == Dedup(Captured(Flatten(m.endpoints)))
    ensures r.parameters == Dedup(Captured(m.inputNames + m.urlParams))
    ensures r.forms == FormDetailsOf(m.forms)
    ensures r.comments == HtmlComments(Take(m.htmlComments, 20)) + Take(m.keywordComments, 10)
    ensures r.emails == Dedup(Take(m.emails, 20))
    ensures r.securityHeaders.csp == Lookup(h, CspHeader)
    ensures r.securityHeaders.hsts == Lookup(h, HstsHeader)
    ensures r.securityHeaders.xFrameOptions == Lookup(h, FrameOptionsHeader)
    ensures r.securityHeaders.xContentType == Lookup(h, ContentTypeOptionsHeader)
    ensures r.securityHeaders.xssProtection == Lookup(h, XssProtectionHeader)
    ensures r.securityHeaders.cors == Lookup(h, CorsHeader)
    ensures r.securityHeaders.missingCount == Missing(h, CountedHeaders)
    ensures r.interesting == Flatten(Blocks(m.order, m.interesting))
  {
    var technologies := DetectAllTechnologies(h, body);
    var endpoints := ExtractEndpoints(m.endpoints);
    var parameters := ExtractParameters(m.inputNames, m.urlParams);
    var forms := ExtractFormDetails(m.forms);
    var comments := ExtractComments(m.htmlComments, m.keywordComments);
    var emails := ExtractEmails(m.emails);
    var headers := AnalyzeSecurityHeaders(h);
    var interesting := FindInteresting(m.order, m.interesting);
    r := AnalysisResult(url, HttpProbing.ExtractTitle(m.title), ExtractDescription(m.description, m.descriptionAlt),
                        technologies, endpoints, parameters, forms, comments, emails, headers, interesting, hash);
  }
}
