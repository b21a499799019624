/** Subdomain enumeration (scanner/subdomain/enumerator.go): the
    first-wins result set, the post-processing of the crt.sh, hackertarget
    and threatcrowd answers, the wordlist feed of the bruteforce, and the
    choice of modes. Every HTTP answer, file content, DNS lookup and clock
    reading is an input. */
module SubdomainEnumeration {
  import opened Strings
  import opened Collections
  import DnsResolution

  datatype Config = Config(domain: string, wordlist: string, workers: int, timeout: int,
                           passive: bool, bruteforce: bool)

  datatype Result = Result(subdomain: string, ips: seq<string>, source: string, timestamp: string)

  /** One `addResult` call: the name, its source, and the clock reading
      formatted as RFC 3339 at the time of the call. */
  datatype Event = Event(subdomain: string, source: string, stamp: string)

  /** The record `addResult` emits for an event (it never fills the IPs). */
  function ResultOf(e: Event): Result
  {
    Result(e.subdomain, [], e.source, e.stamp)
  }

  /** The names of a list of results. */
  function Names(rs: seq<Result>): (ns: seq<string>)
    ensures |ns| == |rs|
    ensures forall i :: 0 <= i < |rs| ==> ns[i] == rs[i].subdomain
  {
    if rs == [] then [] else Names(rs[..|rs| - 1]) + [rs[|rs| - 1].subdomain]
  }

  lemma NamesSnoc(rs: seq<Result>, r: Result)
    ensures Names(rs + [r]) == Names(rs) + [r.subdomain]
  {
    assert (rs + [r])[..|rs|] == rs;
  }

  /** The results the events emit when the names in `seen` were emitted
      before: each event whose name is new, the first one for each name. */
  function FirstWins(seen: set<string>, events: seq<Event>): (rs: seq<Result>)
    ensures |rs| <= |events|
    decreases |events|
  {
    if events == [] then []
    else if events[0].subdomain in seen then FirstWins(seen, events[1..])
    else [ResultOf(events[0])] + FirstWins(seen + {events[0].subdomain}, events[1..])
  }

  /** The emitted names are distinct, and a name is emitted exactly when it
      was not seen before and some event carries it. */
  lemma {:induction false} FirstWinsNames(seen: set<string>, events: seq<Event>)
    ensures NoDuplicates(Names(FirstWins(seen, events)))
    ensures forall x :: x in Names(FirstWins(seen, events)) ==>
      x !in seen && exists i :: 0 <= i < |events| && events[i].subdomain == x
    ensures forall i :: 0 <= i < |events| && events[i].subdomain !in seen ==>
      events[i].subdomain in Names(FirstWins(seen, events))
    decreases |events|
  {
    if events != [] {
      var e, rest := events[0], events[1..];
      var seen' := if e.subdomain in seen then seen else seen + {e.subdomain};
      FirstWinsNames(seen', rest);
      var ns := Names(FirstWins(seen', rest));
      var all := Names(FirstWins(seen, events));
      if e.subdomain !in seen {
        NamesCons(ResultOf(e), FirstWins(seen', rest));
        assert all == [e.subdomain] + ns;
        NoDuplicatesCons(e.subdomain, ns);
      }
      forall x | x in all
        ensures x !in seen && exists i :: 0 <= i < |events| && events[i].subdomain == x
      {
        if x in ns {
          var i :| 0 <= i < |rest| && rest[i].subdomain == x;
          assert events[i + 1].subdomain == x;
        }
      }
      forall i | 0 <= i < |events| && events[i].subdomain !in seen
        ensures events[i].subdomain in all
      {
        if i > 0 && events[i].subdomain != e.subdomain {
          assert rest[i - 1].subdomain == events[i].subdomain;
        }
      }
    }
  }

  lemma NoDuplicatesCons<T>(x: T, s: seq<T>)
    requires x !in s && NoDuplicates(s)
    ensures NoDuplicates([x] + s)
  {
    var t := [x] + s;
    forall i, j | 0 <= i < j < |t|
      ensures t[i] != t[j]
    {
      assert t[j] == s[j - 1];
      if i > 0 {
        assert t[i] == s[i - 1];
      }
    }
  }

  /** Event `i` carries result `r` and no earlier event has its name. */
  predicate FirstAt(events: seq<Event>, i: int, r: Result)
  {
    0 <= i < |events| && ResultOf(events[i]) == r &&
    forall j :: 0 <= j < i ==> events[j].subdomain != r.subdomain
  }

  /** Each result is the record of the first event with its name: later
      events for that name, from any source, change nothing. */
  lemma {:induction false} FirstWinsFirst(seen: set<string>, events: seq<Event>, r: Result)
    requires r in FirstWins(seen, events)
    ensures exists i :: FirstAt(events, i, r)
    decreases |events|
  {
    assert |events| > 0;
    var e, rest := events[0], events[1..];
    var seen' := if e.subdomain in seen then seen else seen + {e.subdomain};
    var tail := FirstWins(seen', rest);
    if e.subdomain !in seen && r == ResultOf(e) {
      assert FirstAt(events, 0, r);
    } else {
      assert r in tail;
      FirstWinsFirst(seen', rest, r);
      var i :| FirstAt(rest, i, r);
      var k :| 0 <= k < |tail| && tail[k] == r;
      assert Names(tail)[k] == r.subdomain;
      FirstWinsNames(seen', rest);
      ShiftFirst(events, i, r);
    }
  }

  /** A first occurrence in the events after the head is a first occurrence
      in the whole list when the head has another name. */
  lemma ShiftFirst(events: seq<Event>, i: int, r: Result)
    requires |events| > 0 && events[0].subdomain != r.subdomain && FirstAt(events[1..], i, r)
    ensures FirstAt(events, i + 1, r)
  {
    forall j | 0 <= j < i + 1
      ensures events[j].subdomain != r.subdomain
    {
      if j > 0 {
        assert events[j] == events[1..][j - 1];
      }
    }
  }

  lemma NamesCons(r: Result, rs: seq<Result>)
    ensures Names([r] + rs) == [r.subdomain] + Names(rs)
  {
    var ns := Names([r] + rs);
    assert forall i :: 0 <= i < |ns| ==> ns[i] == ([r.subdomain] + Names(rs))[i];
  }

  /** The scanner: the set of names already emitted and the results channel,
      read as the list of records emitted so far. */
  class Scanner {
    const config: Config
    var seen: set<string>
    var results: seq<Result>

    /** Every emitted name is in `seen`, every name in `seen` was emitted, and
        no name was emitted twice. */
    ghost predicate Valid()
      reads this
    {
      Tracks(seen, Names(results)) && NoDuplicates(Names(results))
    }

    /** `NewScanner`: nothing seen, nothing emitted. */
    constructor (c: Config)
      ensures config == c && seen == {} && results == []
      ensures Valid()
    {
      config := c;
      seen := {};
      results := [];
    }

    /** `addResult`: the first call for a name marks it seen and emits its
        record; a later call for it, from any source, is a no-op. */
    method AddResult(subdomain: string, source: string, stamp: string)
      requires Valid()
      modifies this
      ensures Valid()
      ensures seen == old(seen) + {subdomain}
      ensures results == if subdomain in old(seen) then old(results)
                         else old(results) + [Result(subdomain, [], source, stamp)]
    {
      if subdomain in seen {
        return;
      }
      NamesSnoc(results, Result(subdomain, [], source, stamp));
      seen := seen + {subdomain};
      results := results + [Result(subdomain, [], source, stamp)];
    }

    /** The `addResult` calls of a run, in order: the results emitted are
        `FirstWins` of the events, and every name of an event is seen. */
    method AddAll(events: seq<Event>) returns (found: seq<Result>)
      requires Valid()
      modifies this
      ensures Valid()
      ensures found == FirstWins(old(seen), events)
      ensures results == old(results) + found
      ensures seen == old(seen) + EventNames(events)
    {
      found := [];
      ghost var seenAtStart, resultsAtStart := seen, results;
      for i := 0 to |events|
        invariant Valid()
        invariant found + FirstWins(seen, events[i..]) == FirstWins(seenAtStart, events)
        invariant results == resultsAtStart + found
        invariant seen == seenAtStart + EventNames(events[..i])
      {
        var e := events[i];
        ghost var found0, results0 := found, results;
        EmitStep(seenAtStart, events, i, found, seen);
        TakeSnoc(events, i);
        EventNamesSnoc(events[..i], e);
        SetStep(seenAtStart, EventNames(events[..i]), e.subdomain);
        var isNew := e.subdomain !in seen;
        AddResult(e.subdomain, e.source, e.stamp);
        if isNew {
          found := found + [ResultOf(e)];
          AppendAssoc(resultsAtStart, found0, [ResultOf(e)]);
        }
      }
      assert events[..|events|] == events;
    }
  }

  lemma SetStep<T>(a: set<T>, b: set<T>, x: T)
    ensures (a + b) + {x} == a + (b + {x})
  {
  }

  /** The names the events carry. */
  function EventNames(events: seq<Event>): set<string>
  {
    if events == [] then {} else EventNames(events[..|events| - 1]) + {events[|events| - 1].subdomain}
  }

  lemma {:induction false} EventNamesSpec(events: seq<Event>)
    ensures forall x :: x in EventNames(events) <==> exists i :: 0 <= i < |events| && events[i].subdomain == x
  {
    if events != [] {
      var init := events[..|events| - 1];
      EventNamesSpec(init);
      assert forall i :: 0 <= i < |init| ==> init[i] == events[i];
    }
  }

  lemma EventNamesSnoc(events: seq<Event>, e: Event)
    ensures EventNames(events + [e]) == EventNames(events) + {e.subdomain}
  {
    assert (events + [e])[..|events|] == events;
  }

  /** One step of `AddAll`: the event at `i` is emitted when its name is new. */
  lemma EmitStep(start: set<string>, events: seq<Event>, i: nat, found: seq<Result>, seen: set<string>)
    requires i < |events|
    requires found + FirstWins(seen, events[i..]) == FirstWins(start, events)
    ensures (if events[i].subdomain in seen then found else found + [ResultOf(events[i])]) +
      FirstWins(seen + {events[i].subdomain}, events[i + 1..]) == FirstWins(start, events)
  {
    var e := events[i];
    FirstWinsStep(seen, events, i);
    var rest := FirstWins(seen + {e.subdomain}, events[i + 1..]);
    if e.subdomain in seen {
      assert seen + {e.subdomain} == seen;
    } else {
      assert (found + [ResultOf(e)]) + rest == found + ([ResultOf(e)] + rest);
    }
  }

  /** One step of `FirstWins` from position `i`. */
  lemma FirstWinsStep(seen: set<string>, events: seq<Event>, i: nat)
    requires i < |events|
    ensures FirstWins(seen, events[i..]) ==
      if events[i].subdomain in seen then FirstWins(seen, events[i + 1..])
      else [ResultOf(events[i])] + FirstWins(seen + {events[i].subdomain}, events[i + 1..])
  {
    assert events[i..][0] == events[i];
    assert events[i..][1..] == events[i + 1..];
  }

  /** The name one crt.sh line contributes: one leading "*." stripped,
      then the spaces trimmed; kept when non-empty and ending with the
      domain. */
  function CrtLine(domain: string, line: string): (n: Option<string>)
    ensures n.Some? <==> TrimSpace(TrimPrefix(line, "*.")) != "" && HasSuffix(TrimSpace(TrimPrefix(line, "*.")), domain)
    ensures n.Some? ==> n.value == TrimSpace(TrimPrefix(line, "*."))
  {
    var name := TrimSpace(TrimPrefix(line, "*."));
    if name != "" && HasSuffix(name, domain) then Some(name) else None
  }

  function CrtName(domain: string): (keep: string -> Option<string>)
    ensures forall line :: keep(line) == CrtLine(domain, line)
  {
    line => CrtLine(domain, line)
  }

  /** The lines of each certificate's `name_value`. */
  function EntryLines(values: seq<string>): (lines: seq<seq<string>>)
    ensures |lines| == |values|
    ensures forall p :: 0 <= p < |values| ==> lines[p] == Split(values[p], '\n')
  {
    if values == [] then []
    else EntryLines(values[..|values| - 1]) + [Split(values[|values| - 1], '\n')]
  }

  /** The crt.sh names: `values` are the decoded `name_value` fields, or
      `None` when the request, the read or the JSON decoding failed. */
  function CrtShNames(values: Option<seq<string>>, domain: string): seq<string>
  {
    if values.None? then [] else Dedup(Mapped(Flatten(EntryLines(values.value)), CrtName(domain)))
  }

  /** `queryCrtSh` after the HTTP exchange: every line of every entry, in
      order, through one `seen` map. */
  method QueryCrtSh(values: Option<seq<string>>, domain: string) returns (subdomains: seq<string>)
    ensures subdomains == CrtShNames(values, domain)
  {
    subdomains := [];
    if values.None? {
      return;
    }
    var entries := values.value;
    ghost var lines := EntryLines(entries);
    var seen: set<string> := {};
    for p := 0 to |entries|
      invariant subdomains == Dedup(Mapped(Flatten(lines[..p]), CrtName(domain)))
      invariant Tracks(seen, Mapped(Flatten(lines[..p]), CrtName(domain)))
    {
      var names := Split(entries[p], '\n');
      subdomains, seen := CollectMapped(Flatten(lines[..p]), subdomains, seen, names, CrtName(domain));
      FlattenPrefixStep(lines, p);
    }
    assert lines[..|entries|] == lines;
  }

  /** The crt.sh names are distinct, and a name is among them exactly when
      some line of some entry gives it (`CrtLine` says which lines do). */
  lemma CrtShSpec(values: seq<string>, domain: string, n: string)
    ensures NoDuplicates(CrtShNames(Some(values), domain))
    ensures n in CrtShNames(Some(values), domain) <==>
      exists p, k :: 0 <= p < |values| && 0 <= k < |Split(values[p], '\n')| &&
        CrtLine(domain, Split(values[p], '\n')[k]) == Some(n)
  {
    var lines := EntryLines(values);
    var all := Mapped(Flatten(lines), CrtName(domain));
    DedupSpec(all);
    MappedFlattenSpec(lines, CrtName(domain), n);
    assert n in CrtShNames(Some(values), domain) <==> n in all;
    if n in all {
      var p, k :| 0 <= p < |lines| && 0 <= k < |lines[p]| && CrtName(domain)(lines[p][k]) == Some(n);
      assert CrtLine(domain, Split(values[p], '\n')[k]) == Some(n);
    }
    if exists p, k :: 0 <= p < |values| && 0 <= k < |Split(values[p], '\n')| &&
         CrtLine(domain, Split(values[p], '\n')[k]) == Some(n)
    {
      var p, k :| 0 <= p < |values| && 0 <= k < |Split(values[p], '\n')| &&
        CrtLine(domain, Split(values[p], '\n')[k]) == Some(n);
      assert lines[p][k] == Split(values[p], '\n')[k];
      assert CrtName(domain)(lines[p][k]) == Some(n);
    }
  }

  /** Only one "*." is stripped, and only at the very start: a wildcard
      name behind a space keeps its wildcard ... */
  lemma WildcardBehindSpace(domain: string, name: string)
    requires HasPrefix(name, "*.") && !IsSpace(name[|name| - 1]) && HasSuffix(name, domain)
    ensures CrtLine(domain, [' '] + name) == Some(name)
  {
    var line := [' '] + name;
    assert !HasPrefix(line, "*.") by {
      assert line[..2][0] == ' ';
    }
    TrimSpaceOfPadded(name);
  }

  /** ... and so does a doubled wildcard, which loses only its first "*.". */
  lemma OneWildcardStripped(domain: string, name: string)
    requires HasPrefix(name, "*.") && !IsSpace(name[|name| - 1]) && HasSuffix(name, domain)
    ensures CrtLine(domain, "*." + name) == Some(name)
  {
    var line := "*." + name;
    assert line[..2] == "*.";
    assert line[2..] == name;
    TrimSpaceOfTrimmed(name);
  }

  /** The domain filter is a plain suffix test: any head glued to the
      domain without a dot, such as "x" before "example.com", passes. */
  lemma SuffixFilterIsPlain(domain: string, head: string)
    requires head != [] && !IsSpace(head[0]) && head[0] != '*'
    requires domain != [] && !IsSpace(domain[|domain| - 1])
    ensures CrtLine(domain, head + domain) == Some(head + domain)
  {
    var line := head + domain;
    assert !HasPrefix(line, "*.") by {
      assert line[..2][0] == head[0];
    }
    TrimSpaceOfTrimmed(line);
    assert line[|line| - |domain|..] == domain;
  }

  /** The first comma-separated field of a hackertarget line, trimmed. */
  function FirstField(line: string): (f: string)
    ensures f == [] || (!IsSpace(f[0]) && !IsSpace(f[|f| - 1]))
  {
    TrimSpace(Split(line, ',')[0])
  }

  /** The name one hackertarget line contributes: its first field, when
      non-empty and ending with the domain. */
  function HostLine(domain: string, line: string): (n: Option<string>)
    ensures n.Some? <==> FirstField(line) != "" && HasSuffix(FirstField(line), domain)
    ensures n.Some? ==> n.value == FirstField(line)
  {
    var sub := FirstField(line);
    if sub != "" && HasSuffix(sub, domain) then Some(sub) else None
  }

  function HostField(domain: string): (keep: string -> Option<string>)
    ensures forall line :: keep(line) == HostLine(domain, line)
  {
    line => HostLine(domain, line)
  }

  /** The hackertarget names: `body` is the response text, or `None` when
      the request or the read failed. */
  function HackerTargetNames(body: Option<string>, domain: string): seq<string>
  {
    if body.None? then [] else Mapped(Split(body.value, '\n'), HostField(domain))
  }

  /** `queryHackerTarget` after the HTTP exchange. */
  method QueryHackerTarget(body: Option<string>, domain: string) returns (subdomains: seq<string>)
    ensures subdomains == HackerTargetNames(body, domain)
  {
    if body.None? {
      return [];
    }
    subdomains := MapAll(Split(body.value, '\n'), HostField(domain));
  }

  /** Each hackertarget name is the first field of some line of the body,
      non-empty and ending with the domain, and every line whose field
      qualifies gives it. */
  lemma HackerTargetSpec(body: string, domain: string, n: string)
    ensures n in HackerTargetNames(Some(body), domain) ==>
      n != "" && HasSuffix(n, domain) &&
      exists i :: 0 <= i < |Split(body, '\n')| && FirstField(Split(body, '\n')[i]) == n
    ensures n != "" && HasSuffix(n, domain) ==>
      (exists i :: 0 <= i < |Split(body, '\n')| && FirstField(Split(body, '\n')[i]) == n) ==>
      n in HackerTargetNames(Some(body), domain)
  {
    var lines := Split(body, '\n');
    if n in Mapped(lines, HostField(domain)) {
      MappedSource(lines, HostField(domain), n);
      var i :| 0 <= i < |lines| && HostField(domain)(lines[i]) == Some(n);
      assert HostLine(domain, lines[i]) == Some(n);
    }
    if n != "" && HasSuffix(n, domain) && exists i :: 0 <= i < |lines| && FirstField(lines[i]) == n {
      var i :| 0 <= i < |lines| && FirstField(lines[i]) == n;
      var line := lines[i];
      assert HostLine(domain, line).Some?;
      assert HostField(domain)(line) == Some(n);
      MappedMember(lines, HostField(domain), i);
    }
  }

  /** Unlike crt.sh, hackertarget keeps duplicates: a line that gives a name
      adds it once more, whether or not earlier lines gave it already. */
  lemma HackerTargetKeepsDuplicates(domain: string, lines: seq<string>, line: string)
    requires HostLine(domain, line).Some?
    ensures Mapped(lines + [line], HostField(domain)) == Mapped(lines, HostField(domain)) + [HostLine(domain, line).value]
  {
    MappedSnoc(lines, line, HostField(domain));
  }

  /** The threatcrowd names: the decoded `subdomains` list as it is, with no
      filtering, or nothing when the exchange or the decoding failed. */
  function ThreatCrowdNames(decoded: Option<seq<string>>): (names: seq<string>)
    ensures decoded.Some? ==> names == decoded.value
    ensures decoded.None? ==> names == []
  {
    if decoded.None? then [] else decoded.value
  }

  /** The entry one line of a line-per-entry file gives (a wordlist here, a
      target list in the command line tool): the trimmed line, unless it is
      blank or a "#" comment. */
  function ListEntry(line: string): (w: Option<string>)
    ensures w.Some? <==> TrimSpace(line) != "" && !HasPrefix(TrimSpace(line), "#")
    ensures w.Some? ==> w.value == TrimSpace(line)
  {
    var word := TrimSpace(line);
    if word != "" && !HasPrefix(word, "#") then Some(word) else None
  }

  /** The words the feed hands to the workers: `file` is the wordlist's
      content, or `None` when it cannot be opened. */
  function Words(file: Option<string>): seq<string>
  {
    if file.None? then [] else Mapped(Split(file.value, '\n'), ListEntry)
  }

  /** The feed loop of `bruteforceEnumerate`, line by line. */
  method FeedWords(file: Option<string>) returns (words: seq<string>)
    ensures words == Words(file)
  {
    if file.None? {
      return [];
    }
    words := MapAll(Split(file.value, '\n'), ListEntry);
  }

  /** Every word is a trimmed line of the wordlist that is neither blank nor
      a "#" comment, and every such line gives its word. */
  lemma WordsSpec(content: string, w: string)
    ensures w in Words(Some(content)) ==>
      w != "" && !HasPrefix(w, "#") &&
      exists i :: 0 <= i < |Split(content, '\n')| && TrimSpace(Split(content, '\n')[i]) == w
    ensures w != "" && !HasPrefix(w, "#") ==>
      (exists i :: 0 <= i < |Split(content, '\n')| && TrimSpace(Split(content, '\n')[i]) == w) ==>
      w in Words(Some(content))
  {
    var lines := Split(content, '\n');
    if w in Mapped(lines, ListEntry) {
      MappedSource(lines, ListEntry, w);
      var i :| 0 <= i < |lines| && ListEntry(lines[i]) == Some(w);
      assert TrimSpace(lines[i]) == w;
    }
    if w != "" && !HasPrefix(w, "#") && exists i :: 0 <= i < |lines| && TrimSpace(lines[i]) == w {
      var i :| 0 <= i < |lines| && TrimSpace(lines[i]) == w;
      MappedMember(lines, ListEntry, i);
    }
  }

  /** The name a word stands for. */
  function Candidate(word: string, domain: string): string
  {
    word + "." + domain
  }

  /** What a worker records for a word: the candidate name, when its single
      lookup has no error and at least one address. */
  function HitOf(domain: string, lookup: string -> DnsResolution.Lookup, w: string): (n: Option<string>)
    ensures n.Some? <==> DnsResolution.Answered(lookup(Candidate(w, domain)))
    ensures n.Some? ==> n.value == Candidate(w, domain)
  {
    if DnsResolution.Answered(lookup(Candidate(w, domain))) then Some(Candidate(w, domain)) else None
  }

  function Hit(domain: string, lookup: string -> DnsResolution.Lookup): (keep: string -> Option<string>)
    ensures forall w :: keep(w) == HitOf(domain, lookup, w)
  {
    w => HitOf(domain, lookup, w)
  }

  /** The bruteforce workers in their sequential meaning: the names they
      record, in word order. */
  method BruteforceHits(words: seq<string>, domain: string, lookup: string -> DnsResolution.Lookup)
    returns (hits: seq<string>)
    ensures hits == Mapped(words, Hit(domain, lookup))
  {
    hits := MapAll(words, Hit(domain, lookup));
  }

  /** A name is recorded by the bruteforce exactly when it is word + "." +
      domain for some word whose lookup answered. */
  lemma HitsSpec(words: seq<string>, domain: string, lookup: string -> DnsResolution.Lookup, n: string)
    ensures n in Mapped(words, Hit(domain, lookup)) <==>
      exists i :: 0 <= i < |words| && n == words[i] + "." + domain && DnsResolution.Answered(lookup(n))
  {
    MappedSpec(words, Hit(domain, lookup));
  }

  const CrtShSource := "crtsh"
  const HackerTargetSource := "hackertarget"
  const ThreatCrowdSource := "threatcrowd"
  const BruteforceSource := "bruteforce"

  /** Names tagged with their source and stamped by the clock, `clock(k)`
      being the reading at the run's `k`-th `addResult` call. */
  function Stamp(names: seq<string>, source: string, clock: nat -> string, offset: nat): (es: seq<Event>)
    ensures |es| == |names|
    ensures forall k :: 0 <= k < |names| ==> es[k] == Event(names[k], source, clock(offset + k))
  {
    if names == [] then []
    else
      var last := Event(names[|names| - 1], source, clock(offset + |names| - 1));
      Stamp(names[..|names| - 1], source, clock, offset) + [last]
  }

  lemma StampSource(names: seq<string>, source: string, clock: nat -> string, offset: nat)
    ensures forall e :: e in Stamp(names, source, clock, offset) ==> e.source == source
  {
  }

  /** The passive stage: the crt.sh, hackertarget and threatcrowd names,
      one source after the other. */
  function PassiveEvents(crt: seq<string>, ht: seq<string>, tc: seq<string>, clock: nat -> string): seq<Event>
  {
    Stamp(crt, CrtShSource, clock, 0) + Stamp(ht, HackerTargetSource, clock, |crt|) +
      Stamp(tc, ThreatCrowdSource, clock, |crt| + |ht|)
  }

  /** The stages a configuration runs. */
  predicate RunsPassive(c: Config)
  {
    c.passive
  }

  predicate RunsBruteforce(c: Config)
  {
    c.bruteforce && c.wordlist != ""
  }

  /** The `addResult` calls of one `Enumerate` run: the passive stage when
      Passive is set, then the bruteforce stage when Bruteforce is set and a
      wordlist is named. */
  function RunEvents(c: Config, crt: Option<seq<string>>, ht: Option<string>, tc: Option<seq<string>>,
                     file: Option<string>, lookup: string -> DnsResolution.Lookup, clock: nat -> string): seq<Event>
  {
    var passive := if RunsPassive(c) then
      PassiveEvents(CrtShNames(crt, c.domain), HackerTargetNames(ht, c.domain), ThreatCrowdNames(tc), clock)
    else [];
    var hits := Mapped(Words(file), Hit(c.domain, lookup));
    passive + if RunsBruteforce(c) then Stamp(hits, BruteforceSource, clock, |passive|) else []
  }

  /** No passive source is asked without Passive, and the wordlist feed
      runs only with Bruteforce and a non-empty wordlist path. */
  lemma ModeSelection(c: Config, crt: Option<seq<string>>, ht: Option<string>, tc: Option<seq<string>>,
                      file: Option<string>, lookup: string -> DnsResolution.Lookup, clock: nat -> string)
    ensures !c.passive && !(c.bruteforce && c.wordlist != "") ==> RunEvents(c, crt, ht, tc, file, lookup, clock) == []
    ensures !c.passive ==> forall e :: e in RunEvents(c, crt, ht, tc, file, lookup, clock) ==> e.source == BruteforceSource
    ensures !(c.bruteforce && c.wordlist != "") ==>
      forall e :: e in RunEvents(c, crt, ht, tc, file, lookup, clock) ==> e.source != BruteforceSource
  {
    var passive := if RunsPassive(c) then
      PassiveEvents(CrtShNames(crt, c.domain), HackerTargetNames(ht, c.domain), ThreatCrowdNames(tc), clock)
    else [];
    var brute := if RunsBruteforce(c) then Stamp(Mapped(Words(file), Hit(c.domain, lookup)), BruteforceSource, clock, |passive|) else [];
    assert RunEvents(c, crt, ht, tc, file, lookup, clock) == passive + brute;
    PassiveSources(CrtShNames(crt, c.domain), HackerTargetNames(ht, c.domain), ThreatCrowdNames(tc), clock);
    StampSource(Mapped(Words(file), Hit(c.domain, lookup)), BruteforceSource, clock, |passive|);
  }

  /** The passive stage never claims to be the bruteforce. */
  lemma PassiveSources(crt: seq<string>, ht: seq<string>, tc: seq<string>, clock: nat -> string)
    ensures forall e :: e in PassiveEvents(crt, ht, tc, clock) ==> e.source != BruteforceSource
  {
    StampSource(crt, CrtShSource, clock, 0);
    StampSource(ht, HackerTargetSource, clock, |crt|);
    StampSource(tc, ThreatCrowdSource, clock, |crt| + |ht|);
  }

  /** `Enumerate` in its sequential meaning: the answers of the three
      sources, the wordlist content and the DNS lookups are inputs, and the
      records it returns are those its `addResult` calls emit. A wordlist
      feed needs at least one worker to take its jobs. */
  method Enumerate(s: Scanner, crt: Option<seq<string>>, ht: Option<string>, tc: Option<seq<string>>,
                   file: Option<string>, lookup: string -> DnsResolution.Lookup, clock: nat -> string)
    returns (found: seq<Result>)
    requires s.Valid()
    requires s.config.bruteforce && s.config.wordlist != "" ==> s.config.workers > 0
    modifies s
    ensures s.Valid()
    ensures found == FirstWins(old(s.seen), RunEvents(s.config, crt, ht, tc, file, lookup, clock))
    ensures s.results == old(s.results) + found
  {
    var c := s.config;
    var events: seq<Event> := [];
    if RunsPassive(c) {
      var a := QueryCrtSh(crt, c.domain);
      var b := QueryHackerTarget(ht, c.domain);
      events := PassiveEvents(a, b, ThreatCrowdNames(tc), clock);
    }
    if RunsBruteforce(c) {
      var words := FeedWords(file);
      var hits := BruteforceHits(words, c.domain, lookup);
      events := events + Stamp(hits, BruteforceSource, clock, |events|);
    } else {
      assert events + [] == events;
    }
    found := s.AddAll(events);
  }
}
