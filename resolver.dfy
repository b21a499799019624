/** The DNS side of subdomain enumeration (scanner/subdomain/resolver.go):
    defaults, resolution with retries through a lookup oracle, the pinning of
    workers to DNS servers, and the filtering of live names. */
module DnsResolution {
  import opened Collections
  import Retrying

  datatype ResolverConfig = ResolverConfig(resolvers: seq<string>, timeout: int, retries: int, workers: int)

  datatype ResolutionResult = ResolutionResult(subdomain: string, ips: seq<string>, alive: bool, error: string)

  /** A resolver: its configuration with the defaults applied, and one DNS
      client per configured server address. */
  datatype Resolver = Resolver(config: ResolverConfig)

  const DefaultServers: seq<string> := ["8.8.8.8:53", "1.1.1.1:53", "8.8.4.4:53"]

  /** `NewResolver`: an empty server list, a zero timeout, zero retries and
      zero workers are each replaced by their default; every other value is
      kept as given. */
  function NewResolver(c: ResolverConfig): (r: Resolver)
    ensures |r.config.resolvers| > 0 && r.config.timeout != 0 && r.config.retries != 0 && r.config.workers != 0
    ensures c.resolvers != [] ==> r.config.resolvers == c.resolvers
    ensures c.timeout != 0 ==> r.config.timeout == c.timeout
    ensures c.retries != 0 ==> r.config.retries == c.retries
    ensures c.workers != 0 ==> r.config.workers == c.workers
  {
    Resolver(ResolverConfig(
      if |c.resolvers| == 0 then DefaultServers else c.resolvers,
      if c.timeout == 0 then 5 * Retrying.Second else c.timeout,
      if c.retries == 0 then 2 else c.retries,
      if c.workers == 0 then 100 else c.workers))
  }

  /** The zero configuration gets the three public servers, a five-second
      timeout, two retries and a hundred workers; defaulting twice changes
      nothing more. */
  lemma NewResolverDefaults(c: ResolverConfig)
    ensures var z := NewResolver(ResolverConfig([], 0, 0, 0)).config;
      z.resolvers == ["8.8.8.8:53", "1.1.1.1:53", "8.8.4.4:53"] && z.timeout == 5_000_000_000 &&
      z.retries == 2 && z.workers == 100
    ensures NewResolver(NewResolver(c).config) == NewResolver(c)
  {
  }

  /** The server worker `w` is pinned to: the servers taken round-robin. */
  function ServerFor(r: Resolver, w: nat): (server: string)
    requires |r.config.resolvers| > 0
    ensures server in r.config.resolvers
  {
    r.config.resolvers[w % |r.config.resolvers|]
  }

  /** Worker `w` uses server `w` while there are enough of them, and workers
      one round apart share a server. */
  lemma ServerPinning(r: Resolver, w: nat)
    requires |r.config.resolvers| > 0
    ensures w < |r.config.resolvers| ==> ServerFor(r, w) == r.config.resolvers[w]
    ensures ServerFor(r, w + |r.config.resolvers|) == ServerFor(r, w)
  {
    ModPeriodic(w, |r.config.resolvers|);
    if w < |r.config.resolvers| {
      ModSmall(w, |r.config.resolvers|);
    }
  }

  lemma ModSmall(w: nat, n: nat)
    requires w < n
    ensures w % n == w
  {
    var q, m := w / n, w % n;
    assert w == n * q + m;
    if q > 0 {
      MulMonotone(n, 1, q);
      assert false;
    } else if q < 0 {
      MulMonotone(n, q, -1);
      assert false;
    }
  }

  lemma ModPeriodic(w: nat, n: nat)
    requires n > 0
    ensures (w + n) % n == w % n
  {
    var q, m := w / n, w % n;
    var q2, m2 := (w + n) / n, (w + n) % n;
    assert w == n * q + m;
    assert w + n == n * q2 + m2;
    assert n * (q + 1) == n * q + n;
    assert n * (q + 2) == n * q + 2 * n;
    if q2 > q + 1 {
      MulMonotone(n, q + 2, q2);
      assert false;
    } else if q2 < q + 1 {
      MulMonotone(n, q2, q);
      assert false;
    }
  }

  lemma MulMonotone(n: nat, a: int, b: int)
    requires a <= b
    ensures n * a <= n * b
  {
    assert n * b - n * a == n * (b - a);
  }

  /** What one `LookupIPAddr` call gives: the addresses, already rendered as
      text, and the error text when it failed. */
  datatype Lookup = Lookup(ips: seq<string>, err: Option<string>)

  /** A lookup that ends the retries: no error and at least one address. */
  predicate Answered(l: Lookup)
  {
    l.err.None? && |l.ips| > 0
  }

  /** The text kept of the last error: its message, or "" when it was nil. */
  function ErrorText(e: Option<string>): string
  {
    if e.Some? then e.value else ""
  }

  /** The outcome of attempts `a` to `retries`, `lastErr` being the error of
      the attempt before `a`. */
  function Outcome(sub: string, retries: int, look: nat -> Lookup, a: nat, lastErr: Option<string>): (res: ResolutionResult)
    decreases retries + 1 - a
    ensures res.subdomain == sub
    ensures res.alive ==> |res.ips| > 0 && res.error == ""
    ensures !res.alive ==> res.ips == []
  {
    if a > retries then ResolutionResult(sub, [], false, ErrorText(lastErr))
    else if Answered(look(a)) then ResolutionResult(sub, look(a).ips, true, "")
    else Outcome(sub, retries, look, a + 1, look(a).err)
  }

  /** `resolveWithRetry` in its meaning, `look(a)` being the lookup of attempt `a`. */
  function Resolved(sub: string, retries: int, look: nat -> Lookup): ResolutionResult
  {
    Outcome(sub, retries, look, 0, None)
  }

  /** How many lookups attempts `a` to `retries` make. */
  function CallsFrom(retries: int, look: nat -> Lookup, a: nat): (n: nat)
    decreases retries + 1 - a
    ensures a <= n
    ensures retries >= 0 && a <= retries ==> n <= retries + 1
  {
    if a > retries then a
    else if Answered(look(a)) then a + 1
    else CallsFrom(retries, look, a + 1)
  }

  /** How many lookups `resolveWithRetry` makes. */
  function Calls(retries: int, look: nat -> Lookup): nat
  {
    CallsFrom(retries, look, 0)
  }

  /** The outcome of the attempts from `a`: live exactly when some attempt up
      to `retries` is answered, with the addresses of the first such attempt,
      which is the last one made; otherwise dead, with the last attempt's
      error text. */
  lemma {:induction false} OutcomeSpec(sub: string, retries: int, look: nat -> Lookup, a: nat, lastErr: Option<string>)
    requires a == 0 || a <= retries + 1
    ensures var res, n := Outcome(sub, retries, look, a, lastErr), CallsFrom(retries, look, a);
      (res.alive <==> exists k :: a <= k <= retries && Answered(look(k))) &&
      (res.alive ==>
         a < n && Answered(look(n - 1)) && res.ips == look(n - 1).ips &&
         forall j :: a <= j < n - 1 ==> !Answered(look(j))) &&
      (!res.alive ==>
         n == (if a <= retries then retries + 1 else a) &&
         res.error == (if a <= retries then ErrorText(look(retries).err) else ErrorText(lastErr)) &&
         forall j :: a <= j <= retries ==> !Answered(look(j)))
    decreases retries + 1 - a
  {
    if a <= retries && !Answered(look(a)) {
      OutcomeSpec(sub, retries, look, a + 1, look(a).err);
    }
  }

  /** `resolveWithRetry`: at most Retries + 1 lookups; it stops at the first
      answered one with its addresses; otherwise the name is dead, has no
      addresses and keeps the error text of the last attempt ("" when that
      error was nil, or when no attempt was made). */
  lemma ResolvedSpec(sub: string, retries: int, look: nat -> Lookup)
    ensures var res, n := Resolved(sub, retries, look), Calls(retries, look);
      res.subdomain == sub &&
      n <= (if retries >= 0 then retries + 1 else 0) &&
      (res.alive <==> exists k :: 0 <= k <= retries && Answered(look(k))) &&
      (res.alive ==>
         0 < n && Answered(look(n - 1)) && res.ips == look(n - 1).ips && res.error == "" &&
         forall j :: 0 <= j < n - 1 ==> !Answered(look(j))) &&
      (!res.alive ==>
         res.ips == [] && res.error == (if retries >= 0 then ErrorText(look(retries).err) else ""))
  {
    OutcomeSpec(sub, retries, look, 0, None);
  }

  /** The waits of `resolveWithRetry`: (attempt + 1) × 100ms after attempt
      `attempt`, for the first `n` attempts. */
  function Backoff(n: nat): (waits: seq<int>)
    ensures |waits| == n
    ensures forall i :: 0 <= i < n ==> waits[i] == (i + 1) * 100 * Retrying.Millisecond
  {
    if n == 0 then [] else Backoff(n - 1) + [n * 100 * Retrying.Millisecond]
  }

  /** `resolveWithRetry`, with `look` the lookup oracle of this name and
      server and `waits` the sleeps between attempts: there is one wait after
      each attempt but the last one made. */
  method ResolveWithRetry(r: Resolver, sub: string, look: nat -> Lookup) returns (res: ResolutionResult, waits: seq<int>)
    ensures res == Resolved(sub, r.config.retries, look)
    ensures var n := Calls(r.config.retries, look);
      waits == Backoff(if n > 0 then n - 1 else 0)
  {
    var retries := r.config.retries;
    var lastErr: Option<string> := None;
    waits := [];
    var attempt := 0;
    while attempt <= retries
      invariant 0 <= attempt && (attempt == 0 || attempt <= retries + 1)
      invariant Outcome(sub, retries, look, attempt, lastErr) == Resolved(sub, retries, look)
      invariant CallsFrom(retries, look, attempt) == Calls(retries, look)
      invariant waits == Backoff(if attempt > 0 && attempt > retries then attempt - 1 else attempt)
      decreases retries + 1 - attempt
    {
      var l := look(attempt);
      if l.err.None? && |l.ips| > 0 {
        res := ResolutionResult(sub, l.ips, true, "");
        return;
      }
      lastErr := l.err;
      if attempt < retries {
        waits := waits + [(attempt + 1) * 100 * Retrying.Millisecond];
      }
      attempt := attempt + 1;
    }
    res := ResolutionResult(sub, [], false, ErrorText(lastErr));
  }

  /** A name handed to a worker: the worker that picked it from the job
      channel decides the server. */
  datatype Job = Job(subdomain: string, worker: nat)

  /** The resolution of one job, through the server its worker is pinned to;
      `lookup(server, name, attempt)` is the DNS oracle. */
  function JobOutcome(r: Resolver, lookup: (string, string, nat) -> Lookup, job: Job): ResolutionResult
    requires |r.config.resolvers| > 0
  {
    Resolved(job.subdomain, r.config.retries, JobLookup(lookup, ServerFor(r, job.worker), job.subdomain))
  }

  /** The lookup oracle of one name through one server, by attempt. */
  function JobLookup(lookup: (string, string, nat) -> Lookup, server: string, sub: string): nat -> Lookup
  {
    (a: nat) => lookup(server, sub, a)
  }

  /** The live resolutions of the jobs, in job order. */
  function AliveResults(r: Resolver, lookup: (string, string, nat) -> Lookup, jobs: seq<Job>): (rs: seq<ResolutionResult>)
    requires |r.config.resolvers| > 0
    ensures |rs| <= |jobs|
  {
    if jobs == [] then []
    else
      var res := JobOutcome(r, lookup, jobs[|jobs| - 1]);
      AliveResults(r, lookup, jobs[..|jobs| - 1]) + (if res.alive then [res] else [])
  }

  /** Every kept result is live, and a job's resolution is kept exactly
      when it is live. */
  lemma {:induction false} AliveResultsSpec(r: Resolver, lookup: (string, string, nat) -> Lookup, jobs: seq<Job>)
    requires |r.config.resolvers| > 0
    ensures forall k :: 0 <= k < |AliveResults(r, lookup, jobs)| ==> AliveResults(r, lookup, jobs)[k].alive
    ensures forall j :: 0 <= j < |jobs| && JobOutcome(r, lookup, jobs[j]).alive ==>
      JobOutcome(r, lookup, jobs[j]) in AliveResults(r, lookup, jobs)
    ensures forall x :: x in AliveResults(r, lookup, jobs) ==>
      exists j :: 0 <= j < |jobs| && JobOutcome(r, lookup, jobs[j]) == x
  {
    if jobs != [] {
      var init := jobs[..|jobs| - 1];
      AliveResultsSpec(r, lookup, init);
      assert forall j :: 0 <= j < |init| ==> init[j] == jobs[j];
    }
  }

  lemma AliveResultsStep(r: Resolver, lookup: (string, string, nat) -> Lookup, jobs: seq<Job>, i: nat)
    requires |r.config.resolvers| > 0 && i < |jobs|
    ensures var res := JobOutcome(r, lookup, jobs[i]);
      AliveResults(r, lookup, jobs[..i + 1]) ==
        AliveResults(r, lookup, jobs[..i]) + (if res.alive then [res] else [])
  {
    assert jobs[..i + 1][..i] == jobs[..i];
  }

  /** `Resolve` in its sequential meaning: each job resolved with retries
      through its worker's server, and the live results kept in job order.
      The channel buffer of Workers × 2 jobs needs Workers >= 0. */
  method Resolve(r: Resolver, jobs: seq<Job>, lookup: (string, string, nat) -> Lookup) returns (resolved: seq<ResolutionResult>)
    requires |r.config.resolvers| > 0 && r.config.workers > 0
    requires forall j :: 0 <= j < |jobs| ==> jobs[j].worker < r.config.workers
    ensures resolved == AliveResults(r, lookup, jobs)
  {
    resolved := [];
    for i := 0 to |jobs|
      invariant resolved == AliveResults(r, lookup, jobs[..i])
    {
      AliveResultsStep(r, lookup, jobs, i);
      var job := jobs[i];
      var server := ServerFor(r, job.worker);
      var result, waits := ResolveWithRetry(r, job.subdomain, JobLookup(lookup, server, job.subdomain));
      if result.alive {
        resolved := resolved + [result];
      }
    }
    assert jobs[..|jobs|] == jobs;
  }

  /** The name of a live result. */
  function AliveName(res: ResolutionResult): Option<string>
  {
    if res.alive then Some(res.subdomain) else None
  }

  /** `FilterAlive`: the names of the live results, in order. */
  method FilterAlive(r: Resolver, jobs: seq<Job>, lookup: (string, string, nat) -> Lookup) returns (alive: seq<string>)
    requires |r.config.resolvers| > 0 && r.config.workers > 0
    requires forall j :: 0 <= j < |jobs| ==> jobs[j].worker < r.config.workers
    ensures alive == Mapped(AliveResults(r, lookup, jobs), AliveName)
  {
    var results := Resolve(r, jobs, lookup);
    alive := MapAll(results, AliveName);
  }

  /** The names `FilterAlive` gives are exactly the names of the live
      results, one each, in the same order. */
  lemma FilterAliveSpec(r: Resolver, lookup: (string, string, nat) -> Lookup, jobs: seq<Job>)
    requires |r.config.resolvers| > 0
    ensures var rs := AliveResults(r, lookup, jobs);
      |Mapped(rs, AliveName)| == |rs| &&
      forall k :: 0 <= k < |rs| ==> Mapped(rs, AliveName)[k] == rs[k].subdomain
  {
    var rs := AliveResults(r, lookup, jobs);
    AliveResultsSpec(r, lookup, jobs);
    MappedTotal(rs, AliveName);
  }
}
