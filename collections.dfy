/** Sequence helpers shared by every scanner: the "append unless already seen"
    pattern the Go code writes with a local `seen` map, and the `n` limit of the
    regular-expression `FindAll(…, n)` calls. */
module Collections {

  /** An optional value: Go's nil-able results and `value, ok` pairs. */
  datatype Option<T> = None | Some(value: T)

  /** The value of `o` as a sequence of at most one element. */
  function AsSeq<T>(o: Option<T>): (s: seq<T>)
    ensures o.None? ==> s == []
    ensures o.Some? ==> s == [o.value]
  {
    if o.Some? then [o.value] else []
  }

  /** The values of the present elements, in order: a loop that appends only
      the results that came back. */
  function Present<T>(os: seq<Option<T>>): (vs: seq<T>)
    ensures |vs| <= |os|
    ensures forall i :: 0 <= i < |os| && os[i].Some? ==> os[i].value in vs
  {
    if os == [] then [] else Present(os[..|os| - 1]) + AsSeq(os[|os| - 1])
  }

  lemma PresentSnoc<T>(os: seq<Option<T>>, o: Option<T>)
    ensures Present(os + [o]) == Present(os) + AsSeq(o)
  {
    assert (os + [o])[..|os|] == os;
  }

  /** A value is kept exactly when it is present at some position. */
  lemma {:induction false} PresentSpec<T>(os: seq<Option<T>>)
    ensures forall v :: v in Present(os) <==> exists i :: 0 <= i < |os| && os[i] == Some(v)
  {
    if os != [] {
      var init := os[..|os| - 1];
      PresentSpec(init);
      assert forall i :: 0 <= i < |init| ==> init[i] == os[i];
    }
  }

  predicate NoDuplicates<T(==)>(s: seq<T>) {
    forall i, j :: 0 <= i < j < |s| ==> s[i] != s[j]
  }

  /** `seen` holds exactly the elements of `s`: what a `seen` map holds after
      `s` was walked. */
  ghost predicate Tracks<T(!new)>(seen: set<T>, s: seq<T>)
  {
    forall x :: x in seen <==> x in s
  }

  /** The elements of `s` in the order of their first occurrence, each once. */
  function Dedup<T(==)>(s: seq<T>): (r: seq<T>)
    ensures |r| <= |s|
  {
    if s == [] then []
    else
      var init := Dedup(s[..|s| - 1]);
      if s[|s| - 1] in s[..|s| - 1] then init else init + [s[|s| - 1]]
  }

  /** The deduplicated sequence holds the same elements, each once. */
  lemma DedupSpec<T>(s: seq<T>)
    ensures forall x :: x in Dedup(s) <==> x in s
    ensures NoDuplicates(Dedup(s))
  {
    DedupSame(s);
    DedupDistinct(s);
  }

  lemma {:induction false} DedupSame<T>(s: seq<T>)
    ensures forall x :: x in Dedup(s) <==> x in s
  {
    if s != [] {
      var init, last := s[..|s| - 1], s[|s| - 1];
      DedupSame(init);
      assert s == init + [last];
      DedupSnoc(init, last);
    }
  }

  lemma {:induction false} DedupDistinct<T>(s: seq<T>)
    ensures NoDuplicates(Dedup(s))
  {
    if s != [] {
      var init, last := s[..|s| - 1], s[|s| - 1];
      DedupDistinct(init);
      DedupSame(init);
      assert s == init + [last];
      DedupSnoc(init, last);
    }
  }

  /** Appending an element extends the deduplicated sequence by that element
      exactly when it is new; this is the step the Go loops take. */
  lemma DedupSnoc<T>(s: seq<T>, x: T)
    ensures Dedup(s + [x]) == if x in s then Dedup(s) else Dedup(s) + [x]
  {
    assert (s + [x])[..|s|] == s;
  }

  /** What is kept from a prefix stays, in the same order, at the front. */
  lemma {:induction false} DedupPrefix<T>(a: seq<T>, b: seq<T>)
    ensures Dedup(a) <= Dedup(a + b)
  {
    if b != [] {
      var b' := b[..|b| - 1];
      DedupPrefix(a, b');
      assert a + b == (a + b') + [b[|b| - 1]];
      DedupSnoc(a + b', b[|b| - 1]);
    } else {
      assert a + b == a;
    }
  }

  /** A sequence without repetitions is its own deduplication. */
  lemma {:induction false} DedupOfDistinct<T>(s: seq<T>)
    requires NoDuplicates(s)
    ensures Dedup(s) == s
  {
    if s != [] {
      var init := s[..|s| - 1];
      assert NoDuplicates(init);
      DedupOfDistinct(init);
      assert s[|s| - 1] !in init;
      assert init + [s[|s| - 1]] == s;
    }
  }

  /** The seen-set loop: walk `xs`, append each element not seen before. */
  method DedupInOrder<T(==)>(xs: seq<T>) returns (out: seq<T>)
    ensures out == Dedup(xs)
  {
    var seen: set<T> := {};
    out := [];
    for i := 0 to |xs|
      invariant out == Dedup(xs[..i])
      invariant forall x :: x in seen <==> x in xs[..i]
    {
      assert xs[..i + 1] == xs[..i] + [xs[i]];
      DedupSnoc(xs[..i], xs[i]);
      if xs[i] !in seen {
        seen := seen + {xs[i]};
        out := out + [xs[i]];
      }
    }
    assert xs[..|xs|] == xs;
  }

  /** The names of the rules that fire, in rule order, repetitions kept: a
      chain of `if cond { add(name) }` statements read as a table of
      (condition, name) pairs. */
  function Fired<T>(rules: seq<(bool, T)>): (names: seq<T>)
    ensures |names| <= |rules|
  {
    if rules == [] then []
    else
      var last := rules[|rules| - 1];
      Fired(rules[..|rules| - 1]) + (if last.0 then [last.1] else [])
  }

  /** The name of a rule when it fires. */
  function FireOf<T>(rule: (bool, T)): Option<T>
  {
    if rule.0 then Some(rule.1) else None
  }

  /** Every rule that fires contributes its name, and every name comes from a
      rule that fired. */
  lemma {:induction false} FiredSpec<T>(rules: seq<(bool, T)>)
    ensures forall i :: 0 <= i < |rules| && rules[i].0 ==> rules[i].1 in Fired(rules)
    ensures forall y :: y in Fired(rules) ==>
      exists i :: 0 <= i < |rules| && rules[i].0 && rules[i].1 == y
  {
    if rules != [] {
      var init := rules[..|rules| - 1];
      FiredSpec(init);
      assert forall i :: 0 <= i < |init| ==> init[i] == rules[i];
    }
  }

  /** A table where no rule fires names nothing. */
  lemma {:induction false} FiredNone<T>(rules: seq<(bool, T)>)
    requires forall i :: 0 <= i < |rules| ==> !rules[i].0
    ensures Fired(rules) == []
    decreases |rules|
  {
    if rules != [] {
      var init := rules[..|rules| - 1];
      assert forall i :: 0 <= i < |init| ==> init[i] == rules[i];
      FiredNone(init);
    }
  }

  /** A table where exactly rule `k` fires names that rule's name alone. */
  lemma {:induction false} FiredSingle<T>(rules: seq<(bool, T)>, k: nat)
    requires k < |rules| && rules[k].0
    requires forall i :: 0 <= i < |rules| && i != k ==> !rules[i].0
    ensures Fired(rules) == [rules[k].1]
    decreases |rules|
  {
    var init := rules[..|rules| - 1];
    assert forall i :: 0 <= i < |init| ==> init[i] == rules[i];
    if k < |rules| - 1 {
      FiredSingle(init, k);
    } else {
      FiredNone(init);
    }
  }

  /** The table read as a `Mapped` list with `FireOf`. */
  lemma {:induction false} FiredIsMapped<T>(rules: seq<(bool, T)>)
    ensures Fired(rules) == Mapped(rules, FireOf)
  {
    if rules != [] {
      FiredIsMapped(rules[..|rules| - 1]);
    }
  }

  /** The `addTech`-style chain: each rule that fires adds its name unless a
      `seen` map already holds it. */
  method AddFired<T(==, !new)>(rules: seq<(bool, T)>) returns (out: seq<T>)
    ensures out == Dedup(Fired(rules))
  {
    var seen: set<T>;
    out, seen := CollectMapped([], [], {}, rules, FireOf);
    assert [] + rules == rules;
    FiredIsMapped(rules);
  }

  /** `out` lists the names of the rules that fire, each once: no
      repetitions, every fired name, and only fired names. */
  ghost predicate FiredOnce<T>(rules: seq<(bool, T)>, out: seq<T>)
  {
    NoDuplicates(out)
    && (forall i :: 0 <= i < |rules| && rules[i].0 ==> rules[i].1 in out)
    && (forall y :: y in out ==> exists i :: 0 <= i < |rules| && rules[i].0 && rules[i].1 == y)
  }

  /** What the chain gives lists the fired names once each. */
  lemma AddFiredSpec<T>(rules: seq<(bool, T)>)
    ensures FiredOnce(rules, Dedup(Fired(rules)))
  {
    var out := Dedup(Fired(rules));
    FiredSpec(rules);
    DedupSpec(Fired(rules));
    assert NoDuplicates(out);
    assert forall x :: x in out <==> x in Fired(rules);
    assert forall i :: 0 <= i < |rules| && rules[i].0 ==> rules[i].1 in out;
    assert forall y :: y in out ==> exists i :: 0 <= i < |rules| && rules[i].0 && rules[i].1 == y;
  }



  /** The first `n` elements, or all of them when there are fewer: what a
      `FindAll(…, n)` call returns of the full match list. */
  function Take<T>(s: seq<T>, n: nat): (r: seq<T>)
    ensures |r| <= n && |r| <= |s|
    ensures r <= s
    ensures |s| <= n ==> r == s
  {
    if |s| <= n then s else s[..n]
  }

  /** The concatenation of a sequence of sequences. */
  function Flatten<T>(ss: seq<seq<T>>): seq<T>
  {
    if ss == [] then [] else ss[0] + Flatten(ss[1..])
  }

  /** Sequence identities, stated once for any element type so that callers
      whose elements are themselves sequences do not compare them. */
  /** Kept as lemmas rather than asserts: the facts stay out of the caller's
      context until they are needed. */
  lemma AppendAssoc<E>(a: seq<E>, b: seq<E>, c: seq<E>)
    ensures (a + b) + c == a + (b + c)
  {
  }

  lemma TakeSnoc<E>(s: seq<E>, i: nat)
    requires i < |s|
    ensures s[..i + 1] == s[..i] + [s[i]]
  {
  }

  lemma SliceOfSuffix<E>(s: seq<E>, i: nat, j: nat, k: nat)
    requires i <= |s| && j <= k <= |s| - i
    ensures s[i..][j..k] == s[i + j..i + k]
  {
  }

  lemma AppendInit<E>(a: seq<E>, b: seq<E>)
    requires b != []
    ensures (a + b)[..|a + b| - 1] == a + b[..|b| - 1]
    ensures (a + b)[|a + b| - 1] == b[|b| - 1]
  {
  }

  lemma {:induction false} FlattenAppend<T>(a: seq<seq<T>>, b: seq<seq<T>>)
    ensures Flatten(a + b) == Flatten(a) + Flatten(b)
  {
    if a != [] {
      assert (a + b)[1..] == a[1..] + b;
      FlattenAppend(a[1..], b);
    } else {
      assert a + b == b;
    }
  }

  lemma FlattenPrefixStep<T>(ss: seq<seq<T>>, p: nat)
    requires p < |ss|
    ensures Flatten(ss[..p + 1]) == Flatten(ss[..p]) + ss[p]
  {
    assert ss[..p + 1] == ss[..p] + [ss[p]];
    FlattenSnoc(ss[..p], ss[p]);
  }

  lemma FlattenSnoc<T>(ss: seq<seq<T>>, s: seq<T>)
    ensures Flatten(ss + [s]) == Flatten(ss) + s
  {
    FlattenAppend(ss, [s]);
    assert Flatten([s]) == s + Flatten([s][1..]);
  }

  /** The concatenation around one part. */
  lemma FlattenSplit<T>(ss: seq<seq<T>>, p: nat)
    requires p < |ss|
    ensures Flatten(ss) == Flatten(ss[..p]) + ss[p] + Flatten(ss[p + 1..])
  {
    assert ss[..p + 1] + ss[p + 1..] == ss;
    FlattenAppend(ss[..p + 1], ss[p + 1..]);
    FlattenPrefixStep(ss, p);
  }

  /** An element of the concatenation is an element of one of the parts. */
  lemma {:induction false} FlattenMembership<T>(ss: seq<seq<T>>, x: T)
    ensures x in Flatten(ss) <==> exists p :: 0 <= p < |ss| && x in ss[p]
  {
    if ss != [] {
      FlattenMembership(ss[1..], x);
      if x in Flatten(ss[1..]) {
        var p :| 0 <= p < |ss[1..]| && x in ss[1..][p];
        assert x in ss[p + 1];
      }
      if exists p :: 0 <= p < |ss| && x in ss[p] {
        var p :| 0 <= p < |ss| && x in ss[p];
        if p > 0 {
          assert x in ss[1..][p - 1];
        }
      }
    }
  }

  /** An element of the concatenation sits at some position of some part. */
  lemma FlattenElement<T>(ss: seq<seq<T>>, x: T)
    requires x in Flatten(ss)
    ensures exists p, k :: 0 <= p < |ss| && 0 <= k < |ss[p]| && ss[p][k] == x
  {
    FlattenMembership(ss, x);
    var p :| 0 <= p < |ss| && x in ss[p];
    var k :| 0 <= k < |ss[p]| && ss[p][k] == x;
  }

  /** Every position of every part is in the concatenation. */
  lemma FlattenContains<T>(ss: seq<seq<T>>, p: nat, k: nat)
    requires p < |ss| && k < |ss[p]|
    ensures ss[p][k] in Flatten(ss)
  {
    FlattenMembership(ss, ss[p][k]);
  }

  /** Parts of at most `n` elements each concatenate to at most n times
      their number. */
  lemma {:induction false} FlattenLengthBound<T>(ss: seq<seq<T>>, n: nat)
    requires forall p :: 0 <= p < |ss| ==> |ss[p]| <= n
    ensures |Flatten(ss)| <= n * |ss|
  {
    if ss != [] {
      FlattenLengthBound(ss[1..], n);
    }
  }

  /** One more element of `ms` after `done`. */
  lemma SnocSlice<T>(done: seq<T>, ms: seq<T>, i: nat)
    requires i < |ms|
    ensures done + ms[..i + 1] == (done + ms[..i]) + [ms[i]]
  {
    assert ms[..i + 1] == ms[..i] + [ms[i]];
  }

  /** A slice of a prefix is a slice of the whole. */
  lemma SliceOfPrefix<T>(s: seq<T>, n: nat, a: nat, b: nat)
    requires a <= b <= n <= |s|
    ensures s[..n][a..b] == s[a..b]
  {
  }

  /** The empty and the full prefix of `ms` after `done`. */
  lemma SliceEnds<T>(done: seq<T>, ms: seq<T>)
    ensures done + ms[..0] == done
    ensures done + ms[..|ms|] == done + ms
  {
    assert ms[..0] == [];
    assert ms[..|ms|] == ms;
  }

  /** The results `f` gives, for the elements it gives one for, in order. */
  function Mapped<T, U>(xs: seq<T>, f: T -> Option<U>): (ys: seq<U>)
    ensures |ys| <= |xs|
  {
    if xs == [] then [] else Mapped(xs[..|xs| - 1], f) + AsSeq(f(xs[|xs| - 1]))
  }

  lemma MappedSnoc<T, U>(xs: seq<T>, x: T, f: T -> Option<U>)
    ensures Mapped(xs + [x], f) == Mapped(xs, f) + AsSeq(f(x))
  {
    assert (xs + [x])[..|xs|] == xs;
  }

  lemma {:induction false} MappedAppend<T, U>(xs: seq<T>, ys: seq<T>, f: T -> Option<U>)
    ensures Mapped(xs + ys, f) == Mapped(xs, f) + Mapped(ys, f)
    decreases |ys|
  {
    if ys == [] {
      assert xs + ys == xs;
    } else {
      var init, y := ys[..|ys| - 1], ys[|ys| - 1];
      assert xs + ys == (xs + init) + [y] by {
        SnocSlice(xs, ys, |ys| - 1);
        SliceEnds(xs, ys);
      }
      assert ys == init + [y];
      calc {
        Mapped(xs + ys, f);
      == { MappedSnoc(xs + init, y, f); }
        Mapped(xs + init, f) + AsSeq(f(y));
      == { MappedAppend(xs, init, f); }
        Mapped(xs, f) + Mapped(init, f) + AsSeq(f(y));
      == { MappedSnoc(init, y, f); }
        Mapped(xs, f) + Mapped(ys, f);
      }
    }
  }

  /** A value is among the results exactly when `f` gives it for some
      element. */
  lemma {:induction false} MappedSpec<T, U>(xs: seq<T>, f: T -> Option<U>)
    ensures forall y :: y in Mapped(xs, f) <==> exists i :: 0 <= i < |xs| && f(xs[i]) == Some(y)
  {
    if xs != [] {
      var init := xs[..|xs| - 1];
      MappedSpec(init, f);
      assert forall i :: 0 <= i < |init| ==> init[i] == xs[i];
    }
  }

  /** The two directions of `MappedSpec` for one value and one element. */
  lemma MappedSource<T, U>(xs: seq<T>, f: T -> Option<U>, y: U)
    requires y in Mapped(xs, f)
    ensures exists i :: 0 <= i < |xs| && f(xs[i]) == Some(y)
  {
    MappedSpec(xs, f);
  }

  lemma {:induction false} MappedMember<T, U>(xs: seq<T>, f: T -> Option<U>, i: nat)
    requires i < |xs| && f(xs[i]).Some?
    ensures f(xs[i]).value in Mapped(xs, f)
    decreases |xs|
  {
    var init := xs[..|xs| - 1];
    assert Mapped(xs, f) == Mapped(init, f) + AsSeq(f(xs[|xs| - 1]));
    if i < |xs| - 1 {
      assert init[i] == xs[i];
      MappedMember(init, f, i);
    }
  }

  /** Elements for which `f` gives nothing contribute nothing. */
  lemma {:induction false} MappedNone<T, U>(xs: seq<T>, f: T -> Option<U>)
    requires forall i :: 0 <= i < |xs| ==> f(xs[i]).None?
    ensures Mapped(xs, f) == []
  {
    if xs != [] {
      MappedNone(xs[..|xs| - 1], f);
    }
  }

  /** A result of mapping a concatenation comes from some position of some
      part, and every position with a value contributes it. */
  lemma MappedFlattenSpec<T, U>(xss: seq<seq<T>>, f: T -> Option<U>, y: U)
    ensures y in Mapped(Flatten(xss), f) <==>
      exists p, k :: 0 <= p < |xss| && 0 <= k < |xss[p]| && f(xss[p][k]) == Some(y)
  {
    var all := Flatten(xss);
    MappedSpec(all, f);
    if y in Mapped(all, f) {
      var i :| 0 <= i < |all| && f(all[i]) == Some(y);
      FlattenElement(xss, all[i]);
      var p, k :| 0 <= p < |xss| && 0 <= k < |xss[p]| && xss[p][k] == all[i];
    }
    if exists p, k :: 0 <= p < |xss| && 0 <= k < |xss[p]| && f(xss[p][k]) == Some(y) {
      var p, k :| 0 <= p < |xss| && 0 <= k < |xss[p]| && f(xss[p][k]) == Some(y);
      FlattenContains(xss, p, k);
      var i :| 0 <= i < |all| && all[i] == xss[p][k];
    }
  }

  /** When `f` gives a value for every element, there is one result per
      element, in order. */
  lemma {:induction false} MappedTotal<T, U>(xs: seq<T>, f: T -> Option<U>)
    requires forall i :: 0 <= i < |xs| ==> f(xs[i]).Some?
    ensures |Mapped(xs, f)| == |xs|
    ensures forall i :: 0 <= i < |xs| ==> Mapped(xs, f)[i] == f(xs[i]).value
  {
    if xs != [] {
      var init := xs[..|xs| - 1];
      assert forall i :: 0 <= i < |init| ==> init[i] == xs[i];
      MappedTotal(init, f);
    }
  }

  /** One more element of `items` after `done`. */
  lemma MappedStep<T, U>(done: seq<T>, items: seq<T>, i: nat, f: T -> Option<U>)
    requires i < |items|
    ensures f(items[i]).None? ==> Mapped(done + items[..i + 1], f) == Mapped(done + items[..i], f)
    ensures f(items[i]).Some? ==> Mapped(done + items[..i + 1], f) == Mapped(done + items[..i], f) + [f(items[i]).value]
  {
    SnocSlice(done, items, i);
    MappedSnoc(done + items[..i], items[i], f);
  }

  /** The loop over `items` with a `seen` set carried over from `done`: each
      result of `f` not yet seen is appended. */
  method CollectMapped<T, U(==, !new)>(ghost done: seq<T>, out: seq<U>, seen: set<U>, items: seq<T>, f: T -> Option<U>)
    returns (out': seq<U>, seen': set<U>)
    requires out == Dedup(Mapped(done, f))
    requires Tracks(seen, Mapped(done, f))
    ensures out' == Dedup(Mapped(done + items, f))
    ensures Tracks(seen', Mapped(done + items, f))
  {
    out', seen' := out, seen;
    SliceEnds(done, items);
    ghost var acc := Mapped(done, f);
    for i := 0 to |items|
      invariant acc == Mapped(done + items[..i], f)
      invariant out' == Dedup(acc)
      invariant Tracks(seen', acc)
    {
      MappedStep(done, items, i, f);
      var r := f(items[i]);
      if r.Some? {
        DedupSnoc(acc, r.value);
        if r.value !in seen' {
          seen' := seen' + {r.value};
          out' := out' + [r.value];
        }
        acc := acc + [r.value];
      }
    }
  }

  lemma MappedPrefixStep<T, U>(items: seq<T>, i: nat, f: T -> Option<U>)
    requires i < |items|
    ensures f(items[i]).None? ==> Mapped(items[..i + 1], f) == Mapped(items[..i], f)
    ensures f(items[i]).Some? ==> Mapped(items[..i + 1], f) == Mapped(items[..i], f) + [f(items[i]).value]
  {
    assert items[..i + 1][..i] == items[..i];
  }

  /** The loop that appends the result of `f` for each element that has
      one. */
  method MapAll<T, U>(items: seq<T>, f: T -> Option<U>) returns (out: seq<U>)
    ensures out == Mapped(items, f)
  {
    out := [];
    for i := 0 to |items|
      invariant out == Mapped(items[..i], f)
    {
      MappedPrefixStep(items, i, f);
      var r := f(items[i]);
      if r.Some? {
        out := out + [r.value];
      }
    }
    assert items[..|items|] == items;
  }

  /** The loop that appends every element of `items` to `out`. */
  method AppendAll<T>(out: seq<T>, items: seq<T>) returns (out': seq<T>)
    ensures out' == out + items
  {
    out' := out;
    for i := 0 to |items|
      invariant out' == out + items[..i]
    {
      SnocSlice(out, items, i);
      out' := out' + [items[i]];
    }
    SliceEnds(out, items);
  }
}
