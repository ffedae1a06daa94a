// interpolatedValues and redactedPlan of cmd/plan_redaction.go: which values are
// hidden, in which order, and that a displayed plan shows none of them.
module PlanRedaction {
  import opened Strings
  import opened Schema
  import opened Planning
  import opened Redaction
  import opened Resolve

  // ------------------------------------------------------------- the order

  /** Byte-wise string order. */
  predicate Less(a: string, b: string) {
    b != "" && (a == "" || a[0] < b[0] || (a[0] == b[0] && Less(a[1..], b[1..])))
  }

  /** Longest first, then in string order. */
  predicate Before(a: string, b: string) {
    |a| > |b| || (|a| == |b| && Less(a, b))
  }

  predicate Sorted(values: seq<string>) {
    forall i, j :: 0 <= i < j < |values| ==> !Before(values[j], values[i])
  }

  function Insert(values: seq<string>, v: string): (r: seq<string>)
    ensures multiset(r) == multiset(values) + multiset{v}
    decreases values
  {
    if values == [] || !Before(values[0], v) then [v] + values
    else
      assert values == [values[0]] + values[1..];
      [values[0]] + Insert(values[1..], v)
  }

  /** What sort.Slice produces; by OnlyOneSortedOrder below, whatever its algorithm. */
  function SortValues(values: seq<string>): (r: seq<string>)
    ensures multiset(r) == multiset(values)
  {
    if values == [] then []
    else
      assert values == values[..|values| - 1] + [values[|values| - 1]];
      Insert(SortValues(values[..|values| - 1]), values[|values| - 1])
  }

  lemma {:induction false} LessIsStrict(a: string, b: string)
    ensures !(Less(a, b) && Less(b, a))
    ensures a == b || Less(a, b) || Less(b, a)
    decreases a
  {
    if a != "" && b != "" && a[0] == b[0] {
      LessIsStrict(a[1..], b[1..]);
      assert a == [a[0]] + a[1..] && b == [b[0]] + b[1..];
    }
  }

  lemma {:induction false} LessIsTransitive(a: string, b: string, c: string)
    requires Less(a, b) && Less(b, c)
    ensures Less(a, c)
    decreases a
  {
    if a != "" && a[0] == b[0] == c[0] {
      LessIsTransitive(a[1..], b[1..], c[1..]);
    }
  }

  /** `Before` is a strict total order. */
  lemma BeforeIsTotal(a: string, b: string, c: string)
    ensures !(Before(a, b) && Before(b, a))
    ensures a == b || Before(a, b) || Before(b, a)
    ensures !Before(b, a) && !Before(c, b) ==> !Before(c, a)
  {
    hide Less;
    LessIsStrict(a, b);
    LessIsStrict(b, c);
    LessIsStrict(a, c);
    if |a| == |b| == |c| {
      if Less(a, b) && Less(b, c) { LessIsTransitive(a, b, c); }
    }
  }

  lemma {:induction false} InsertSorts(values: seq<string>, v: string)
    requires Sorted(values)
    ensures Sorted(Insert(values, v))
    decreases values
  {
    hide Before;
    var r := Insert(values, v);
    if values == [] || !Before(values[0], v) {
      forall i, j | 0 <= i < j < |r| ensures !Before(r[j], r[i]) {
        if i == 0 {
          BeforeIsTotal(v, values[0], r[j]);
          assert r[j] == values[j - 1];
        } else {
          assert r[i] == values[i - 1] && r[j] == values[j - 1];
        }
      }
    } else {
      var rest := Insert(values[1..], v);
      assert Sorted(values[1..]);
      InsertSorts(values[1..], v);
      forall i, j | 0 <= i < j < |r| ensures !Before(r[j], r[i]) {
        if i == 0 {
          assert r[j] == rest[j - 1] && rest[j - 1] in multiset(rest);
          assert rest[j - 1] == v || rest[j - 1] in multiset(values[1..]);
          BeforeIsTotal(v, values[0], v);
          if r[j] != v {
            var k :| 0 <= k < |values[1..]| && values[1..][k] == r[j];
            assert !Before(values[k + 1], values[0]);
          }
        } else {
          assert r[i] == rest[i - 1] && r[j] == rest[j - 1];
        }
      }
    }
  }

  lemma {:induction false} SortValuesSorts(values: seq<string>)
    ensures Sorted(SortValues(values))
    decreases values
  {
    hide Insert;
    if values != [] {
      SortValuesSorts(values[..|values| - 1]);
      InsertSorts(SortValues(values[..|values| - 1]), values[|values| - 1]);
    }
  }

  lemma SameLength(a: seq<string>, b: seq<string>)
    requires multiset(a) == multiset(b)
    ensures |a| == |b|
  {
    assert |multiset(a)| == |a| && |multiset(b)| == |b|;
  }

  lemma HeadsAgree(a: seq<string>, b: seq<string>)
    requires Sorted(a) && Sorted(b) && multiset(a) == multiset(b) && a != [] && b != []
    ensures a[0] == b[0]
  {
    hide Before;
    assert a[0] in multiset(b) && b[0] in multiset(a);
    var i :| 0 <= i < |a| && a[i] == b[0];
    var j :| 0 <= j < |b| && b[j] == a[0];
    BeforeIsTotal(a[0], b[0], a[0]);
  }

  lemma TailOf(a: seq<string>)
    requires a != []
    ensures a == [a[0]] + a[1..] && a[..0] + a[0 + 1..] == a[1..]
    ensures Sorted(a) ==> Sorted(a[1..])
  {}

  lemma Without<T>(a: seq<T>, k: nat)
    requires k < |a|
    ensures a == a[..k] + [a[k]] + a[k + 1..]
    ensures multiset(a[..k] + a[k + 1..]) == multiset(a) - multiset{a[k]}
  {
    assert a == a[..k] + [a[k]] + a[k + 1..];
  }

  /** Two sorted arrangements of the same values are equal, so the result depends
      neither on the sorting algorithm nor on the order of collection. */
  lemma {:induction false} OnlyOneSortedOrder(a: seq<string>, b: seq<string>)
    requires Sorted(a) && Sorted(b) && multiset(a) == multiset(b)
    ensures a == b
    decreases a
  {
    hide Sorted;
    SameLength(a, b);
    if a != [] {
      HeadsAgree(a, b);
      TailOf(a);
      TailOf(b);
      Without(a, 0);
      Without(b, 0);
      OnlyOneSortedOrder(a[1..], b[1..]);
    }
  }

  // ---------------------------------------------------------- collection

  /** A resolved value beside the text it was resolved from. */
  datatype Pair = Pair(value: string, raw: string)

  predicate Interpolated(p: Pair) {
    '$' in p.raw && p.value != ""
  }

  function Keep(pairs: seq<Pair>): (values: seq<string>)
    ensures forall v :: v in values <==> exists p :: p in pairs && Interpolated(p) && p.value == v
  {
    if pairs == [] then []
    else
      var p := pairs[|pairs| - 1];
      assert pairs == pairs[..|pairs| - 1] + [p];
      Keep(pairs[..|pairs| - 1]) + if Interpolated(p) then [p.value] else []
  }

  lemma {:induction false} KeepConcat(a: seq<Pair>, b: seq<Pair>)
    ensures Keep(a + b) == Keep(a) + Keep(b)
    decreases b
  {
    if b == [] {
      assert a + b == a;
    } else {
      var n := |b| - 1;
      assert (a + b)[..|a + b| - 1] == a + b[..n];
      KeepConcat(a, b[..n]);
    }
  }

  function Min(a: nat, b: nat): nat {
    if a < b then a else b
  }

  function ZipPairs(values: seq<string>, raw: seq<string>): (pairs: seq<Pair>)
    ensures |pairs| == Min(|values|, |raw|)
  {
    seq(Min(|values|, |raw|), i requires 0 <= i < Min(|values|, |raw|) => Pair(values[i], raw[i]))
  }

  function RawOf(env: map<string, string>, key: string): string {
    if key in env then env[key] else ""
  }

  function EnvPairs(keys: seq<string>, values: map<string, string>, raw: map<string, string>): seq<Pair>
    requires forall key :: key in keys ==> key in values
  {
    seq(|keys|, i requires 0 <= i < |keys| => Pair(values[keys[i]], RawOf(raw, keys[i])))
  }

  function PayloadPair(p: Payload, raw: Payload): seq<Pair> {
    [Pair(p.source, raw.source), Pair(p.content, raw.content), Pair(p.destination, raw.destination)]
  }

  function PayloadPairs(payloads: seq<Payload>, raw: seq<Payload>, n: nat): seq<Pair>
    requires n <= |payloads|
  {
    if n == 0 then []
    else PayloadPairs(payloads, raw, n - 1) + if n - 1 < |raw| then PayloadPair(payloads[n - 1], raw[n - 1]) else []
  }

  function OutputPair(o: Output, raw: Output): seq<Pair> {
    [Pair(o.source, raw.source), Pair(o.destination, raw.destination)]
  }

  function OutputPairs(outputs: seq<Output>, raw: seq<Output>, n: nat): seq<Pair>
    requires n <= |outputs|
  {
    if n == 0 then []
    else OutputPairs(outputs, raw, n - 1) + if n - 1 < |raw| then OutputPair(outputs[n - 1], raw[n - 1]) else []
  }

  function HeaderPairs(r: Harness, h: Harness): seq<Pair> {
    [Pair(r.name, h.name), Pair(r.spec.target.gateway, h.spec.target.gateway),
     Pair(r.spec.target.workspace, h.spec.target.workspace),
     Pair(r.spec.inference.route, h.spec.inference.route), Pair(r.spec.inference.provider, h.spec.inference.provider),
     Pair(r.spec.inference.model, h.spec.inference.model), Pair(r.spec.inference.timeout, h.spec.inference.timeout),
     Pair(r.spec.sandbox.image, h.spec.sandbox.image)]
  }

  function PolicyPairs(r: Sandbox, h: Sandbox): seq<Pair> {
    if r.policy.None? then []
    else [Pair(r.policy.value.file, if h.policy.Some? then h.policy.value.file else "")]
  }

  function SourcePairs(r: Source, h: Source): seq<Pair> {
    [Pair(r.repo, h.repo), Pair(r.ref, h.ref), Pair(r.destination, h.destination), Pair(r.submodules, h.submodules)]
  }

  /** Every resolved value the plan may show, with its source text. */
  function Pairs(r: Harness, h: Harness, keys: seq<string>): seq<Pair>
    requires forall key :: key in keys ==> key in r.spec.sandbox.env
  {
    HeaderPairs(r, h) + PolicyPairs(r.spec.sandbox, h.spec.sandbox)
    + ZipPairs(r.spec.sandbox.providers, h.spec.sandbox.providers)
    + EnvPairs(keys, r.spec.sandbox.env, h.spec.sandbox.env)
    + [Pair(r.spec.agent.kind, h.spec.agent.kind)] + ZipPairs(r.spec.agent.args, h.spec.agent.args)
    + SourcePairs(r.spec.source, h.spec.source)
    + PayloadPairs(r.spec.payloads, h.spec.payloads, |r.spec.payloads|)
      + OutputPairs(r.spec.outputs, h.spec.outputs, |r.spec.outputs|)
  }

  /** The `add` closure, over a run of pairs. */
  method AddEach(values: seq<string>, pairs: seq<Pair>) returns (r: seq<string>)
    ensures r == values + Keep(pairs)
  {
    r := values;
    for i := 0 to |pairs|
      invariant r == values + Keep(pairs[..i])
    {
      assert pairs[..i + 1][..i] == pairs[..i];
      if '$' in pairs[i].raw && pairs[i].value != "" {
        r := r + [pairs[i].value];
      }
    }
    assert pairs[..|pairs|] == pairs;
  }

  method AddPayloads(values: seq<string>, payloads: seq<Payload>, raw: seq<Payload>) returns (r: seq<string>)
    ensures r == values + Keep(PayloadPairs(payloads, raw, |payloads|))
  {
    hide Keep, PayloadPair;
    r := values;
    KeepNothing();
    for i := 0 to |payloads|
      invariant r == values + Keep(PayloadPairs(payloads, raw, i))
    {
      KeepNothing();
      KeepConcat(PayloadPairs(payloads, raw, i), if i < |raw| then PayloadPair(payloads[i], raw[i]) else []);
      if i >= |raw| {
        continue;
      }
      r := AddEach(r, PayloadPair(payloads[i], raw[i]));
    }
  }

  lemma KeepNothing()
    ensures Keep([]) == []
  {}

  method AddOutputs(values: seq<string>, outputs: seq<Output>, raw: seq<Output>) returns (r: seq<string>)
    ensures r == values + Keep(OutputPairs(outputs, raw, |outputs|))
  {
    hide Keep, OutputPair;
    r := values;
    KeepNothing();
    for i := 0 to |outputs|
      invariant r == values + Keep(OutputPairs(outputs, raw, i))
    {
      KeepNothing();
      KeepConcat(OutputPairs(outputs, raw, i), if i < |raw| then OutputPair(outputs[i], raw[i]) else []);
      if i >= |raw| {
        continue;
      }
      r := AddEach(r, OutputPair(outputs[i], raw[i]));
    }
  }

  /** interpolatedValues; `keys` is the order in which the map is ranged over. */
  method InterpolatedValues(r: Harness, h: Harness, keys: seq<string>) returns (values: seq<string>)
    requires Enumerates(keys, r.spec.sandbox.env)
    ensures values == SortValues(Keep(Pairs(r, h, keys)))
    ensures Sorted(values)
  {
    hide Keep, SortValues, PayloadPairs, OutputPairs, ZipPairs, EnvPairs, HeaderPairs, PolicyPairs, SourcePairs, Sorted;
    values := [];
    ghost var done := HeaderPairs(r, h);
    values := AddEach(values, HeaderPairs(r, h));
    assert values == Keep(done);
    values, done := Extend(values, done, PolicyPairs(r.spec.sandbox, h.spec.sandbox));
    values, done := Extend(values, done, ZipPairs(r.spec.sandbox.providers, h.spec.sandbox.providers));
    values, done := Extend(values, done, EnvPairs(keys, r.spec.sandbox.env, h.spec.sandbox.env));
    values, done := Extend(values, done, [Pair(r.spec.agent.kind, h.spec.agent.kind)]);
    values, done := Extend(values, done, ZipPairs(r.spec.agent.args, h.spec.agent.args));
    values, done := Extend(values, done, SourcePairs(r.spec.source, h.spec.source));
    values := AddPayloads(values, r.spec.payloads, h.spec.payloads);
    KeepConcat(done, PayloadPairs(r.spec.payloads, h.spec.payloads, |r.spec.payloads|));
    done := done + PayloadPairs(r.spec.payloads, h.spec.payloads, |r.spec.payloads|);
    values := AddOutputs(values, r.spec.outputs, h.spec.outputs);
    KeepConcat(done, OutputPairs(r.spec.outputs, h.spec.outputs, |r.spec.outputs|));
    SortValuesSorts(values);
    values := SortValues(values);
  }

  method Extend(values: seq<string>, ghost done: seq<Pair>, pairs: seq<Pair>)
    returns (r: seq<string>, ghost all: seq<Pair>)
    requires values == Keep(done)
    ensures r == values + Keep(pairs)
    ensures all == done + pairs && r == Keep(all)
  {
    KeepConcat(done, pairs);
    all := done + pairs;
    r := AddEach(values, pairs);
  }

  /** Which values are hidden: the non-empty resolved values whose source text holds a
      '$'; the order of the environment map does not matter. */
  lemma HiddenValues(r: Harness, h: Harness, keys: seq<string>, other: seq<string>)
    requires Enumerates(keys, r.spec.sandbox.env) && Enumerates(other, r.spec.sandbox.env)
    ensures forall v :: v in SortValues(Keep(Pairs(r, h, keys))) <==>
      exists p :: p in Pairs(r, h, keys) && Interpolated(p) && p.value == v
    ensures SortValues(Keep(Pairs(r, h, keys))) == SortValues(Keep(Pairs(r, h, other)))
  {
    hide SortValues, PayloadPairs, OutputPairs, ZipPairs, EnvPairs, HeaderPairs, PolicyPairs, SourcePairs, Sorted,
      Interpolated, Keep, Pairs;
    var values := Keep(Pairs(r, h, keys));
    forall v ensures v in SortValues(values) <==> v in values {
      assert v in SortValues(values) <==> v in multiset(SortValues(values));
    }
    SameCollection(r, h, keys, other);
    SortValuesSorts(values);
    SortValuesSorts(Keep(Pairs(r, h, other)));
    OnlyOneSortedOrder(SortValues(values), SortValues(Keep(Pairs(r, h, other))));
  }

  lemma KeepAround(front: seq<Pair>, p: Pair, back: seq<Pair>)
    ensures multiset(Keep(front + [p] + back)) == multiset(Keep(front + back)) + multiset(Keep([p]))
  {
    hide Keep;
    KeepConcat(front, back);
    KeepConcat(front + [p], back);
    KeepConcat(front, [p]);
  }

  lemma {:induction false} KeepCounts(a: seq<Pair>, b: seq<Pair>)
    requires multiset(a) == multiset(b)
    ensures multiset(Keep(a)) == multiset(Keep(b))
    decreases a
  {
    hide Keep;
    assert |multiset(a)| == |a| && |multiset(b)| == |b|;
    if a == [] {
      assert a == b;
    } else {
      var n := |a| - 1;
      var p := a[n];
      assert p in multiset(a);
      var k :| 0 <= k < |b| && b[k] == p;
      Without(a, n);
      Without(b, k);
      assert a[..n] + a[n + 1..] == a[..n];
      KeepCounts(a[..n], b[..k] + b[k + 1..]);
      KeepAround(a[..n], p, []);
      assert a[..n] + [] == a[..n] && a[..n] + [p] + [] == a;
      KeepAround(b[..k], p, b[k + 1..]);
    }
  }

  lemma SameCollection(r: Harness, h: Harness, keys: seq<string>, other: seq<string>)
    requires Enumerates(keys, r.spec.sandbox.env) && Enumerates(other, r.spec.sandbox.env)
    ensures multiset(Keep(Pairs(r, h, keys))) == multiset(Keep(Pairs(r, h, other)))
  {
    hide PayloadPairs, OutputPairs, ZipPairs, HeaderPairs, PolicyPairs, SourcePairs, Keep, EnvPairs;
    SameKeys(keys, other, r.spec.sandbox.env);
    SameEnvPairs(keys, other, r.spec.sandbox.env, h.spec.sandbox.env);
    KeepCounts(Pairs(r, h, keys), Pairs(r, h, other));
  }

  lemma {:induction false} DistinctCounts(keys: seq<string>, key: string)
    requires forall i, j :: 0 <= i < j < |keys| ==> keys[i] != keys[j]
    ensures multiset(keys)[key] == if key in keys then 1 else 0
    decreases keys
  {
    if keys != [] {
      var n := |keys| - 1;
      assert keys == keys[..n] + [keys[n]];
      DistinctCounts(keys[..n], key);
    }
  }

  lemma SameKeys(keys: seq<string>, other: seq<string>, m: map<string, string>)
    requires Enumerates(keys, m) && Enumerates(other, m)
    ensures multiset(keys) == multiset(other)
  {
    forall key: string ensures multiset(keys)[key] == multiset(other)[key] {
      DistinctCounts(keys, key);
      DistinctCounts(other, key);
    }
  }

  lemma {:induction false} SameEnvPairs(keys: seq<string>, other: seq<string>, values: map<string, string>,
                                        raw: map<string, string>)
    requires multiset(keys) == multiset(other)
    requires forall key :: key in keys || key in other ==> key in values
    ensures multiset(EnvPairs(keys, values, raw)) == multiset(EnvPairs(other, values, raw))
    decreases keys
  {
    hide EnvPairs;
    SameLength(keys, other);
    if keys == [] {
      assert keys == other;
    } else {
      var n := |keys| - 1;
      var key := keys[n];
      assert key in multiset(keys);
      var k :| 0 <= k < |other| && other[k] == key;
      Without(keys, n);
      Without(other, k);
      assert keys[..n] + keys[n + 1..] == keys[..n];
      SameEnvPairs(keys[..n], other[..k] + other[k + 1..], values, raw);
      EnvPairsAround(keys[..n], key, [], values, raw);
      assert keys[..n] + [] == keys[..n] && keys[..n] + [key] + [] == keys;
      EnvPairsAround(other[..k], key, other[k + 1..], values, raw);
    }
  }

  lemma EnvPairsAround(front: seq<string>, key: string, back: seq<string>, values: map<string, string>,
                       raw: map<string, string>)
    requires key in values && forall x :: x in front || x in back ==> x in values
    ensures multiset(EnvPairs(front + [key] + back, values, raw))
         == multiset(EnvPairs(front + back, values, raw)) + multiset{Pair(values[key], RawOf(raw, key))}
  {
    EnvPairsConcat(front, back, values, raw);
    EnvPairsConcat(front + [key], back, values, raw);
    EnvPairsConcat(front, [key], values, raw);
    assert EnvPairs([key], values, raw) == [Pair(values[key], RawOf(raw, key))];
  }

  lemma EnvPairsConcat(a: seq<string>, b: seq<string>, values: map<string, string>, raw: map<string, string>)
    requires forall key :: key in a || key in b ==> key in values
    ensures EnvPairs(a + b, values, raw) == EnvPairs(a, values, raw) + EnvPairs(b, values, raw)
  {}

  // -------------------------------------------------------- the plan shown

  function RedactedResource(r: Resource, values: seq<string>): Resource {
    Resource(Redacted(r.name, values), r.action, Redacted(r.detail, values))
  }

  function RedactedGroup(g: Group, values: seq<string>): Group {
    Group(g.section, seq(|g.resources|, i requires 0 <= i < |g.resources| => RedactedResource(g.resources[i], values)))
  }

  function RedactedPlan(p: Plan, values: seq<string>): Plan {
    if values == [] then p
    else
      Plan(Redacted(p.gateway, values), Redacted(p.workspace, values),
        seq(|p.groups|, i requires 0 <= i < |p.groups| => RedactedGroup(p.groups[i], values)))
  }

  /** redactedPlan. */
  method RedactPlan(p: Plan, resolved: Harness, input: Harness, keys: seq<string>) returns (out: Plan)
    requires Enumerates(keys, resolved.spec.sandbox.env)
    ensures out == RedactedPlan(p, SortValues(Keep(Pairs(resolved, input, keys))))
  {
    hide Redacted, Keep, Pairs, SortValues, Sorted;
    var values := InterpolatedValues(resolved, input, keys);
    if |values| == 0 {
      return p;
    }
    var gateway := RedactPlanString(p.gateway, values);
    var workspace := RedactPlanString(p.workspace, values);
    var groups: seq<Group> := [];
    ghost var all := RedactedPlan(p, values).groups;
    for i := 0 to |p.groups|
      invariant groups == all[..i]
    {
      var group := RedactGroup(p.groups[i], values);
      assert all[i] == group;
      PrefixGrows(all, i);
      groups := groups + [group];
    }
    assert all[..|p.groups|] == all;
    out := Plan(gateway, workspace, groups);
  }

  method RedactGroup(g: Group, values: seq<string>) returns (out: Group)
    ensures out == RedactedGroup(g, values)
  {
    hide Redacted;
    ghost var all := RedactedGroup(g, values).resources;
    out := Group(g.section, []);
    for j := 0 to |g.resources|
      invariant out == Group(g.section, all[..j])
    {
      var name := RedactPlanString(g.resources[j].name, values);
      var detail := RedactPlanString(g.resources[j].detail, values);
      var resource := g.resources[j].(name := name, detail := detail);
      assert all[j] == resource;
      PrefixGrows(all, j);
      out := out.(resources := out.resources + [resource]);
    }
    assert all[..|g.resources|] == all;
  }

  predicate ShowsNone(text: string, values: seq<string>) {
    forall v :: v in values ==> !Contains(text, v)
  }

  predicate PlanShowsNone(p: Plan, values: seq<string>) {
    && ShowsNone(p.gateway, values) && ShowsNone(p.workspace, values)
    && forall g, r :: g in p.groups && r in g.resources ==> ShowsNone(r.name, values) && ShowsNone(r.detail, values)
  }

  /** No interpolated value is shown anywhere in a redacted plan, when the values are
      free of angle brackets and do not occur in the word "redacted". Sections and
      actions are kept. */
  lemma NothingInterpolatedIsShown(p: Plan, r: Harness, h: Harness, keys: seq<string>)
    requires Enumerates(keys, r.spec.sandbox.env)
    requires forall q :: q in Pairs(r, h, keys) && Interpolated(q) ==>
      BracketFree(q.value) && !Contains("redacted", q.value)
    ensures var values := SortValues(Keep(Pairs(r, h, keys)));
      var out := RedactedPlan(p, values);
      && PlanShowsNone(out, values)
      && |out.groups| == |p.groups|
      && forall i :: 0 <= i < |p.groups| ==>
           && out.groups[i].section == p.groups[i].section
           && |out.groups[i].resources| == |p.groups[i].resources|
           && forall j :: 0 <= j < |p.groups[i].resources| ==>
             out.groups[i].resources[j].action == p.groups[i].resources[j].action
  {
    hide SortValues, Keep, Pairs, Redacted, Contains, BracketFree, Touches;
    var values := SortValues(Keep(Pairs(r, h, keys)));
    HiddenValues(r, h, keys, keys);
    forall v | v in values ensures v != "" && !Touches(v) {
      BracketFreeTouches(v);
    }
    forall text: string ensures ShowsNone(Redacted(text, values), values) {
      NothingIsLeft(text, values);
    }
    if values == [] {
      assert forall text :: ShowsNone(text, values);
    }
  }

  /** A text that shows none of the values is displayed as it is. */
  lemma {:induction false} CleanTextIsKept(text: string, values: seq<string>)
    requires ShowsNone(text, values)
    ensures Redacted(text, values) == text
    decreases values
  {
    if values != [] {
      assert values[0] in values;
      CleanTextIsKept(text, values[1..]);
    }
  }
}
