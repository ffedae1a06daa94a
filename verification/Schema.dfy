// The workflow document of internal/config/types.go. Pointers are options; the
// yaml tags and the parser are not part of this model.
module Schema {
  import opened Strings

  datatype Harness = Harness(version: int, name: string, spec: Spec)

  datatype Spec = Spec(
    target: Target, inference: Inference, sandbox: Sandbox, agent: Agent, source: Source,
    payloads: seq<Payload>, outputs: seq<Output>)

  datatype Target = Target(gateway: string, workspace: string, registration: Option<Registration>)

  datatype Registration = Registration(endpoint: string, oidc: Option<OIDC>)

  datatype OIDC = OIDC(issuer: string, clientId: string, audience: string)

  datatype Inference = Inference(route: string, provider: string, model: string, timeout: string, verify: Option<bool>)

  datatype Sandbox = Sandbox(
    image: string, providers: seq<string>, policy: Option<PolicyRef>, env: map<string, string>, keep: bool, tty: bool)

  datatype PolicyRef = PolicyRef(file: string)

  datatype Agent = Agent(kind: string, args: seq<string>)

  datatype Source = Source(repo: string, ref: string, destination: string, submodules: string)

  datatype Payload = Payload(source: string, content: string, destination: string)

  datatype Output = Output(source: string, destination: string, required: Option<bool>)

  /** RequiredEnabled: unset means required. */
  predicate RequiredEnabled(o: Output) {
    o.required.None? || o.required.value
  }

  /** inferenceConfigured and isInferenceConfigured: `verify` alone configures nothing. */
  predicate InferenceConfigured(inf: Inference) {
    inf.route != "" || inf.provider != "" || inf.model != "" || inf.timeout != ""
  }

  // ------------------------------------------------------------- timeouts

  const NANOS_PER_SECOND := 1_000_000_000

  datatype TimeoutFault = NotADuration | Negative | NotWholeSeconds

  /** TimeoutSecs; `parse` is time.ParseDuration, in nanoseconds. */
  function TimeoutSecs(timeout: string, parse: string -> Option<int>): Result<nat, TimeoutFault> {
    if timeout == "" then Ok(0)
    else
      match parse(timeout)
      case None => Err(NotADuration)
      case Some(d) =>
        if d < 0 then Err(Negative)
        else if d % NANOS_PER_SECOND != 0 then Err(NotWholeSeconds)
        else Ok(d / NANOS_PER_SECOND)
  }

  // ------------------------------------------------- provider references

  /** The names listed, "" dropped, each kept where it first occurs. */
  function FirstOccurrences(names: seq<string>): (refs: seq<string>)
    ensures forall name :: name in refs <==> name in names && name != ""
  {
    if names == [] then []
    else
      var last := names[|names| - 1];
      var refs := FirstOccurrences(names[..|names| - 1]);
      assert names == names[..|names| - 1] + [last];
      if last == "" || last in refs then refs else refs + [last]
  }

  function ProviderNames(spec: Spec): seq<string> {
    [spec.inference.provider] + spec.sandbox.providers
  }

  function References(spec: Spec): seq<string> {
    FirstOccurrences(ProviderNames(spec))
  }

  /** The body of the `add` closure. */
  method AddReference(name: string, seen0: set<string>, refs0: seq<string>)
    returns (seen: set<string>, refs: seq<string>)
    ensures refs == if name == "" || name in seen0 then refs0 else refs0 + [name]
    ensures seen == if name == "" then seen0 else seen0 + {name}
  {
    seen, refs := seen0, refs0;
    if name == "" { return; }
    if name in seen { return; }
    seen := seen + {name};
    refs := refs + [name];
  }

  method ProviderReferences(spec: Spec) returns (refs: seq<string>)
    ensures refs == References(spec)
  {
    var names := ProviderNames(spec);
    var seen := {};
    seen, refs := AddReference(spec.inference.provider, {}, []);
    assert names[..1] == [spec.inference.provider] && names[..1][..0] == [];
    var i := 0;
    while i < |spec.sandbox.providers|
      invariant 0 <= i <= |spec.sandbox.providers|
      invariant refs == FirstOccurrences(names[..i + 1])
      invariant forall name :: name in seen <==> name in refs
    {
      assert names[..i + 2][..i + 1] == names[..i + 1] && names[..i + 2][i + 1] == spec.sandbox.providers[i];
      seen, refs := AddReference(spec.sandbox.providers[i], seen, refs);
      i := i + 1;
    }
    assert names[..i + 1] == names;
  }

  /** `a` is mentioned before `b` is first mentioned. */
  predicate MentionedBefore(names: seq<string>, a: string, b: string) {
    exists l :: 0 <= l < |names| && names[l] == b && b !in names[..l] && a in names[..l]
  }

  lemma MentionedInPrefix(names: seq<string>, n: nat, a: string, b: string)
    requires n <= |names| && MentionedBefore(names[..n], a, b)
    ensures MentionedBefore(names, a, b)
  {
    var l :| 0 <= l < n && names[..n][l] == b && b !in names[..n][..l] && a in names[..n][..l];
    assert names[..n][..l] == names[..l] && names[l] == b;
  }

  /** Distinct names, in the order of their first mention. */
  predicate InOrder(refs: seq<string>, names: seq<string>) {
    forall i, j :: 0 <= i < j < |refs| ==> refs[i] != refs[j] && MentionedBefore(names, refs[i], refs[j])
  }

  lemma {:induction false} ReferencesAreOrdered(names: seq<string>)
    ensures InOrder(FirstOccurrences(names), names)
    decreases names
  {
    if names != [] {
      var n := |names| - 1;
      ReferencesAreOrdered(names[..n]);
      OrderExtends(names, FirstOccurrences(names[..n]), FirstOccurrences(names));
    }
  }

  lemma OrderExtends(names: seq<string>, before: seq<string>, refs: seq<string>)
    requires names != [] && InOrder(before, names[..|names| - 1])
    requires forall name :: name in before ==> name in names[..|names| - 1]
    requires refs == before || (names[|names| - 1] !in names[..|names| - 1] && refs == before + [names[|names| - 1]])
    ensures InOrder(refs, names)
  {
    var n := |names| - 1;
    forall i, j | 0 <= i < j < |refs| ensures refs[i] != refs[j] && MentionedBefore(names, refs[i], refs[j]) {
      if j < |before| {
        assert refs[i] == before[i] && refs[j] == before[j];
        MentionedInPrefix(names, n, before[i], before[j]);
      } else {
        assert before[i] in before;
        assert names[n] == refs[j] && refs[j] !in names[..n] && refs[i] in names[..n];
      }
    }
  }

  lemma {:induction false} FirstStaysFirst(names: seq<string>)
    requires names != [] && names[0] != ""
    ensures FirstOccurrences(names) != [] && FirstOccurrences(names)[0] == names[0]
    decreases names
  {
    if |names| > 1 {
      FirstStaysFirst(names[..|names| - 1]);
    } else {
      assert names[..0] == [];
    }
  }

  /** What is referenced: the provider of the inference block, first of all, and those of
      the sandbox; unnamed ones are not. */
  lemma ReferencesMean(spec: Spec)
    ensures forall name :: name in References(spec) <==>
      name != "" && (name == spec.inference.provider || name in spec.sandbox.providers)
    ensures spec.inference.provider != "" ==>
      References(spec) != [] && References(spec)[0] == spec.inference.provider
  {
    if spec.inference.provider != "" {
      FirstStaysFirst(ProviderNames(spec));
    }
  }

  /** Which timeouts are accepted: none at all, and the durations that are a whole number of
      seconds, not negative. */
  lemma TimeoutMeans(timeout: string, parse: string -> Option<int>)
    ensures TimeoutSecs(timeout, parse).Ok? <==>
      timeout == "" || exists n: nat :: parse(timeout) == Some(n * NANOS_PER_SECOND)
    ensures TimeoutSecs(timeout, parse).Ok? && timeout != "" ==>
      parse(timeout) == Some(TimeoutSecs(timeout, parse).value * NANOS_PER_SECOND)
    ensures timeout == "" ==> TimeoutSecs(timeout, parse) == Ok(0)
  {
    if timeout != "" && TimeoutSecs(timeout, parse).Ok? {
      assert parse(timeout) == Some(TimeoutSecs(timeout, parse).value * NANOS_PER_SECOND);
    }
    forall n: nat | parse(timeout) == Some(n * NANOS_PER_SECOND)
      ensures timeout != "" ==> TimeoutSecs(timeout, parse).Ok?
    {
      assert n * NANOS_PER_SECOND % NANOS_PER_SECOND == 0;
    }
  }
}
