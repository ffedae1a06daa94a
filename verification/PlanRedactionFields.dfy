// The values hidden from a displayed plan, field by field of the document.
module PlanRedactionFields {
  import opened Strings
  import opened Schema
  import opened Planning
  import opened Redaction
  import opened Resolve
  import opened PlanRedaction
  import ResolveProofs

  /** The fields of a direct registration are the only ones no plan is built from. */
  predicate OfRegistration(f: Field) {
    f.Endpoint? || f.Issuer? || f.ClientId? || f.Audience?
  }

  lemma SectionsAreCollected(r: Harness, h: Harness, keys: seq<string>)
    requires forall key :: key in keys ==> key in r.spec.sandbox.env
    ensures forall p :: p in HeaderPairs(r, h) ==> p in Pairs(r, h, keys)
    ensures forall p :: p in PolicyPairs(r.spec.sandbox, h.spec.sandbox) ==> p in Pairs(r, h, keys)
    ensures forall p :: p in ZipPairs(r.spec.sandbox.providers, h.spec.sandbox.providers) ==> p in Pairs(r, h, keys)
    ensures forall p :: p in EnvPairs(keys, r.spec.sandbox.env, h.spec.sandbox.env) ==> p in Pairs(r, h, keys)
    ensures Pair(r.spec.agent.kind, h.spec.agent.kind) in Pairs(r, h, keys)
    ensures forall p :: p in ZipPairs(r.spec.agent.args, h.spec.agent.args) ==> p in Pairs(r, h, keys)
    ensures forall p :: p in SourcePairs(r.spec.source, h.spec.source) ==> p in Pairs(r, h, keys)
    ensures forall p :: p in PayloadPairs(r.spec.payloads, h.spec.payloads, |r.spec.payloads|) ==>
      p in Pairs(r, h, keys)
    ensures forall p :: p in OutputPairs(r.spec.outputs, h.spec.outputs, |r.spec.outputs|) ==> p in Pairs(r, h, keys)
  {
    hide HeaderPairs, PolicyPairs, ZipPairs, EnvPairs, SourcePairs, PayloadPairs, OutputPairs;
  }

  lemma {:induction false} PayloadIsCollected(payloads: seq<Payload>, raw: seq<Payload>, n: nat, i: nat)
    requires i < n <= |payloads| && i < |raw|
    ensures forall p :: p in PayloadPair(payloads[i], raw[i]) ==> p in PayloadPairs(payloads, raw, n)
  {
    hide PayloadPair;
    if i < n - 1 {
      PayloadIsCollected(payloads, raw, n - 1, i);
    }
  }

  lemma {:induction false} OutputIsCollected(outputs: seq<Output>, raw: seq<Output>, n: nat, i: nat)
    requires i < n <= |outputs| && i < |raw|
    ensures forall p :: p in OutputPair(outputs[i], raw[i]) ==> p in OutputPairs(outputs, raw, n)
  {
    hide OutputPair;
    if i < n - 1 {
      OutputIsCollected(outputs, raw, n - 1, i);
    }
  }

  lemma ListIsCollected(values: seq<string>, raw: seq<string>, i: nat)
    requires i < |values| && i < |raw|
    ensures Pair(values[i], raw[i]) in ZipPairs(values, raw)
  {
    assert ZipPairs(values, raw)[i] == Pair(values[i], raw[i]);
  }

  lemma EnvIsCollected(keys: seq<string>, values: map<string, string>, raw: map<string, string>, key: string)
    requires (forall k :: k in keys ==> k in values) && key in keys && key in raw
    ensures Pair(values[key], raw[key]) in EnvPairs(keys, values, raw)
  {
    var i :| 0 <= i < |keys| && keys[i] == key;
    assert EnvPairs(keys, values, raw)[i] == Pair(values[key], raw[key]);
  }

  /** A field that is not an element of a list or map. */
  predicate Single(f: Field) {
    !(f.ProviderAt? || f.EnvOf? || f.ArgAt? || f.PayloadSource? || f.PayloadContent? || f.PayloadDestination?
      || f.OutputSource? || f.OutputDestination?)
  }

  lemma SingleIsCollected(r: Harness, h: Harness, keys: seq<string>, f: Field)
    requires Enumerates(keys, r.spec.sandbox.env) && !OfRegistration(f) && Single(f)
    requires ResolveProofs.FieldText(r, f).Some? && ResolveProofs.FieldText(h, f).Some?
    ensures Pair(ResolveProofs.FieldText(r, f).value, ResolveProofs.FieldText(h, f).value) in Pairs(r, h, keys)
  {
    hide Pairs, PayloadPairs, OutputPairs, ZipPairs, EnvPairs;
    SectionsAreCollected(r, h, keys);
  }

  lemma ElementIsCollected(r: Harness, h: Harness, keys: seq<string>, f: Field)
    requires Enumerates(keys, r.spec.sandbox.env) && !OfRegistration(f) && !Single(f)
    requires ResolveProofs.FieldText(r, f).Some? && ResolveProofs.FieldText(h, f).Some?
    ensures Pair(ResolveProofs.FieldText(r, f).value, ResolveProofs.FieldText(h, f).value) in Pairs(r, h, keys)
  {
    hide Pairs, PayloadPairs, OutputPairs, ZipPairs, EnvPairs, HeaderPairs, PolicyPairs, SourcePairs;
    SectionsAreCollected(r, h, keys);
    match f
    case ProviderAt(i) => ListIsCollected(r.spec.sandbox.providers, h.spec.sandbox.providers, i);
    case EnvOf(key) => EnvIsCollected(keys, r.spec.sandbox.env, h.spec.sandbox.env, key);
    case ArgAt(i) => ListIsCollected(r.spec.agent.args, h.spec.agent.args, i);
    case PayloadSource(i) => PayloadIsCollected(r.spec.payloads, h.spec.payloads, |r.spec.payloads|, i);
    case PayloadContent(i) => PayloadIsCollected(r.spec.payloads, h.spec.payloads, |r.spec.payloads|, i);
    case PayloadDestination(i) => PayloadIsCollected(r.spec.payloads, h.spec.payloads, |r.spec.payloads|, i);
    case OutputSource(i) => OutputIsCollected(r.spec.outputs, h.spec.outputs, |r.spec.outputs|, i);
    case OutputDestination(i) => OutputIsCollected(r.spec.outputs, h.spec.outputs, |r.spec.outputs|, i);
  }

  /** Every field of the document but those of a registration is looked at, with the text it
      was resolved from. */
  lemma EveryFieldIsCollected(r: Harness, h: Harness, keys: seq<string>, f: Field)
    requires Enumerates(keys, r.spec.sandbox.env) && !OfRegistration(f)
    requires ResolveProofs.FieldText(r, f).Some? && ResolveProofs.FieldText(h, f).Some?
    ensures Pair(ResolveProofs.FieldText(r, f).value, ResolveProofs.FieldText(h, f).value) in Pairs(r, h, keys)
  {
    hide Pairs, ResolveProofs.FieldText;
    if Single(f) {
      SingleIsCollected(r, h, keys, f);
    } else {
      ElementIsCollected(r, h, keys, f);
    }
  }

  /** So no field that was interpolated shows its value in a displayed plan, under the
      condition that makes redaction complete. */
  lemma NoInterpolatedFieldIsShown(p: Plan, r: Harness, h: Harness, keys: seq<string>, f: Field)
    requires Enumerates(keys, r.spec.sandbox.env) && !OfRegistration(f)
    requires forall q :: q in Pairs(r, h, keys) && Interpolated(q) ==>
      BracketFree(q.value) && !Contains("redacted", q.value)
    requires ResolveProofs.FieldText(r, f).Some? && ResolveProofs.FieldText(h, f).Some?
    requires '$' in ResolveProofs.FieldText(h, f).value && ResolveProofs.FieldText(r, f).value != ""
    ensures PlanShowsNone(RedactedPlan(p, SortValues(Keep(Pairs(r, h, keys)))), [ResolveProofs.FieldText(r, f).value])
  {
    hide Pairs, Keep, SortValues, RedactedPlan, Contains, BracketFree, ResolveProofs.FieldText;
    var value := ResolveProofs.FieldText(r, f).value;
    EveryFieldIsCollected(r, h, keys, f);
    HiddenValues(r, h, keys, keys);
    assert Interpolated(Pair(value, ResolveProofs.FieldText(h, f).value));
    NothingInterpolatedIsShown(p, r, h, keys);
  }

  // ----------------------------------------------------- longest first

  lemma LongestFirst(values: seq<string>)
    requires Sorted(values)
    ensures forall i, j :: 0 <= i < j < |values| ==> |values[i]| >= |values[j]|
  {}

  lemma LongerIsNotInside(text: string, value: string)
    requires |value| >= |text| && value != text
    ensures !Contains(text, value)
  {
    assert text[..|text|] == text;
  }

  lemma WholeIsReplaced(value: string)
    requires value != ""
    ensures Contains(value, value) && ReplaceAll(value, value) == TOKEN
  {
    assert OccursAt(value, value, 0);
    assert value[|value|..] == "";
  }

  /** Non-empty values that do not occur in the token. */
  predicate Harmless(values: seq<string>) {
    forall i :: 0 <= i < |values| ==> values[i] != "" && !Contains(TOKEN, values[i])
  }

  lemma {:induction false} TokenIsKept(values: seq<string>)
    requires Harmless(values)
    ensures Redacted(TOKEN, values) == TOKEN
    decreases values
  {
    if values != [] {
      TokenIsKept(values[1..]);
    }
  }

  lemma RedactedStep(value: string, values: seq<string>)
    requires values != []
    ensures Redacted(value, values) == Redacted(Pass(value, values[0]), values[1..])
    ensures !Contains(value, values[0]) ==> Pass(value, values[0]) == value
    ensures values[0] != "" && Contains(value, values[0]) ==> Pass(value, values[0]) == ReplaceAll(value, values[0])
  {
    hide Contains, ReplaceAll;
  }

  /** What the order is for: a text that is a value as a whole is shown as one token, and no
      shorter value takes a part out of it first. */
  lemma {:induction false} WholeValueIsOneToken(value: string, values: seq<string>)
    requires Sorted(values) && value in values && Harmless(values)
    ensures Redacted(value, values) == TOKEN
    decreases values
  {
    hide Contains, ReplaceAll, Redacted, Pass, Before, Less;
    RedactedStep(value, values);
    var first, rest := values[0], values[1..];
    if first == value {
      WholeIsReplaced(value);
      TokenIsKept(rest);
    } else {
      assert value in rest by {
        var k :| 0 <= k < |values| && values[k] == value;
        assert rest[k - 1] == value;
      }
      LongestFirst(values);
      LongerIsNotInside(value, first);
      TailOf(values);
      WholeValueIsOneToken(value, rest);
    }
  }
}
