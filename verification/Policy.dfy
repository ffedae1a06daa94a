// normalizePolicyFields and policyStructField of sdkclient/sandbox.go: the field
// names of a policy document are rewritten in place, directed by the schema the
// document is decoded into.
module Policy {
  import opened Strings

  // -------------------------------------------------------------- schema

  /** reflect.Type, as far as it is looked at; `policy` marks types.SandboxPolicy. */
  datatype Type =
    | Struct(policy: bool, fields: seq<Field>)
    | MapOf(elem: Type) | SliceOf(elem: Type) | PointerTo(elem: Type) | Leaf

  datatype Field = Field(name: string, ty: Type)

  function Strip(ty: Type): (r: Type)
    ensures !r.PointerTo?
  {
    if ty.PointerTo? then Strip(ty.elem) else ty
  }

  function LowerChar(c: char): char {
    if 'A' <= c <= 'Z' then (c as int + 32) as char else c
  }

  function Lower(s: string): (r: string)
    ensures |r| == |s| && forall i :: 0 <= i < |s| ==> r[i] == LowerChar(s[i])
  {
    seq(|s|, i requires 0 <= i < |s| => LowerChar(s[i]))
  }

  /** The case folding of strings.EqualFold, for names that are compared with ASCII
      ones: besides the letters, the Kelvin sign folds to k and the long s to s. */
  function FoldChar(c: char): char {
    if c == '\U{212A}' then 'k' else if c == '\U{17F}' then 's' else LowerChar(c)
  }

  predicate EqualFold(a: string, b: string) {
    |a| == |b| && forall i :: 0 <= i < |a| ==> FoldChar(a[i]) == FoldChar(b[i])
  }

  /** strings.ReplaceAll(s, "_", ""). */
  function WithoutUnderscores(s: string): (r: string)
    ensures '_' !in r
  {
    if s == "" then "" else (if s[0] == '_' then "" else [s[0]]) + WithoutUnderscores(s[1..])
  }

  function Spelled(ty: Type, yamlName: string): string
    requires ty.Struct?
  {
    if ty.policy && yamlName == "filesystem_policy" then "filesystem" else WithoutUnderscores(yamlName)
  }

  /** The first of the fields from `i` on whose name is `normalized` up to case. */
  function FirstField(fields: seq<Field>, normalized: string, i: nat): (r: Option<Field>)
    requires i <= |fields|
    ensures r.Some? ==> r.value in fields && EqualFold(r.value.name, normalized)
    ensures r.None? ==> forall k :: i <= k < |fields| ==> !EqualFold(fields[k].name, normalized)
    decreases |fields| - i
  {
    if i == |fields| then None
    else if EqualFold(fields[i].name, normalized) then Some(fields[i])
    else FirstField(fields, normalized, i + 1)
  }

  /** policyStructField. */
  function FieldFor(ty: Type, yamlName: string): Option<Field>
    requires ty.Struct?
  {
    FirstField(ty.fields, Spelled(ty, yamlName), 0)
  }

  method PolicyStructField(ty: Type, yamlName: string) returns (r: Option<Field>)
    requires ty.Struct?
    ensures r == FieldFor(ty, yamlName)
  {
    var normalized := WithoutUnderscores(yamlName);
    if ty.policy && yamlName == "filesystem_policy" {
      normalized := "filesystem";
    }
    var i := 0;
    while i < |ty.fields|
      invariant 0 <= i <= |ty.fields|
      invariant FirstField(ty.fields, normalized, i) == FieldFor(ty, yamlName)
    {
      if EqualFold(ty.fields[i].name, normalized) {
        return Some(ty.fields[i]);
      }
      i := i + 1;
    }
    r := None;
  }

  // ---------------------------------------------------------- the meaning

  datatype Kind = Document | Mapping | Sequence | Scalar | Alias

  /** A yaml.Node as a value. A mapping's content alternates keys and values. */
  datatype Tree = Tree(kind: Kind, value: string, content: seq<Tree>)

  predicate Composite(ty: Type) {
    ty.Struct? || ty.MapOf? || ty.SliceOf?
  }

  /** The key that governs the k-th child of a mapping: itself, or the one before it. */
  function KeyAt(t: Tree, k: nat): string
    requires k < |t.content|
  {
    if k % 2 == 0 then t.content[k].value else t.content[k - 1].value
  }

  /** The type the k-th child is normalized under, where it is. */
  function ChildType(t: Tree, k: nat, ty: Type): Type
    requires k < |t.content| && Composite(ty)
  {
    match ty
    case Struct(_, _) =>
      if k % 2 == 0 then Leaf
      else
        var f := FieldFor(ty, KeyAt(t, k));
        if f.Some? then f.value.ty else Leaf
    case MapOf(elem) => elem
    case SliceOf(elem) => elem
  }

  /** What becomes of the k-th child, given its own normalization; None when the
      policy is rejected there. Keys of a struct are renamed, keys of a map kept. */
  function Placed(t: Tree, k: nat, ty: Type, normalized: Option<Tree>): Option<Tree>
    requires k < |t.content| && Composite(ty)
  {
    match ty
    case Struct(_, _) =>
      var f := FieldFor(ty, KeyAt(t, k));
      if f.None? then None
      else if k % 2 == 0 then Some(t.content[k].(value := Lower(f.value.name)))
      else normalized
    case MapOf(_) => if k % 2 == 0 then Some(t.content[k]) else normalized
    case SliceOf(_) => normalized
  }

  predicate KindFits(kind: Kind, ty: Type) {
    match ty
    case Struct(_, _) => kind == Mapping
    case MapOf(_) => kind == Mapping
    case SliceOf(_) => kind == Sequence
    case _ => true
  }

  function AllOf(results: seq<Option<Tree>>): (r: Option<seq<Tree>>)
    ensures r.Some? <==> forall k :: 0 <= k < |results| ==> results[k].Some?
    ensures r.Some? ==> |r.value| == |results| && forall k :: 0 <= k < |results| ==> results[k] == Some(r.value[k])
  {
    if forall k :: 0 <= k < |results| ==> results[k].Some?
    then Some(seq(|results|, k requires 0 <= k < |results| => results[k].value))
    else None
  }

  function Normalized(t: Tree, target: Type): Option<Tree>
    decreases t
  {
    var ty := Strip(target);
    if t.kind == Document then
      if |t.content| != 1 then None
      else
        var r := Normalized(t.content[0], ty);
        if r.Some? then Some(t.(content := [r.value])) else None
    else if !Composite(ty) then Some(t)
    else if !KindFits(t.kind, ty) then None
    else
      var content := AllOf(seq(|t.content|, k requires 0 <= k < |t.content| =>
        Placed(t, k, ty, Normalized(t.content[k], ChildType(t, k, ty)))));
      if content.Some? then Some(t.(content := content.value)) else None
  }

  function Child(t: Tree, k: nat, ty: Type): Option<Tree>
    requires k < |t.content| && Composite(ty)
  {
    Placed(t, k, ty, Normalized(t.content[k], ChildType(t, k, ty)))
  }

  function ChildResults(t: Tree, ty: Type): (rs: seq<Option<Tree>>)
    requires Composite(ty)
    ensures |rs| == |t.content| && forall k :: 0 <= k < |rs| ==> rs[k] == Child(t, k, ty)
  {
    seq(|t.content|, k requires 0 <= k < |t.content| => Child(t, k, ty))
  }

  function Children(t: Tree, ty: Type): (r: Option<seq<Tree>>)
    requires Composite(ty)
    ensures r.Some? <==> forall k :: 0 <= k < |t.content| ==> Child(t, k, ty).Some?
    ensures r.Some? ==>
      |r.value| == |t.content| && forall k :: 0 <= k < |t.content| ==> Child(t, k, ty) == Some(r.value[k])
  {
    AllOf(ChildResults(t, ty))
  }

  /** A key of a struct and its value. */
  lemma ChildrenOfStruct(t: Tree, k: nat, ty: Type)
    requires k % 2 == 0 && k + 1 < |t.content| && ty.Struct?
    ensures var f := FieldFor(ty, t.content[k].value);
      if f.None? then Child(t, k, ty).None? && Child(t, k + 1, ty).None?
      else
        && Child(t, k, ty) == Some(t.content[k].(value := Lower(f.value.name)))
        && Child(t, k + 1, ty) == Normalized(t.content[k + 1], f.value.ty)
  {
    hide FieldFor, Normalized, Lower;
  }

  lemma ChildOfOther(t: Tree, k: nat, ty: Type)
    requires k < |t.content| && (ty.MapOf? || ty.SliceOf?)
    ensures Child(t, k, ty) == if ty.MapOf? && k % 2 == 0 then Some(t.content[k]) else Normalized(t.content[k], ty.elem)
  {
    hide Normalized;
  }

  lemma NormalizedByChildren(t: Tree, target: Type)
    requires t.kind != Document && Composite(Strip(target)) && KindFits(t.kind, Strip(target))
    ensures Normalized(t, target)
         == if Children(t, Strip(target)).Some? then Some(t.(content := Children(t, Strip(target)).value)) else None
  {
    hide Placed, AllOf, ChildType, KindFits;
    var ty := Strip(target);
    assert ChildResults(t, ty) == seq(|t.content|, k requires 0 <= k < |t.content| =>
      Placed(t, k, ty, Normalized(t.content[k], ChildType(t, k, ty))));
  }

  // ------------------------------------------------------------- in place

  /** A yaml.Node. Only `value` is ever written; the tree itself is fixed. */
  class YamlNode {
    const kind: Kind
    var value: string
    const content: seq<YamlNode>
    ghost const repr: set<YamlNode>
    ghost const height: nat

    constructor (kind: Kind, value: string, content: seq<YamlNode>, ghost repr: set<YamlNode>, ghost height: nat)
      ensures this.kind == kind && this.value == value && this.content == content
      ensures this.repr == repr + {this} && this.height == height
    {
      this.kind := kind;
      this.value := value;
      this.content := content;
      this.repr := repr + {this};
      this.height := height;
    }
  }

  /** Nodes form a tree, and mappings hold keys with their values. */
  ghost predicate Wf(n: YamlNode)
    decreases n.height
  {
    && n in n.repr
    && (n.kind == Mapping ==> |n.content| % 2 == 0)
    && (forall i :: 0 <= i < |n.content| ==>
          && n.content[i].height < n.height
          && n.content[i].repr <= n.repr && n !in n.content[i].repr
          && Wf(n.content[i]))
    && (forall i, j :: 0 <= i < j < |n.content| ==> n.content[i].repr !! n.content[j].repr)
  }

  ghost function View(n: YamlNode): (t: Tree)
    requires Wf(n)
    reads n.repr
    ensures t.kind == n.kind && t.value == n.value && |t.content| == |n.content|
    ensures forall i :: 0 <= i < |n.content| ==> t.content[i] == View(n.content[i])
    decreases n.height
  {
    Tree(n.kind, n.value, seq(|n.content|, i requires 0 <= i < |n.content| reads n.repr => View(n.content[i])))
  }

  /** The first `i` children have become what they should, the others are untouched. */
  ghost predicate PartDone(n: YamlNode, before: Tree, ty: Type, i: nat)
    requires Wf(n) && Composite(ty) && |before.content| == |n.content|
    reads n.repr
  {
    && n.value == before.value && n.kind == before.kind
    && (forall k :: 0 <= k < |n.content| && k < i ==> Child(before, k, ty) == Some(View(n.content[k])))
    && (forall k :: i <= k < |n.content| ==> View(n.content[k]) == before.content[k])
  }

  lemma AllDone(n: YamlNode, before: Tree, ty: Type)
    requires Wf(n) && Composite(ty) && |before.content| == |n.content|
    requires PartDone(n, before, ty, |n.content|)
    ensures Children(before, ty).Some? && View(n) == before.(content := Children(before, ty).value)
  {
    hide Child, Children;
    assert View(n).content == Children(before, ty).value;
  }

  lemma Rejected(before: Tree, ty: Type, k: nat)
    requires Composite(ty) && k < |before.content| && Child(before, k, ty).None?
    ensures Children(before, ty).None?
  {
    hide Child, Children;
  }

  /** normalizePolicyFields. */
  method NormalizePolicyFields(n: YamlNode, target: Type) returns (ok: bool)
    requires Wf(n)
    modifies n.repr
    ensures ok <==> Normalized(old(View(n)), target).Some?
    ensures ok ==> View(n) == Normalized(old(View(n)), target).value
    decreases n.height, 1
  {
    hide Child, Children;
    ghost var before := View(n);
    var ty := Strip(target);
    if n.kind == Document {
      if |n.content| != 1 {
        return false;
      }
      ok := NormalizePolicyFields(n.content[0], ty);
      assert ok ==> View(n).content == [Normalized(before.content[0], ty).value];
      return;
    }
    if Composite(ty) && KindFits(n.kind, ty) {
      NormalizedByChildren(before, target);
    }
    match ty {
      case Struct(_, _) =>
        if n.kind != Mapping {
          return false;
        }
        ok := NormalizeStruct(n, ty);
      case MapOf(_) =>
        if n.kind != Mapping {
          return false;
        }
        ok := NormalizeMap(n, ty);
      case SliceOf(_) =>
        if n.kind != Sequence {
          return false;
        }
        ok := NormalizeSlice(n, ty);
      case Leaf =>
        ok := true;
    }
  }

  method NormalizeSlice(n: YamlNode, ty: Type) returns (ok: bool)
    requires Wf(n) && ty.SliceOf?
    modifies n.repr
    ensures ok <==> Children(old(View(n)), ty).Some?
    ensures ok ==> View(n) == old(View(n)).(content := Children(old(View(n)), ty).value)
    decreases n.height, 0
  {
    hide Children, Child, Normalized;
    ghost var before := View(n);
    for i := 0 to |n.content|
      invariant PartDone(n, before, ty, i)
    {
      ChildOfOther(before, i, ty);
      ok := NormalizeValue(n, before, ty, i, ty.elem);
      if !ok {
        Rejected(before, ty, i);
        return;
      }
    }
    AllDone(n, before, ty);
    ok := true;
  }

  method NormalizeMap(n: YamlNode, ty: Type) returns (ok: bool)
    requires Wf(n) && ty.MapOf? && n.kind == Mapping
    modifies n.repr
    ensures ok <==> Children(old(View(n)), ty).Some?
    ensures ok ==> View(n) == old(View(n)).(content := Children(old(View(n)), ty).value)
    decreases n.height, 0
  {
    hide Children, Child, Normalized;
    ghost var before := View(n);
    var i := 1;
    while i < |n.content|
      invariant 1 <= i <= |n.content| + 1 && i % 2 == 1
      invariant PartDone(n, before, ty, i - 1)
    {
      ChildOfOther(before, i - 1, ty);
      ChildOfOther(before, i, ty);
      assert PartDone(n, before, ty, i);
      ok := NormalizeValue(n, before, ty, i, ty.elem);
      if !ok {
        Rejected(before, ty, i);
        return;
      }
      i := i + 2;
    }
    AllDone(n, before, ty);
    ok := true;
  }

  method NormalizeStruct(n: YamlNode, ty: Type) returns (ok: bool)
    requires Wf(n) && ty.Struct? && n.kind == Mapping
    modifies n.repr
    ensures ok <==> Children(old(View(n)), ty).Some?
    ensures ok ==> View(n) == old(View(n)).(content := Children(old(View(n)), ty).value)
    decreases n.height, 0
  {
    hide FieldFor, Children, Child, Normalized, Lower;
    ghost var before := View(n);
    var i := 0;
    while i < |n.content|
      invariant 0 <= i <= |n.content| && i % 2 == 0
      invariant PartDone(n, before, ty, i)
    {
      var key := n.content[i];
      assert key.value == before.content[i].value;
      ChildrenOfStruct(before, i, ty);
      var field := PolicyStructField(ty, key.value);
      if field.None? {
        Rejected(before, ty, i);
        return false;
      }
      RenameKey(n, before, ty, i, Lower(field.value.name));
      ok := NormalizeValue(n, before, ty, i + 1, field.value.ty);
      if !ok {
        Rejected(before, ty, i + 1);
        return;
      }
      i := i + 2;
    }
    AllDone(n, before, ty);
    ok := true;
  }

  method RenameKey(n: YamlNode, ghost before: Tree, ghost ty: Type, i: nat, name: string)
    requires Wf(n) && Composite(ty) && |before.content| == |n.content| && i < |n.content|
    requires PartDone(n, before, ty, i)
    requires Child(before, i, ty) == Some(before.content[i].(value := name))
    modifies n.content[i]
    ensures PartDone(n, before, ty, i + 1)
  {
    hide Child;
    var key := n.content[i];
    key.value := name;
    forall j | 0 <= j < |key.content| ensures View(key.content[j]) == old(View(key.content[j])) {
      assert key !in key.content[j].repr;
    }
    assert View(key) == before.content[i].(value := name);
    forall k | 0 <= k < |n.content| && k != i ensures View(n.content[k]) == old(View(n.content[k])) {
      assert n.content[k].repr !! key.repr;
    }
  }

  method NormalizeValue(n: YamlNode, ghost before: Tree, ghost ty: Type, i: nat, target: Type) returns (ok: bool)
    requires Wf(n) && Composite(ty) && |before.content| == |n.content| && i < |n.content|
    requires PartDone(n, before, ty, i)
    requires Child(before, i, ty) == Normalized(before.content[i], target)
    modifies n.content[i].repr
    ensures ok <==> Child(before, i, ty).Some?
    ensures ok ==> PartDone(n, before, ty, i + 1)
    decreases n.content[i].height, 2
  {
    hide Child, Normalized;
    ok := NormalizePolicyFields(n.content[i], target);
    forall k | 0 <= k < |n.content| && k != i ensures View(n.content[k]) == old(View(n.content[k])) {
      assert n.content[k].repr !! n.content[i].repr;
    }
  }
}
