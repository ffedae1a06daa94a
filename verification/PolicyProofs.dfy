// What a normalized policy document is: it exists exactly when the document conforms
// to the schema, differs from it only in the spelling of struct field names, and is
// left alone by a second pass.
module PolicyProofs {
  import opened Strings
  import opened Policy

  // --------------------------------------------------------- field names

  lemma {:induction false} NothingToStrip(s: string)
    requires '_' !in s
    ensures WithoutUnderscores(s) == s
  {
    if s != "" {
      assert s[0] in s && forall c :: c in s[1..] ==> c in s;
      NothingToStrip(s[1..]);
    }
  }

  lemma FoldsOfLower(c: char)
    ensures FoldChar(LowerChar(c)) == FoldChar(c)
    ensures FoldChar(c) == '_' <==> c == '_'
    ensures LowerChar(c) == '_' <==> c == '_'
  {}

  /** Names equal up to case select the same field. */
  lemma {:induction false} SameField(fields: seq<Field>, a: string, b: string, i: nat)
    requires i <= |fields| && EqualFold(a, b)
    ensures FirstField(fields, a, i) == FirstField(fields, b, i)
    decreases |fields| - i
  {
    if i < |fields| {
      hide FoldChar;
      SameField(fields, a, b, i + 1);
      assert EqualFold(fields[i].name, a) <==> EqualFold(fields[i].name, b);
    }
  }

  lemma LowerKeepsFold(name: string, normalized: string)
    requires EqualFold(name, normalized) && '_' !in normalized
    ensures '_' !in Lower(name) && EqualFold(normalized, Lower(name))
  {
    hide FoldChar, LowerChar;
    forall i | 0 <= i < |name|
      ensures Lower(name)[i] != '_' && FoldChar(normalized[i]) == FoldChar(Lower(name)[i])
    {
      FoldsOfLower(name[i]);
      FoldsOfLower(normalized[i]);
      assert normalized[i] in normalized;
    }
  }

  /** A rewritten key finds the field it was rewritten from, whatever the schema: a
      field whose own name holds an underscore is never found in the first place. */
  lemma RenamedKeyIsFound(ty: Type, key: string)
    requires ty.Struct? && FieldFor(ty, key).Some?
    ensures FieldFor(ty, Lower(FieldFor(ty, key).value.name)) == FieldFor(ty, key)
  {
    hide Lower, EqualFold;
    var normalized := Spelled(ty, key);
    var name := FieldFor(ty, key).value.name;
    assert '_' !in normalized;
    LowerKeepsFold(name, normalized);
    NothingToStrip(Lower(name));
    assert "filesystem_policy"[10] == '_';
    SameField(ty.fields, normalized, Lower(name), 0);
  }

  /** Keys that differ only in case and underscores name the same field. */
  lemma SpellingDoesNotMatter(ty: Type, a: string, b: string)
    requires ty.Struct? && a != "filesystem_policy" && b != "filesystem_policy"
    requires EqualFold(WithoutUnderscores(a), WithoutUnderscores(b))
    ensures FieldFor(ty, a) == FieldFor(ty, b)
  {
    SameField(ty.fields, WithoutUnderscores(a), WithoutUnderscores(b), 0);
  }

  // ---------------------------------------------------------- conformance

  /** Some field of the struct is meant by the key. */
  predicate NamesField(ty: Type, key: string)
    requires ty.Struct?
  {
    exists f :: f in ty.fields && EqualFold(f.name, Spelled(ty, key))
  }

  lemma FoundExactly(ty: Type, key: string)
    requires ty.Struct?
    ensures FieldFor(ty, key).Some? <==> NamesField(ty, key)
  {
    hide EqualFold, Spelled;
  }

  /** The one key of a policy that is not spelled like its field, and nowhere else. */
  lemma FilesystemPolicyIsFilesystem(ty: Type)
    requires ty.Struct?
    ensures FieldFor(ty, "filesystem_policy") == FieldFor(ty, if ty.policy then "filesystem" else "filesystempolicy")
  {
    hide FirstField, WithoutUnderscores;
    assert '_' !in "filesystem" && '_' !in "policy" && '_' !in "filesystempolicy";
    NothingToStrip("filesystem");
    NothingToStrip("policy");
    NothingToStrip("filesystempolicy");
    assert "filesystem_policy" == "filesystem" + ("_" + "policy");
    StripConcat("filesystem", "_" + "policy");
    StripUnderscore("policy");
    assert "filesystem" + "policy" == "filesystempolicy";
  }

  lemma StripUnderscore(s: string)
    ensures WithoutUnderscores("_" + s) == WithoutUnderscores(s)
  {
    assert ("_" + s)[1..] == s;
  }

  lemma {:induction false} StripConcat(a: string, b: string)
    ensures WithoutUnderscores(a + b) == WithoutUnderscores(a) + WithoutUnderscores(b)
    decreases a
  {
    if a == "" {
      assert a + b == b;
    } else {
      assert (a + b)[1..] == a[1..] + b;
      StripConcat(a[1..], b);
    }
  }

  /** Names are compared up to case: the letters a to z in both cases, and the two other
      characters that fold to a letter. */
  lemma FoldsAlike(a: char, b: char)
    ensures FoldChar(a) == FoldChar(b) <==>
      || a == b
      || ('a' <= a <= 'z' && b as int + 32 == a as int)
      || ('a' <= b <= 'z' && a as int + 32 == b as int)
      || (a in {'k', 'K', '\U{212A}'} && b in {'k', 'K', '\U{212A}'})
      || (a in {'s', 'S', '\U{17F}'} && b in {'s', 'S', '\U{17F}'})
  {
  }

  /** The document has the shape the schema asks for: mappings for structs and maps,
      sequences for slices, every struct key naming a field. */
  predicate Conforms(t: Tree, target: Type)
    decreases t
  {
    var ty := Strip(target);
    if t.kind == Document then |t.content| == 1 && Conforms(t.content[0], ty)
    else
      Composite(ty) ==>
        && t.kind == (if ty.SliceOf? then Sequence else Mapping)
        && forall k :: 0 <= k < |t.content| ==> ChildConforms(t, k, ty, Conforms(t.content[k], ChildType(t, k, ty)))
  }

  predicate ChildConforms(t: Tree, k: nat, ty: Type, conforms: bool)
    requires k < |t.content| && Composite(ty)
  {
    && (ty.Struct? ==> NamesField(ty, KeyAt(t, k)))
    && (ty.SliceOf? || k % 2 == 1 ==> conforms)
  }

  lemma ChildSucceeds(t: Tree, k: nat, ty: Type)
    requires k < |t.content| && Composite(ty)
    ensures Child(t, k, ty).Some? <==>
      && (ty.Struct? ==> NamesField(ty, KeyAt(t, k)))
      && (ty.SliceOf? || k % 2 == 1 ==> Normalized(t.content[k], ChildType(t, k, ty)).Some?)
  {
    hide Normalized, NamesField, FieldFor, Lower;
    if ty.Struct? {
      FoundExactly(ty, KeyAt(t, k));
    }
  }

  lemma ConformsByChildren(t: Tree, target: Type)
    requires t.kind != Document && Composite(Strip(target))
    ensures Conforms(t, target) <==>
      KindFits(t.kind, Strip(target)) && forall k :: 0 <= k < |t.content| ==> ChildFits(t, k, Strip(target))
  {
    hide ChildConforms, ChildType;
    var ty := Strip(target);
    assert forall k :: 0 <= k < |t.content| ==>
      ChildFits(t, k, ty) == ChildConforms(t, k, ty, Conforms(t.content[k], ChildType(t, k, ty)));
  }

  predicate ChildFits(t: Tree, k: nat, ty: Type)
    requires k < |t.content| && Composite(ty)
  {
    ChildConforms(t, k, ty, Conforms(t.content[k], ChildType(t, k, ty)))
  }

  /** Normalization succeeds exactly on the documents that conform. */
  lemma {:induction false} SucceedsExactly(t: Tree, target: Type)
    ensures Normalized(t, target).Some? <==> Conforms(t, target)
    decreases t
  {
    var ty := Strip(target);
    if t.kind == Document {
      if |t.content| == 1 {
        SucceedsExactly(t.content[0], ty);
      }
    } else if Composite(ty) {
      ConformsByChildren(t, target);
      if KindFits(t.kind, ty) {
        NormalizedByChildren(t, target);
        hide Normalized, Conforms, Child, Children, NamesField, ChildType;
        forall k | 0 <= k < |t.content| ensures Child(t, k, ty).Some? <==> ChildFits(t, k, ty) {
          SucceedsExactly(t.content[k], ChildType(t, k, ty));
          ChildSucceeds(t, k, ty);
        }
      }
    }
  }

  // -------------------------------------------------------- preservation

  /** The children of a normalized node. */
  lemma ContentOf(t: Tree, target: Type)
    requires t.kind != Document && Composite(Strip(target)) && Normalized(t, target).Some?
    ensures var ty, r := Strip(target), Normalized(t, target).value;
      && KindFits(t.kind, ty) && r.kind == t.kind && r.value == t.value && |r.content| == |t.content|
      && forall k :: 0 <= k < |t.content| ==> Child(t, k, ty) == Some(r.content[k])
  {
    hide Child;
    if KindFits(t.kind, Strip(target)) {
      NormalizedByChildren(t, target);
      hide Normalized;
    }
  }

  /** What the k-th child has become, by the kind of its parent. */
  lemma ChildBecame(t: Tree, k: nat, ty: Type, c: Tree)
    requires k < |t.content| && Composite(ty) && Child(t, k, ty) == Some(c)
    ensures ty.Struct? ==> FieldFor(ty, KeyAt(t, k)).Some?
    ensures ty.Struct? && k % 2 == 0 ==> c == t.content[k].(value := Lower(FieldFor(ty, t.content[k].value).value.name))
    ensures ty.MapOf? && k % 2 == 0 ==> c == t.content[k]
    ensures ty.SliceOf? || k % 2 == 1 ==> Normalized(t.content[k], ChildType(t, k, ty)) == Some(c)
  {
    hide FieldFor, Lower, Normalized;
  }

  /** The type a child is looked at under is not changed by the renaming. */
  lemma SameChildType(t: Tree, r: Tree, k: nat, ty: Type)
    requires k < |t.content| == |r.content| && Composite(ty)
    requires forall j :: 0 <= j < |t.content| ==> Child(t, j, ty) == Some(r.content[j])
    ensures ChildType(r, k, ty) == ChildType(t, k, ty)
    ensures ty.Struct? ==> FieldFor(ty, KeyAt(r, k)) == FieldFor(ty, KeyAt(t, k))
  {
    hide FieldFor, Lower, Normalized, Child;
    if ty.Struct? {
      var j := if k % 2 == 0 then k else k - 1;
      ChildBecame(t, j, ty, r.content[j]);
      RenamedKeyIsFound(ty, t.content[j].value);
    }
  }

  /** A second normalization changes nothing. */
  lemma {:induction false} Idempotent(t: Tree, target: Type)
    requires Normalized(t, target).Some?
    ensures Normalized(Normalized(t, target).value, target) == Normalized(t, target)
    decreases t
  {
    var ty, r := Strip(target), Normalized(t, target).value;
    if t.kind == Document {
      Idempotent(t.content[0], ty);
    } else if Composite(ty) {
      ContentOf(t, target);
      hide Child, ChildType, Normalized, FieldFor, Lower, KeyAt, Children, KindFits;
      forall k | 0 <= k < |r.content| ensures Child(r, k, ty) == Some(r.content[k]) {
        ChildBecame(t, k, ty, r.content[k]);
        SameChildType(t, r, k, ty);
        if ty.SliceOf? || k % 2 == 1 {
          Idempotent(t.content[k], ChildType(t, k, ty));
        }
        ChildAgain(r, k, ty);
      }
      NormalizedByChildren(r, target);
      assert Children(r, ty).value == r.content;
    }
  }

  lemma ChildAgain(r: Tree, k: nat, ty: Type)
    requires k < |r.content| && Composite(ty)
    requires ty.Struct? ==> FieldFor(ty, KeyAt(r, k)).Some?
    requires ty.Struct? && k % 2 == 0 ==> r.content[k].value == Lower(FieldFor(ty, r.content[k].value).value.name)
    requires ty.SliceOf? || k % 2 == 1 ==> Normalized(r.content[k], ChildType(r, k, ty)) == Some(r.content[k])
    ensures Child(r, k, ty) == Some(r.content[k])
  {
    hide FieldFor, Lower, Normalized;
  }

  /** The document with the keys of structs blanked out. */
  function Blank(t: Tree, target: Type): Tree
    decreases t
  {
    var ty := Strip(target);
    if t.kind == Document && |t.content| == 1 then t.(content := [Blank(t.content[0], ty)])
    else if t.kind == Document || !Composite(ty) then t
    else t.(content := seq(|t.content|, k requires 0 <= k < |t.content| =>
      BlankedKey(t, k, ty, Blank(t.content[k], ChildType(t, k, ty)))))
  }

  function BlankedKey(t: Tree, k: nat, ty: Type, blanked: Tree): Tree
    requires k < |t.content|
  {
    if ty.SliceOf? || k % 2 == 1 then blanked
    else if ty.Struct? then t.content[k].(value := "")
    else t.content[k]
  }

  lemma BlankByChildren(t: Tree, r: Tree, target: Type)
    requires t.kind == r.kind != Document && t.value == r.value && |t.content| == |r.content|
      && Composite(Strip(target))
    requires var ty := Strip(target); forall k :: 0 <= k < |t.content| ==>
      BlankedKey(t, k, ty, Blank(t.content[k], ChildType(t, k, ty))) ==
        BlankedKey(r, k, ty, Blank(r.content[k], ChildType(r, k, ty)))
    ensures Blank(t, target) == Blank(r, target)
  {
    hide ChildType, BlankedKey;
    assert Blank(t, target).content == Blank(r, target).content;
  }

  /** Nothing but struct keys is changed: the shape of the tree, every scalar and every
      user-chosen map key are kept. */
  lemma {:induction false} OnlyStructKeysChange(t: Tree, target: Type)
    requires Normalized(t, target).Some?
    ensures Blank(Normalized(t, target).value, target) == Blank(t, target)
    decreases t
  {
    var ty, r := Strip(target), Normalized(t, target).value;
    if t.kind == Document {
      OnlyStructKeysChange(t.content[0], ty);
    } else if Composite(ty) {
      ContentOf(t, target);
      hide Child, ChildType, Normalized, Blank, Lower, FieldFor, KeyAt, KindFits;
      forall k | 0 <= k < |t.content|
        ensures BlankedKey(r, k, ty, Blank(r.content[k], ChildType(r, k, ty))) ==
          BlankedKey(t, k, ty, Blank(t.content[k], ChildType(t, k, ty)))
      {
        ChildBecame(t, k, ty, r.content[k]);
        SameChildType(t, r, k, ty);
        if ty.SliceOf? || k % 2 == 1 {
          OnlyStructKeysChange(t.content[k], ChildType(t, k, ty));
        }
      }
      BlankByChildren(r, t, target);
    }
  }

  /** Every key at a struct position is a field name of that struct, in lower case. */
  predicate NamedBySchema(t: Tree, target: Type)
    decreases t
  {
    var ty := Strip(target);
    if t.kind == Document then |t.content| == 1 ==> NamedBySchema(t.content[0], ty)
    else Composite(ty) ==>
      forall k :: 0 <= k < |t.content| ==> ChildNamed(t, k, ty, NamedBySchema(t.content[k], ChildType(t, k, ty)))
  }

  predicate ChildNamed(t: Tree, k: nat, ty: Type, named: bool)
    requires k < |t.content| && Composite(ty)
  {
    && (ty.Struct? && k % 2 == 0 ==> exists f :: f in ty.fields && t.content[k].value == Lower(f.name))
    && (ty.SliceOf? || k % 2 == 1 ==> named)
  }

  lemma NamedByChildren(t: Tree, target: Type)
    requires t.kind != Document && Composite(Strip(target))
    requires forall k :: 0 <= k < |t.content| ==>
      ChildNamed(t, k, Strip(target), NamedBySchema(t.content[k], ChildType(t, k, Strip(target))))
    ensures NamedBySchema(t, target)
  {
    hide ChildNamed, ChildType;
  }

  lemma {:induction false} NormalizedIsNamedBySchema(t: Tree, target: Type)
    requires Normalized(t, target).Some?
    ensures NamedBySchema(Normalized(t, target).value, target)
    decreases t
  {
    var ty, r := Strip(target), Normalized(t, target).value;
    if t.kind == Document {
      NormalizedIsNamedBySchema(t.content[0], ty);
    } else if Composite(ty) {
      ContentOf(t, target);
      hide Child, ChildType, Normalized, Lower, NamedBySchema, FieldFor, KeyAt, KindFits;
      forall k | 0 <= k < |r.content| ensures ChildNamed(r, k, ty, NamedBySchema(r.content[k], ChildType(r, k, ty))) {
        ChildBecame(t, k, ty, r.content[k]);
        SameChildType(t, r, k, ty);
        if ty.SliceOf? || k % 2 == 1 {
          NormalizedIsNamedBySchema(t.content[k], ChildType(t, k, ty));
        }
        if ty.Struct? && k % 2 == 0 {
          FoundIsAField(ty, t.content[k].value);
        }
      }
      NamedByChildren(r, target);
    }
  }

  lemma FoundIsAField(ty: Type, key: string)
    requires ty.Struct? && FieldFor(ty, key).Some?
    ensures FieldFor(ty, key).value in ty.fields
  {}
}
