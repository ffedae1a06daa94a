// How entry names behave between the writer and the extractor.
module ArchiveNames {
  import opened Strings
  import opened Paths
  import opened Archive

  /** A list of ordinary names is its own clean relative path, and is never refused as unsafe. */
  lemma NameIsClean(parts: seq<string>)
    requires AllProper(parts) && parts != []
    ensures var name := Join(parts, '/');
      && Split(name, '/') == parts
      && Components(name) == parts
      && Clean(name) == name
      && !UnsafeName(name)
  {
    var name := Join(parts, '/');
    assert parts[0] in parts;
    SplitInvertsJoin(parts, '/');
    ProperIsNormal(parts, false);
    RenderInverse(false, parts);
    if |parts| > 1 {
      PrefixDotDot(parts[0], Join(parts[1..], '/'));
    } else {
      assert "../"[2] == '/';
      PrefixMembers("../", parts[0]);
    }
    assert Split(".", '/') == ["."] by { SplitSeparatorFree(".", '/'); }
  }

  /** The trailing slash of a directory header disappears when the name is cleaned. */
  lemma DirectoryNameIsClean(parts: seq<string>)
    requires AllProper(parts) && parts != []
    ensures Clean(Join(parts, '/') + "/") == Join(parts, '/')
    ensures !HasSuffix(Join(parts, '/'), "/")
  {
    var name := Join(parts, '/');
    NameIsClean(parts);
    SplitConcat(name, "", '/');
    assert name + "/" == name + ['/'] + "";
    assert name != "" && name[0] == (name + "/")[0];
    ReduceConcat([], parts, [""], false);
    assert Reduce(parts, [""], false) == parts;
    NoTrailingSlash(parts);
  }

  lemma {:induction false} NoTrailingSlash(parts: seq<string>)
    requires AllProper(parts) && parts != []
    ensures Join(parts, '/') != "" && Join(parts, '/')[|Join(parts, '/')| - 1] != '/'
  {
    assert parts[0] in parts;
    if |parts| == 1 {
      assert parts[0][|parts[0]| - 1] in parts[0];
    } else {
      NoTrailingSlash(parts[1..]);
    }
  }

  /** The archive path of a child is its parent's with one more component. */
  lemma ChildName(parts: seq<string>, name: string)
    requires AllProper(parts) && parts != [] && Proper(name)
    ensures JoinPath(Join(parts, '/'), name) == Join(parts + [name], '/')
    ensures AllProper(parts + [name])
  {
    JoinConcat(parts, [name], '/');
    NameIsClean(parts + [name]);
    NoTrailingSlash(parts);
    assert Join([name], '/') == name;
    assert Join(parts, '/') + "/" + name == Join(parts + [name], '/');
  }

  /** A name at or below the requested output passes every check of the extractor. */
  lemma NameIsAccepted(entries: int, parts: seq<string>, rootParts: seq<string>, staging: string)
    requires AllProper(parts) && rootParts != [] && rootParts <= parts
    requires IsAbs(staging)
    ensures var name := Join(parts, '/');
      && Refusal(entries, name, staging, Join(rootParts, '/'))
         == (if entries > MAX_DOWNLOAD_ENTRIES then Some(TooManyEntries) else None)
      && Components(JoinPath(staging, name)) == Components(staging) + parts
  {
    var name := Join(parts, '/');
    NameIsClean(parts);
    if rootParts != parts {
      assert parts == rootParts + parts[|rootParts|..];
      JoinConcat(rootParts, parts[|rootParts|..], '/');
      assert HasPrefix(name, Join(rootParts, '/') + "/");
    }
    assert ".." !in parts;
    assert name != "" by { NoTrailingSlash(parts); }
    JoinBelow(staging, name);
    PathWithinIsPrefix(staging, JoinPath(staging, name));
  }

  lemma DotDotFirst(parts: seq<string>)
    requires |parts| > 1 && parts[0] == ".."
    ensures HasPrefix(Join(parts, '/'), "../")
  {
  }

  /** A cleaned name that is not unsafe is a non-empty list of ordinary names. */
  lemma SafeNameShape(raw: string)
    requires !UnsafeName(Clean(raw))
    ensures AllProper(Components(raw)) && Components(raw) != []
    ensures Clean(raw) == Join(Components(raw), '/')
    ensures Split(Clean(raw), '/') == Components(raw)
  {
    var parts := Components(raw);
    ComponentsNormal(raw);
    CleanIdempotent(raw);
    assert parts != [] && !IsAbs(raw);
    if parts[0] == ".." && |parts| > 1 {
      DotDotFirst(parts);
    }
    assert parts[0] != "..";
    assert forall k :: 0 <= k < |parts| ==> parts[k] != "..";
    SplitInvertsJoin(parts, '/');
  }

  /** What a name that passed the unsafe-name and requested-output checks must look like. */
  lemma AcceptedNameShape(raw: string, root: string, staging: string)
    requires IsAbs(staging)
    requires !UnsafeName(Clean(raw)) && InRequestedOutput(Clean(raw), root)
    ensures var name := Clean(raw);
      && AllProper(Components(raw))
      && Split(root, '/') <= Components(raw)
      && PathWithin(staging, JoinPath(staging, name))
      && Components(JoinPath(staging, name)) == Components(staging) + Components(raw)
  {
    var name := Clean(raw);
    var parts := Components(raw);
    SafeNameShape(raw);
    CleanIdempotent(raw);
    RequestedIsPrefix(name, root);
    assert name != "" by { NoTrailingSlash(parts); }
    JoinBelow(staging, name);
    PathWithinIsPrefix(staging, JoinPath(staging, name));
  }

  lemma RequestedIsPrefix(name: string, root: string)
    requires InRequestedOutput(name, root)
    ensures Split(root, '/') <= Split(name, '/')
  {
    if name != root {
      var tail := name[|root| + 1..];
      assert name == root + ['/'] + tail;
      SplitConcat(root, tail, '/');
    }
  }
}
