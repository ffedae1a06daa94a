// The path rules for declared outputs: the checks made when a workflow is resolved
// and the check the download makes again, and what they guarantee about each other.
module OutputPaths {
  import opened Strings
  import opened Paths

  datatype PathFault = Empty | NullByte | NotAbsolute | NotRelative | DotDot | OutsideSandbox | NamesNothing

  predicate BelowSandbox(clean: string) {
    clean != "/sandbox" && HasPrefix(clean, "/sandbox/")
  }

  /** validateOutputSource. */
  function OutputSourceFault(source: string): Option<PathFault> {
    if source == "" then Some(Empty)
    else if '\0' in source then Some(NullByte)
    else if !HasPrefix(source, "/") then Some(NotAbsolute)
    else if HasTraversal(source) then Some(DotDot)
    else if !BelowSandbox(Clean(source)) then Some(OutsideSandbox)
    else None
  }

  /** validateOutputDestination. */
  function OutputDestinationFault(destination: string): Option<PathFault> {
    if destination == "" then Some(Empty)
    else if '\0' in destination then Some(NullByte)
    else if HasPrefix(destination, "/") || HasTraversal(destination) then Some(NotRelative)
    else if Clean(destination) == "." || Clean(destination) == "" then Some(NamesNothing)
    else None
  }

  /** sandboxRelativePath. */
  function SandboxRelativePath(source: string): Result<string, PathFault> {
    if source == "" || !HasPrefix(source, "/") then Err(NotAbsolute)
    else if '\0' in source then Err(NullByte)
    else if HasTraversal(source) then Err(DotDot)
    else if !BelowSandbox(Clean(source)) then Err(OutsideSandbox)
    else Ok(Clean(source)[|"/sandbox/"|..])
  }

  // ------------------------------------------------- characters of a cleaned path

  lemma {:induction false} ReduceMembers(stack: seq<string>, parts: seq<string>, rooted: bool)
    ensures forall part :: part in Reduce(stack, parts, rooted) ==> part in stack || part in parts || part == ".."
    decreases parts
  {
    if parts != [] {
      ReduceMembers(Push(stack, parts[0], rooted), parts[1..], rooted);
    }
  }

  lemma {:induction false} JoinMembers(parts: seq<string>, sep: char, c: char)
    requires c in Join(parts, sep)
    ensures c == sep || exists part :: part in parts && c in part
  {
    if |parts| == 1 {
      assert parts[0] in parts;
    } else if |parts| > 1 {
      assert parts[0] in parts;
      if c !in parts[0] && c != sep {
        JoinMembers(parts[1..], sep, c);
        var part :| part in parts[1..] && c in part;
        assert part in parts;
      }
    }
  }

  lemma {:induction false} SplitMembers(s: string, sep: char, c: char)
    requires exists part :: part in Split(s, sep) && c in part
    ensures c in s
  {
    var part :| part in Split(s, sep) && c in part;
    if s != "" {
      var rest := Split(s[1..], sep);
      if part in rest {
        SplitMembers(s[1..], sep, c);
      } else if s[0] != sep && c != s[0] {
        assert part == [s[0]] + rest[0] && rest[0] in rest && c in rest[0];
        SplitMembers(s[1..], sep, c);
      }
    }
  }

  /** Cleaning brings in no character but '/' and '.'. */
  lemma CleanMembers(p: string, c: char)
    requires c in Clean(p)
    ensures c in p || c == '/' || c == '.'
  {
    var parts := Components(p);
    if c != '/' && c != '.' {
      assert c in Join(parts, '/');
      JoinMembers(parts, '/', c);
      ReduceMembers([], Split(p, '/'), IsAbs(p));
      SplitMembers(p, '/', c);
    }
  }

  // ----------------------------------------------------------- agreement

  lemma RemainderSplits(source: string)
    requires !HasTraversal(source) && IsAbs(source) && BelowSandbox(Clean(source))
    ensures Components(source) == ["sandbox"] + Split(Clean(source)[|"/sandbox/"|..], '/')
  {
    var parts := Components(source);
    ComponentsNormal(source);
    assert Clean(source) == "/" + Join(parts, '/');
    assert parts != [] by {
      assert |Join([], '/')| == 0;
    }
    hide Components, HasTraversal, Clean, Join, Split;
    SplitInvertsJoin(parts, '/');
    JoinedBelowSandbox(Clean(source), Join(parts, '/'));
  }

  lemma JoinedBelowSandbox(clean: string, joined: string)
    requires clean == "/" + joined && BelowSandbox(clean)
    ensures Split(joined, '/') == ["sandbox"] + Split(clean[|"/sandbox/"|..], '/')
  {
    hide Split;
    var r := clean[|"/sandbox/"|..];
    assert clean == "/sandbox/" + r;
    assert joined == clean[1..] == "sandbox" + ['/'] + r;
    SplitConcat("sandbox", r, '/');
    SplitSeparatorFree("sandbox", '/');
  }

  lemma RemainderIsProper(source: string)
    requires !HasTraversal(source) && IsAbs(source) && BelowSandbox(Clean(source))
    ensures var r := Clean(source)[|"/sandbox/"|..];
      r != "" && Components(source) == ["sandbox"] + Components(r) && Components(r) != [] && AllProper(Components(r))
  {
    var r := Clean(source)[|"/sandbox/"|..];
    var rest := Split(r, '/');
    RemainderSplits(source);
    NoTraversal(source);
    assert forall part :: part in rest ==> part in Components(source);
    assert rest[0] in rest;
    ProperIsNormal(rest, IsAbs(r));
    ReduceKeepsNormal([], rest, IsAbs(r));
    assert [] + rest == rest;
  }

  /** The download accepts exactly the sources that resolution accepts; cleaning the
      source in between changes nothing; and the answer names a path strictly below
      /sandbox by ordinary components. */
  lemma SourceChecksAgree(source: string)
    ensures OutputSourceFault(source).None? <==> SandboxRelativePath(source).Ok?
    ensures SandboxRelativePath(source).Ok? ==>
      && SandboxRelativePath(Clean(source)) == SandboxRelativePath(source)
      && var r := SandboxRelativePath(source).value;
         && Clean(source) == "/sandbox/" + r
         && Components(r) != [] && AllProper(Components(r)) && Components(source) == ["sandbox"] + Components(r)
  {
    if SandboxRelativePath(source).Ok? {
      RemainderIsProper(source);
      CleanIdempotent(source);
      NoTraversal(source);
      assert Clean(source) != "" && HasPrefix(Clean(source), "/");
      assert '\0' !in Clean(source) by {
        if '\0' in Clean(source) {
          CleanMembers(source, '\0');
          assert false;
        }
      }
    }
  }

  /** The relative path is the archive root the extractor expects, spelled from proper
      components, and what is staged under it is never refused as outside the staging
      directory. */
  lemma StagedPathIsWithin(source: string, staging: string)
    requires SandboxRelativePath(source).Ok? && IsAbs(staging)
    ensures var r := SandboxRelativePath(source).value;
      && r == Join(Components(r), '/') && Components(r) != [] && AllProper(Components(r))
      && Components(JoinPath(staging, r)) == Components(staging) + Components(r)
      && PathWithin(staging, JoinPath(staging, r))
  {
    var r := SandboxRelativePath(source).value;
    RemainderSplits(source);
    RemainderIsProper(source);
    NoTraversal(source);
    hide Clean, Components, JoinPath, PathWithin, HasTraversal, IsAbs;
    assert Components(source) == ["sandbox"] + Split(r, '/') == ["sandbox"] + Components(r);
    assert Split(r, '/') == Components(source)[1..] == Components(r);
    JoinInvertsSplit(r, '/');
    assert ".." !in Split(r, '/') by {
      assert !Proper("..");
    }
    JoinBelow(staging, r);
    PathWithinIsPrefix(staging, JoinPath(staging, r));
  }

  // -------------------------------------------------------- destinations

  /** An accepted destination lies strictly below any output root, before and after
      it is cleaned. */
  lemma DestinationIsBelow(root: string, destination: string)
    requires IsAbs(root) && OutputDestinationFault(destination).None?
    ensures var joined := JoinPath(root, Clean(destination));
      && IsAbs(joined)
      && Components(joined) == Components(root) + Components(destination)
      && Components(destination) != [] && AllProper(Components(destination))
      && PathWithin(root, joined)
      && Components(joined) != Components(root)
  {
    var clean := Clean(destination);
    NoTraversal(destination);
    CleanIdempotent(destination);
    NoTraversal(clean);
    JoinBelow(root, clean);
    assert Components(destination) != [] by {
      assert Components(destination) == [] ==> clean == ".";
    }
    PathWithinIsPrefix(root, JoinPath(root, clean));
    assert |Components(root) + Components(destination)| > |Components(root)|;
  }

  /** Destinations that clean to different texts land at different places. */
  lemma DistinctDestinations(root: string, a: string, b: string)
    requires IsAbs(root) && OutputDestinationFault(a).None? && OutputDestinationFault(b).None?
    requires Clean(a) != Clean(b)
    ensures Components(JoinPath(root, Clean(a))) != Components(JoinPath(root, Clean(b)))
  {
    DestinationIsBelow(root, a);
    DestinationIsBelow(root, b);
    assert Clean(a) == Render(false, Components(a)) && Clean(b) == Render(false, Components(b));
    assert Components(a) == (Components(root) + Components(a))[|Components(root)|..];
    assert Components(b) == (Components(root) + Components(b))[|Components(root)|..];
  }

  /** Cleaning keeps accepted paths accepted, and is then finished. */
  lemma CleanKeepsAcceptance(source: string, destination: string)
    ensures OutputSourceFault(source).None? ==>
      OutputSourceFault(Clean(source)).None? && Clean(Clean(source)) == Clean(source)
    ensures OutputDestinationFault(destination).None? ==>
      OutputDestinationFault(Clean(destination)).None? && Clean(Clean(destination)) == Clean(destination)
  {
    SourceChecksAgree(source);
    SourceChecksAgree(Clean(source));
    CleanIdempotent(source);
    if OutputDestinationFault(destination).None? {
      NoTraversal(destination);
      CleanIdempotent(destination);
      assert '\0' !in Clean(destination) by {
        if '\0' in Clean(destination) {
          CleanMembers(destination, '\0');
          assert false;
        }
      }
    }
  }
}
