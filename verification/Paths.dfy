// The slash-separated path functions the runner calls: Clean, Join, Base, Rel and
// the two checks built on them (the ".." test and the containment test).
// Paths are character sequences; Components is the list a cleaned path denotes.
module Paths {
  import opened Strings

  predicate IsAbs(p: string) {
    HasPrefix(p, "/")
  }

  /** One step of Clean: what a path segment does to the segments kept so far. */
  function Push(stack: seq<string>, part: string, rooted: bool): seq<string> {
    if part == "" || part == "." then stack
    else if part == ".." then
      if stack != [] && stack[|stack| - 1] != ".." then stack[..|stack| - 1]
      else if rooted then stack
      else stack + [".."]
    else stack + [part]
  }

  function Reduce(stack: seq<string>, parts: seq<string>, rooted: bool): seq<string>
    decreases parts
  {
    if parts == [] then stack else Reduce(Push(stack, parts[0], rooted), parts[1..], rooted)
  }

  function Components(p: string): seq<string> {
    Reduce([], Split(p, '/'), IsAbs(p))
  }

  function Render(rooted: bool, parts: seq<string>): string {
    if rooted then "/" + Join(parts, '/')
    else if parts == [] then "."
    else Join(parts, '/')
  }

  /** path.Clean (and filepath.Clean on a slash-separated host). */
  function Clean(p: string): string {
    Render(IsAbs(p), Components(p))
  }

  /** path.Join of two elements: empty elements are ignored. */
  function JoinPath(a: string, b: string): string {
    if a == "" && b == "" then ""
    else if a == "" then Clean(b)
    else if b == "" then Clean(a)
    else Clean(a + "/" + b)
  }

  /** A single ordinary name: what a directory entry can be called. */
  predicate Proper(part: string) {
    part != "" && part != "." && part != ".." && '/' !in part
  }

  predicate AllProper(parts: seq<string>) {
    forall part :: part in parts ==> Proper(part)
  }

  /** The shape of every cleaned path: ".." survives only as a prefix of a relative one. */
  predicate Normal(parts: seq<string>, rooted: bool) {
    && (forall part :: part in parts ==> part != "" && part != "." && '/' !in part)
    && (rooted ==> ".." !in parts)
    && (forall i, j :: 0 <= i < j < |parts| && parts[j] == ".." ==> parts[i] == "..")
  }

  lemma {:induction false} ReduceIsNormal(stack: seq<string>, parts: seq<string>, rooted: bool)
    requires Normal(stack, rooted)
    requires forall part :: part in parts ==> '/' !in part
    ensures Normal(Reduce(stack, parts, rooted), rooted)
    decreases parts
  {
    if parts != [] {
      var next := Push(stack, parts[0], rooted);
      assert Normal(next, rooted) by {
        assert parts[0] in parts;
        forall i, j | 0 <= i < j < |next| && next[j] == ".." ensures next[i] == ".." {
          if j < |stack| {
            assert stack[j] == "..";
          } else {
            assert stack != [] ==> stack[|stack| - 1] == "..";
          }
        }
      }
      ReduceIsNormal(next, parts[1..], rooted);
    }
  }

  lemma {:induction false} ReduceKeepsNormal(stack: seq<string>, parts: seq<string>, rooted: bool)
    requires Normal(stack + parts, rooted)
    ensures Reduce(stack, parts, rooted) == stack + parts
    decreases parts
  {
    if parts == [] {
      assert stack + parts == stack;
    } else {
      var all := stack + parts;
      assert all[|stack|] == parts[0] && parts[0] in all;
      assert parts[0] == ".." && stack != [] ==> stack[|stack| - 1] == all[|stack| - 1] == "..";
      assert stack + [parts[0]] + parts[1..] == all;
      ReduceKeepsNormal(stack + [parts[0]], parts[1..], rooted);
    }
  }

  lemma {:induction false} ReduceConcat(stack: seq<string>, a: seq<string>, b: seq<string>, rooted: bool)
    ensures Reduce(stack, a + b, rooted) == Reduce(Reduce(stack, a, rooted), b, rooted)
    decreases a
  {
    if a == [] {
      assert a + b == b;
    } else {
      assert (a + b)[1..] == a[1..] + b;
      ReduceConcat(Push(stack, a[0], rooted), a[1..], b, rooted);
    }
  }

  lemma ComponentsNormal(p: string)
    ensures Normal(Components(p), IsAbs(p))
  {
    SplitPartsLackSeparator(p, '/');
    ReduceIsNormal([], Split(p, '/'), IsAbs(p));
  }

  /** Cleaning is a normal form: the components are recovered from the text. */
  lemma RenderInverse(rooted: bool, parts: seq<string>)
    requires Normal(parts, rooted)
    ensures IsAbs(Render(rooted, parts)) == rooted
    ensures Components(Render(rooted, parts)) == parts
  {
    var text := Render(rooted, parts);
    var joined := Join(parts, '/');
    if parts == [] {
      assert Split("/", '/') == ["", ""] by { SplitConcat("", "", '/'); }
      assert Split(".", '/') == ["."] by { SplitSeparatorFree(".", '/'); }
      assert Reduce([], [""], true) == [];
      assert Reduce([], ["", ""], true) == Reduce([], ["", ""][1..], true);
      assert joined == "";
      assert text == if rooted then "/" else ".";
    } else {
      SplitInvertsJoin(parts, '/');
      assert [] + parts == parts;
      ReduceKeepsNormal([], parts, rooted);
      if rooted {
        SplitConcat("", joined, '/');
        assert text == "" + ['/'] + joined;
        assert ([""] + parts)[1..] == parts;
      } else {
        assert parts[0] in parts;
        HeadOfJoin(parts, '/');
      }
    }
  }

  lemma HeadOfJoin(parts: seq<string>, sep: char)
    requires parts != [] && parts[0] != "" && sep !in parts[0]
    ensures Join(parts, sep) != "" && Join(parts, sep)[0] == parts[0][0] && Join(parts, sep)[0] != sep
  {
    assert parts[0][0] in parts[0];
  }

  lemma CleanIdempotent(p: string)
    ensures IsAbs(Clean(p)) == IsAbs(p)
    ensures Components(Clean(p)) == Components(p)
    ensures Clean(Clean(p)) == Clean(p)
  {
    ComponentsNormal(p);
    RenderInverse(IsAbs(p), Components(p));
  }

  lemma ProperIsNormal(parts: seq<string>, rooted: bool)
    requires AllProper(parts)
    ensures Normal(parts, rooted)
  {
    forall j | 0 <= j < |parts| ensures parts[j] != ".." {
      assert parts[j] in parts;
    }
  }

  lemma PushOrdinary(stack: seq<string>, part: string, rooted: bool)
    requires part != ".." && '/' !in part
    ensures Push(stack, part, rooted) == stack + Push([], part, rooted)
    ensures forall kept :: kept in Push(stack, part, rooted) ==> kept in stack || kept == part
    ensures AllProper(stack) ==> AllProper(Push(stack, part, rooted))
  {}

  lemma ReduceNothing(rooted: bool)
    ensures forall stack :: Reduce(stack, [], rooted) == stack
  {}

  lemma ReduceStep(stack: seq<string>, parts: seq<string>, rooted: bool)
    requires parts != []
    ensures Reduce(stack, parts, rooted) == Reduce(Push(stack, parts[0], rooted), parts[1..], rooted)
  {}

  /** Without ".." segments Clean only drops empty and "." segments. */
  lemma {:induction false} ReduceWithoutParents(stack: seq<string>, parts: seq<string>, rooted: bool)
    requires ".." !in parts && AllProper(stack)
    requires forall part :: part in parts ==> '/' !in part
    ensures AllProper(Reduce(stack, parts, rooted))
    ensures forall part :: part in Reduce(stack, parts, rooted) ==> part in stack || part in parts
    ensures forall other :: Reduce(other, parts, rooted) == other + Reduce([], parts, rooted)
    decreases parts
  {
    hide Push, Reduce, Proper;
    if parts == [] {
      ReduceNothing(rooted);
    } else {
      var first, rest := parts[0], parts[1..];
      assert first in parts;
      PushOrdinary(stack, first, rooted);
      ReduceWithoutParents(Push(stack, first, rooted), rest, rooted);
      ReduceStep(stack, parts, rooted);
      forall other ensures Reduce(other, parts, rooted) == other + Reduce([], parts, rooted) {
        PushOrdinary(other, first, rooted);
        ReduceStep(other, parts, rooted);
        ReduceStep([], parts, rooted);
        PushOrdinary([], first, rooted);
        assert other + (Push([], first, rooted) + Reduce([], rest, rooted))
            == Push(other, first, rooted) + Reduce([], rest, rooted);
      }
    }
  }

  /** Joining a name without ".." segments below an absolute directory appends its components. */
  lemma JoinBelow(root: string, name: string)
    requires IsAbs(root) && name != "" && ".." !in Split(name, '/')
    ensures IsAbs(JoinPath(root, name))
    ensures Components(JoinPath(root, name)) == Components(root) + Components(name)
    ensures AllProper(Components(name))
  {
    var text := root + "/" + name;
    var parts := Split(name, '/');
    SplitPartsLackSeparator(name, '/');
    SplitConcat(root, name, '/');
    ReduceConcat([], Split(root, '/'), parts, true);
    ReduceWithoutParents([], parts, true);
    ReduceWithoutParents([], parts, IsAbs(name));
    RootedIrrelevant([], parts);
    assert Components(text) == Components(root) + Components(name);
    CleanIdempotent(text);
  }

  lemma {:induction false} RootedIrrelevant(stack: seq<string>, parts: seq<string>)
    requires ".." !in parts
    ensures Reduce(stack, parts, true) == Reduce(stack, parts, false)
    decreases parts
  {
    if parts != [] {
      assert parts[0] in parts;
      RootedIrrelevant(Push(stack, parts[0], true), parts[1..]);
    }
  }

  /** A ".." takes away the ordinary name before it; at the root there is nothing to take. */
  lemma DotDotCancels(front: seq<string>, name: string, back: seq<string>, rooted: bool)
    requires Proper(name)
    ensures Reduce([], front + [name, ".."] + back, rooted) == Reduce([], front + back, rooted)
    ensures Reduce([], [".."] + back, true) == Reduce([], back, true)
  {
    var stack := Reduce([], front, rooted);
    ReduceConcat([], front + [name, ".."], back, rooted);
    ReduceConcat([], front, [name, ".."], rooted);
    ReduceConcat([], front, back, rooted);
    assert [name, ".."][1..] == [".."] && [".."][1..] == [];
    assert Reduce(stack, [name, ".."], rooted) == Reduce(stack + [name], [".."], rooted) == stack;
    assert ([".."] + back)[1..] == back;
  }

  /** Joining "../" and a name to an absolute directory leads into the directory's parent, as
      a payload source such as "../shared/x" needs it. */
  lemma JoinSibling(dir: string, up: seq<string>, last: string, name: string)
    requires IsAbs(dir) && Components(dir) == up + [last] && name != "" && ".." !in Split(name, '/')
    ensures IsAbs(JoinPath(dir, "../" + name))
    ensures Components(JoinPath(dir, "../" + name)) == up + Components(name)
  {
    hide Split, Reduce, Clean, Components;
    var text := dir + "/" + ("../" + name);
    var parts := Split(name, '/');
    assert Split(text, '/') == Split(dir, '/') + ([".."] + parts) by {
      SplitConcat(dir, "../" + name, '/');
      assert "../" + name == ".." + ['/'] + name;
      SplitConcat("..", name, '/');
      SplitSeparatorFree("..", '/');
    }
    ComponentsOf(dir);
    ComponentsOf(name);
    ComponentsOf(text);
    ComponentsNormal(dir);
    assert last != ".." by {
      assert (up + [last])[|up|] == last;
    }
    ReduceConcat([], Split(dir, '/'), [".."] + parts, true);
    SplitPartsLackSeparator(name, '/');
    UpThenDown(up, last, parts);
    RootedIrrelevant([], parts);
    CleanIdempotent(text);
  }

  lemma ComponentsOf(p: string)
    ensures Components(p) == Reduce([], Split(p, '/'), IsAbs(p))
  {}

  lemma UpThenDown(up: seq<string>, last: string, parts: seq<string>)
    requires last != ".." && ".." !in parts && forall part :: part in parts ==> '/' !in part
    ensures Reduce(up + [last], [".."] + parts, true) == up + Reduce([], parts, true)
  {
    assert ([".."] + parts)[1..] == parts && (up + [last])[..|up|] == up;
    assert Push(up + [last], "..", true) == up;
    ReduceWithoutParents([], parts, true);
  }

  /** filepath.Rel on component lists: None is its "cannot make relative" error. */
  function RelComponents(base: seq<string>, target: seq<string>): Option<seq<string>>
    decreases base
  {
    if base != [] && target != [] && base[0] == target[0] then RelComponents(base[1..], target[1..])
    else if base != [] && base[0] == ".." then None
    else Some(seq(|base|, i => "..") + target)
  }

  function Rel(base: string, target: string): Option<string> {
    if IsAbs(base) != IsAbs(target) then None
    else
      match RelComponents(Components(base), Components(target))
      case None => None
      case Some(parts) => Some(Render(false, parts))
  }

  /** downloadPathWithin and pathWithin: the same test in both files. */
  predicate PathWithin(root: string, candidate: string) {
    var rel := Rel(Clean(root), Clean(candidate));
    rel.Some? && rel.value != ".." && !HasPrefix(rel.value, "../") && !IsAbs(rel.value)
  }

  lemma {:induction false} RelOfPrefix(base: seq<string>, target: seq<string>)
    requires ".." !in base
    ensures RelComponents(base, target).Some?
    ensures base <= target ==> RelComponents(base, target).value == target[|base|..]
    ensures !(base <= target) ==> [".."] <= RelComponents(base, target).value
    ensures forall part :: part in RelComponents(base, target).value ==> part == ".." || part in target
    decreases base
  {
    if base != [] && target != [] && base[0] == target[0] {
      RelOfPrefix(base[1..], target[1..]);
      assert base == [base[0]] + base[1..] && target == [target[0]] + target[1..];
      assert base <= target <==> base[1..] <= target[1..];
    } else if base == [] {
      assert seq(|base|, i => "..") + target == target;
    } else {
      assert base[0] in base;
      assert !(base <= target);
    }
  }

  /** The containment test accepts exactly the descendants (and the root itself). */
  lemma PathWithinIsPrefix(root: string, candidate: string)
    requires IsAbs(root) && IsAbs(candidate)
    ensures PathWithin(root, candidate) <==> Components(root) <= Components(candidate)
  {
    var base, target := Components(root), Components(candidate);
    CleanIdempotent(root);
    CleanIdempotent(candidate);
    ComponentsNormal(root);
    ComponentsNormal(candidate);
    RelOfPrefix(base, target);
    var parts := RelComponents(base, target).value;
    if parts != [] {
      assert parts[0] in parts;
      assert parts[0] != "" && '/' !in parts[0];
      HeadOfJoin(parts, '/');
      if base <= target {
        assert parts[0] in target;
        if |parts| == 1 {
          assert "../"[2] == '/';
          PrefixMembers("../", parts[0]);
        } else {
          PrefixDotDot(parts[0], Join(parts[1..], '/'));
        }
      } else if |parts| > 1 {
        assert parts[0] == "..";
        assert Join(parts, '/')[..3] == "../";
      }
    }
  }

  lemma PrefixMembers(prefix: string, s: string)
    ensures prefix <= s ==> forall c :: c in prefix ==> c in s
  {
    if prefix <= s {
      assert s == prefix + s[|prefix|..];
    }
  }

  lemma PrefixDotDot(first: string, rest: string)
    requires '/' !in first
    ensures first + ['/'] + rest != ".."
    ensures HasPrefix(first + ['/'] + rest, "../") ==> first == ".."
  {
    var text := first + ['/'] + rest;
    SplitConcat(first, rest, '/');
    SplitSeparatorFree(first, '/');
    SplitSeparatorFree("..", '/');
    if HasPrefix(text, "../") {
      assert text == ".." + ['/'] + text[3..];
      SplitConcat("..", text[3..], '/');
      assert Split(text, '/')[0] == first;
    }
  }

  /** destinationHasTraversal and hasParentPathSegment: a ".." segment, with "\" read as "/". */
  predicate HasTraversal(p: string) {
    ".." in Split(ReplaceChar(p, '\\', '/'), '/')
  }

  lemma {:induction false} ReplaceConcat(a: string, b: string, from: char, to: char)
    ensures ReplaceChar(a + b, from, to) == ReplaceChar(a, from, to) + ReplaceChar(b, from, to)
  {
  }

  /** The traversal test may be decided segment by segment. */
  lemma {:induction false} TraversalBySegment(parts: seq<string>)
    requires |parts| >= 1
    ensures HasTraversal(Join(parts, '/')) <==> exists part :: part in parts && HasTraversal(part)
  {
    if |parts| == 1 {
      assert parts[0] in parts;
    } else {
      var head, tail := parts[0], Join(parts[1..], '/');
      TraversalBySegment(parts[1..]);
      ReplaceConcat(head + ['/'], tail, '\\', '/');
      ReplaceConcat(head, ['/'], '\\', '/');
      SplitConcat(ReplaceChar(head, '\\', '/'), ReplaceChar(tail, '\\', '/'), '/');
      assert ReplaceChar(['/'], '\\', '/') == ['/'];
      assert Join(parts, '/') == head + ['/'] + tail;
      assert HasTraversal(Join(parts, '/')) <==> HasTraversal(head) || HasTraversal(tail);
      assert forall part :: part in parts <==> part == head || part in parts[1..];
    }
  }

  lemma DotDotIsTraversal()
    ensures HasTraversal("..")
  {
    assert ReplaceChar("..", '\\', '/') == "..";
    SplitSeparatorFree("..", '/');
  }

  /** A path that passes the ".." test has no ".." segment and still passes it once cleaned. */
  lemma NoTraversal(p: string)
    requires !HasTraversal(p)
    ensures ".." !in Split(p, '/')
    ensures AllProper(Components(p))
    ensures !HasTraversal(Clean(p))
  {
    var parts := Split(p, '/');
    JoinInvertsSplit(p, '/');
    TraversalBySegment(parts);
    DotDotIsTraversal();
    SplitPartsLackSeparator(p, '/');
    ReduceWithoutParents([], parts, IsAbs(p));
    NoTraversalRendered(IsAbs(p), Components(p));
  }

  lemma NoTraversalRendered(rooted: bool, kept: seq<string>)
    requires forall part :: part in kept ==> !HasTraversal(part)
    ensures !HasTraversal(Render(rooted, kept))
  {
    if kept == [] {
      assert ReplaceChar("/", '\\', '/') == "/" && ReplaceChar(".", '\\', '/') == ".";
      SplitConcat("", "", '/');
      SplitSeparatorFree(".", '/');
    } else {
      assert ReplaceChar("", '\\', '/') == "" && !HasTraversal("");
      hide HasTraversal;
      TraversalBySegment(kept);
      TraversalBySegment([""] + kept);
      assert ([""] + kept)[1..] == kept;
      assert "/" + Join(kept, '/') == Join([""] + kept, '/');
      assert forall part :: part in [""] + kept ==> part == "" || part in kept;
    }
  }

  /** The last component of a path: path.Base. */
  function Base(p: string): string {
    if p == "" then "."
    else
      var trimmed := TrimRightSlashes(p);
      if trimmed == "" then "/" else AfterLastSlash(trimmed)
  }

  function TrimRightSlashes(p: string): (r: string)
    ensures r <= p
    ensures r == "" || r[|r| - 1] != '/'
  {
    if p != "" && p[|p| - 1] == '/' then TrimRightSlashes(p[..|p| - 1]) else p
  }

  function AfterLastSlash(p: string): (r: string)
    ensures '/' !in r && |r| <= |p| && r == p[|p| - |r|..]
    ensures |r| < |p| ==> p[|p| - |r| - 1] == '/'
  {
    if p == "" || p[|p| - 1] == '/' then ""
    else AfterLastSlash(p[..|p| - 1]) + [p[|p| - 1]]
  }
}
