// Writing a tree and extracting what was written: the tree comes back, exactly when
// it has no links and fits the budgets.
module ArchiveRoundTrip {
  import opened Strings
  import opened Paths
  import opened Disk
  import opened Archive
  import opened ArchiveNames
  import opened ArchiveSafety

  /** No special file anywhere: the writer reaches the end. */
  predicate Writable(t: Tree) {
    match t
    case DirTree(children) => WritableForest(children)
    case SpecialTree => false
    case _ => true
  }

  predicate WritableForest(f: Forest) {
    match f
    case Nil => true
    case Cons(_, tree, rest) => Writable(tree) && WritableForest(rest)
  }

  /** Regular files and directories only. */
  predicate LinkFree(t: Tree) {
    match t
    case DirTree(children) => LinkFreeForest(children)
    case FileTree(_) => true
    case _ => false
  }

  predicate LinkFreeForest(f: Forest) {
    match f
    case Nil => true
    case Cons(_, tree, rest) => LinkFree(tree) && LinkFreeForest(rest)
  }

  function Count(t: Tree): nat {
    match t
    case DirTree(children) => 1 + CountForest(children)
    case _ => 1
  }

  function CountForest(f: Forest): nat {
    match f
    case Nil => 0
    case Cons(_, tree, rest) => Count(tree) + CountForest(rest)
  }

  function Size(t: Tree): nat {
    match t
    case FileTree(data) => |data|
    case DirTree(children) => SizeForest(children)
    case _ => 0
  }

  function SizeForest(f: Forest): nat {
    match f
    case Nil => 0
    case Cons(_, tree, rest) => Size(tree) + SizeForest(rest)
  }

  /** The nodes a tree denotes when it stands at `top`. */
  function Flat(top: Path, t: Tree): Fs
    decreases t
  {
    match t
    case FileTree(data) => map[top := File(data)]
    case DirTree(children) => map[top := Dir] + FlatForest(top, children)
    case _ => map[]
  }

  function FlatForest(top: Path, f: Forest): Fs
    decreases f
  {
    match f
    case Nil => map[]
    case Cons(name, tree, rest) => Flat(top + [name], tree) + FlatForest(top, rest)
  }

  lemma {:induction false} FlatIsBelow(top: Path, t: Tree)
    ensures forall p :: p in Flat(top, t) ==> top <= p
    decreases t
  {
    if t.DirTree? {
      FlatForestIsBelow(top, t.children);
    }
  }

  lemma {:induction false} FlatForestIsBelow(top: Path, f: Forest)
    ensures forall p :: p in FlatForest(top, f) ==> top < p && p[|top|] in Names(f)
    decreases f
  {
    if f.Cons? {
      FlatIsBelow(top + [f.name], f.tree);
      FlatForestIsBelow(top, f.rest);
      forall p | p in Flat(top + [f.name], f.tree) ensures top < p && p[|top|] == f.name {
        assert (top + [f.name])[|top|] == p[|top|];
      }
    }
  }

  predicate Room(p: Progress, count: nat, size: nat) {
    p.entries + count <= MAX_DOWNLOAD_ENTRIES && p.total + size <= MAX_DOWNLOAD_BYTES
  }

  lemma HeaderName(t: Tree, parts: Path)
    requires AllProper(parts) && parts != [] && !t.SpecialTree?
    ensures Clean(HeaderFor(t, Join(parts, '/')).name) == Join(parts, '/')
  {
    NameIsClean(parts);
    DirectoryNameIsClean(parts);
  }

  /** How the extractor meets a header whose cleaned name is `parts`. */
  lemma HeaderTurn(p: Progress, header: Header, parts: Path, rootParts: Path, staging: string)
    requires IsAbs(staging) && AllProper(parts) && rootParts != [] && rootParts <= parts
    requires Clean(header.name) == Join(parts, '/')
    ensures var q := p.(entries := p.entries + 1);
      ExtractOne(p, Entry(header), staging, Join(rootParts, '/'))
      == (if q.entries > MAX_DOWNLOAD_ENTRIES then (q, Some(TooManyEntries))
          else Create(q, header, Components(staging) + parts))
  {
    NameIsAccepted(p.entries + 1, parts, rootParts, staging);
  }

  lemma FirstTurn(p: Progress, item: Item, rest: seq<Item>, staging: string, root: string)
    ensures ExtractFrom(p, [item] + rest, staging, root)
         == var (next, err) := ExtractOne(p, item, staging, root);
            if err.Some? then (next, err) else ExtractFrom(next, rest, staging, root)
  {
    assert ([item] + rest)[1..] == rest;
  }

  /** The state a fitting, link-free tree leaves behind. */
  function Grown(p: Progress, made: Fs, t: Tree, top: Path): Progress
    requires Room(p, Count(t), Size(t)) && 0 <= p.total
  {
    Progress(made + Flat(top, t), p.entries + Count(t), p.total + Size(t))
  }

  function GrownForest(p: Progress, f: Forest, top: Path): Progress
    requires Room(p, CountForest(f), SizeForest(f)) && 0 <= p.total
  {
    Progress(p.fs + FlatForest(top, f), p.entries + CountForest(f), p.total + SizeForest(f))
  }

  lemma DirectoryUnfolds(t: Tree, top: Path)
    requires t.DirTree?
    ensures Flat(top, t) == map[top := Dir] + FlatForest(top, t.children)
    ensures Count(t) == 1 + CountForest(t.children) && Size(t) == SizeForest(t.children)
  {
    hide FlatForest, CountForest, SizeForest;
  }

  /** Entering a directory first, or adding it with its children, is the same. */
  lemma EnterFirst(made: Fs, top: Path, inner: Fs)
    ensures made[top := Dir] + inner == made + (map[top := Dir] + inner)
  {}

  lemma DirectoryGrows(p: Progress, made: Fs, t: Tree, top: Path)
    requires t.DirTree? && Room(p, Count(t), Size(t)) && 0 <= p.total
    ensures Room(Progress(made[top := Dir], p.entries + 1, p.total), CountForest(t.children), SizeForest(t.children))
    ensures GrownForest(Progress(made[top := Dir], p.entries + 1, p.total), t.children, top) == Grown(p, made, t, top)
  {
    DirectoryUnfolds(t, top);
    hide Flat, FlatForest, Count, CountForest, Size, SizeForest;
    EnterFirst(made, top, FlatForest(top, t.children));
  }

  lemma FileGrows(p: Progress, made: Fs, t: Tree, top: Path)
    requires t.FileTree? && Room(p, 1, |t.data|) && 0 <= p.total
    ensures Progress(made[top := File(t.data)], p.entries + 1, p.total + |t.data|) == Grown(p, made, t, top)
  {
    assert made[top := File(t.data)] == made + map[top := File(t.data)];
  }

  lemma ForestUnfolds(f: Forest, top: Path)
    requires f.Cons?
    ensures FlatForest(top, f) == Flat(top + [f.name], f.tree) + FlatForest(top, f.rest)
    ensures CountForest(f) == Count(f.tree) + CountForest(f.rest) && SizeForest(f) == Size(f.tree) + SizeForest(f.rest)
  {
    hide Flat, Count, Size;
  }

  lemma MergeAssoc(a: Fs, b: Fs, c: Fs)
    ensures (a + b) + c == a + (b + c)
  {}

  lemma ForestGrows(p: Progress, f: Forest, top: Path)
    requires f.Cons? && Room(p, CountForest(f), SizeForest(f)) && 0 <= p.total
    ensures Room(p, Count(f.tree), Size(f.tree))
    ensures Room(Grown(p, p.fs, f.tree, top + [f.name]), CountForest(f.rest), SizeForest(f.rest))
    ensures GrownForest(Grown(p, p.fs, f.tree, top + [f.name]), f.rest, top) == GrownForest(p, f, top)
  {
    ForestUnfolds(f, top);
    hide Flat, FlatForest, Count, CountForest, Size, SizeForest;
    MergeAssoc(p.fs, Flat(top + [f.name], f.tree), FlatForest(top, f.rest));
  }

  lemma FileCreated(p: Progress, made: Fs, header: Header, top: Path)
    requires Vacant(p, made, top)
    requires header.kind == RegularEntry && header.size == |header.data|
    ensures if p.total + header.size <= MAX_DOWNLOAD_BYTES
      then Create(p, header, top) == (Progress(made[top := File(header.data)], p.entries, p.total + header.size), None)
      else Create(p, header, top) == (p, Some(TooLarge))
  {
    BudgetGuardIsExact(p.total, header.size);
    assert header.data[..header.size] == header.data;
    assert top <= top;
  }

  /** Nothing stands in the way at `top`, and its parent directories can be made. */
  ghost predicate Vacant(p: Progress, made: Fs, top: Path) {
    && top != []
    && MkdirAll(p.fs, Parent(top)) == Some(made)
    && IsDir(made, Parent(top))
    && (forall q :: q in p.fs ==> q in made)
    && (forall q :: q in made ==> !(top <= q))
    && 0 <= p.entries && 0 <= p.total <= MAX_DOWNLOAD_BYTES
  }

  lemma FileGrown(p: Progress, made: Fs, t: Tree, header: Header, top: Path)
    requires t.FileTree? && Vacant(p, made, top)
    requires header.kind == RegularEntry && header.data == t.data && header.size == |t.data|
    ensures var r := Create(p.(entries := p.entries + 1), header, top);
      if p.total + |t.data| > MAX_DOWNLOAD_BYTES then r.1.Some?
      else p.entries < MAX_DOWNLOAD_ENTRIES ==> r.1.None? && r.0 == Grown(p, made, t, top)
  {
    FileCreated(p.(entries := p.entries + 1), made, header, top);
    if Room(p, 1, |t.data|) {
      FileGrows(p, made, t, top);
    }
  }

  lemma FileExtracts(p: Progress, made: Fs, t: Tree, parts: Path, rootParts: Path, staging: string, rest: seq<Item>)
    requires IsAbs(staging) && AllProper(parts) && rootParts != [] && rootParts <= parts
    requires t.FileTree? && Vacant(p, made, Components(staging) + parts)
    ensures var r := ExtractFrom(p, [Entry(HeaderFor(t, Join(parts, '/')))] + rest, staging, Join(rootParts, '/'));
      if Room(p, 1, |t.data|)
      then r == ExtractFrom(Grown(p, made, t, Components(staging) + parts), rest, staging, Join(rootParts, '/'))
      else r.1.Some?
  {
    var top := Components(staging) + parts;
    var header := HeaderFor(t, Join(parts, '/'));
    FirstTurn(p, Entry(header), rest, staging, Join(rootParts, '/'));
    HeaderName(t, parts);
    HeaderTurn(p, header, parts, rootParts, staging);
    FileGrown(p, made, t, header, top);
  }

  lemma DirectoryTurn(p: Progress, made: Fs, t: Tree, parts: Path, rootParts: Path, staging: string)
    requires IsAbs(staging) && AllProper(parts) && rootParts != [] && rootParts <= parts
    requires t.DirTree? && Vacant(p, made, Components(staging) + parts)
    ensures var r := ExtractOne(p, Entry(HeaderFor(t, Join(parts, '/'))), staging, Join(rootParts, '/'));
      if p.entries < MAX_DOWNLOAD_ENTRIES
      then r == (Progress(made[Components(staging) + parts := Dir], p.entries + 1, p.total), None) else r.1.Some?
  {
    HeaderName(t, parts);
    HeaderTurn(p, HeaderFor(t, Join(parts, '/')), parts, rootParts, staging);
  }

  lemma {:induction false} TreeExtracts(p: Progress, made: Fs, t: Tree, parts: Path, rootParts: Path, staging: string,
                                        rest: seq<Item>)
    requires IsAbs(staging) && AllProper(parts) && rootParts != [] && rootParts <= parts
    requires WfTree(t) && Writable(t) && Vacant(p, made, Components(staging) + parts)
    ensures Emit(t, Join(parts, '/')).1
    ensures var root := Join(rootParts, '/');
      var r := ExtractFrom(p, Emit(t, Join(parts, '/')).0 + rest, staging, root);
      if LinkFree(t) && Room(p, Count(t), Size(t))
      then r == ExtractFrom(Grown(p, made, t, Components(staging) + parts), rest, staging, root)
      else r.1.Some?
    decreases t, 1
  {
    hide Components, AllProper, Grown, Join, IsAbs, WfTree;
    var root, top := Join(rootParts, '/'), Components(staging) + parts;
    var head := Entry(HeaderFor(t, Join(parts, '/')));
    match t {
      case FileTree(data) =>
        FileExtracts(p, made, t, parts, rootParts, staging, rest);
      case LinkTree(_) =>
        FirstTurn(p, head, rest, staging, root);
        HeaderName(t, parts);
        HeaderTurn(p, HeaderFor(t, Join(parts, '/')), parts, rootParts, staging);
      case DirTree(children) =>
        DirectoryExtracts(p, made, t, parts, rootParts, staging, rest);
    }
  }

  lemma {:induction false} DirectoryExtracts(p: Progress, made: Fs, t: Tree, parts: Path, rootParts: Path,
                                             staging: string, rest: seq<Item>)
    requires IsAbs(staging) && AllProper(parts) && rootParts != [] && rootParts <= parts
    requires t.DirTree? && WfTree(t) && Writable(t) && Vacant(p, made, Components(staging) + parts)
    ensures Emit(t, Join(parts, '/')).1
    ensures var root := Join(rootParts, '/');
      var r := ExtractFrom(p, Emit(t, Join(parts, '/')).0 + rest, staging, root);
      if LinkFree(t) && Room(p, Count(t), Size(t))
      then r == ExtractFrom(Grown(p, made, t, Components(staging) + parts), rest, staging, root)
      else r.1.Some?
    decreases t, 0
  {
    hide Components, AllProper, Grown, Join, IsAbs, ExtractFrom, ExtractOne;
    var root, top := Join(rootParts, '/'), Components(staging) + parts;
    var head := Entry(HeaderFor(t, Join(parts, '/')));
    var inner := EmitForest(t.children, Join(parts, '/')).0;
    assert [head] + inner + rest == [head] + (inner + rest);
    WriterFinishes(t, Join(parts, '/'));
    FirstTurn(p, head, inner + rest, staging, root);
    DirectoryTurn(p, made, t, parts, rootParts, staging);
    if p.entries < MAX_DOWNLOAD_ENTRIES {
      var entered := Progress(made[top := Dir], p.entries + 1, p.total);
      assert forall q :: q in entered.fs ==> !(top < q);
      ForestExtracts(entered, t.children, parts, rootParts, staging, rest);
      if LinkFree(t) && Room(p, Count(t), Size(t)) {
        DirectoryGrows(p, made, t, top);
      }
    }
  }

  lemma {:induction false} WriterFinishes(t: Tree, path: string)
    ensures Emit(t, path).1 <==> Writable(t)
    decreases t
  {
    if t.DirTree? {
      ForestWriterFinishes(t.children, path);
    }
  }

  lemma {:induction false} ForestWriterFinishes(f: Forest, path: string)
    ensures EmitForest(f, path).1 <==> WritableForest(f)
    decreases f
  {
    if f.Cons? {
      WriterFinishes(f.tree, JoinPath(path, f.name));
      ForestWriterFinishes(f.rest, path);
    }
  }

  lemma BelowChild(q: Path, top: Path, name: string)
    ensures top + [name] <= q ==> top < q && q[|top|] == name
  {
    if top + [name] <= q {
      assert q[|top|] == (top + [name])[|top|];
    }
  }

  lemma ChildVacant(p: Progress, f: Forest, top: Path)
    requires f.Cons? && IsDir(p.fs, top)
    requires forall q :: q in p.fs && top < q ==> q[|top|] !in Names(f)
    requires 0 <= p.entries && 0 <= p.total <= MAX_DOWNLOAD_BYTES
    ensures Vacant(p, p.fs, top + [f.name])
  {
    var child := top + [f.name];
    assert Parent(child) == top;
    forall q | q in p.fs ensures !(child <= q) {
      BelowChild(q, top, f.name);
    }
  }

  lemma SiblingsStayFree(p: Progress, f: Forest, top: Path)
    requires WfForest(f) && f.Cons? && Room(p, Count(f.tree), Size(f.tree)) && 0 <= p.total
    requires forall q :: q in p.fs && top < q ==> q[|top|] !in Names(f)
    requires IsDir(p.fs, top)
    ensures forall q :: q in Grown(p, p.fs, f.tree, top + [f.name]).fs && top < q ==> q[|top|] !in Names(f.rest)
    ensures IsDir(Grown(p, p.fs, f.tree, top + [f.name]).fs, top)
  {
    var child := top + [f.name];
    FlatIsBelow(child, f.tree);
    assert !(child <= top);
    forall q | q in p.fs + Flat(child, f.tree) && top < q ensures q[|top|] !in Names(f.rest) {
      assert child <= q ==> q[|top|] == child[|top|];
    }
  }

  lemma {:induction false} ForestExtracts(p: Progress, f: Forest, parts: Path, rootParts: Path, staging: string,
                                          rest: seq<Item>)
    requires IsAbs(staging) && AllProper(parts) && rootParts != [] && rootParts <= parts
    requires WfForest(f) && WritableForest(f)
    requires IsDir(p.fs, Components(staging) + parts)
    requires var top := Components(staging) + parts; forall q :: q in p.fs && top < q ==> q[|top|] !in Names(f)
    requires 0 <= p.entries <= MAX_DOWNLOAD_ENTRIES && 0 <= p.total <= MAX_DOWNLOAD_BYTES
    ensures EmitForest(f, Join(parts, '/')).1
    ensures var root := Join(rootParts, '/');
      var r := ExtractFrom(p, EmitForest(f, Join(parts, '/')).0 + rest, staging, root);
      if LinkFreeForest(f) && Room(p, CountForest(f), SizeForest(f))
      then r == ExtractFrom(GrownForest(p, f, Components(staging) + parts), rest, staging, root)
      else r.1.Some?
    decreases f, 2
  {
    var root, top := Join(rootParts, '/'), Components(staging) + parts;
    if f.Nil? {
      assert [] + rest == rest;
      assert p.fs + map[] == p.fs;
    } else {
      FirstChildExtracts(p, f, parts, rootParts, staging, rest);
      if LinkFree(f.tree) && Room(p, Count(f.tree), Size(f.tree)) {
        SiblingsStayFree(p, f, top);
        ForestExtracts(Grown(p, p.fs, f.tree, top + [f.name]), f.rest, parts, rootParts, staging, rest);
        if LinkFreeForest(f) && Room(p, CountForest(f), SizeForest(f)) {
          ForestGrows(p, f, top);
        }
      }
    }
  }

  lemma {:induction false} FirstChildExtracts(p: Progress, f: Forest, parts: Path, rootParts: Path, staging: string,
                                              rest: seq<Item>)
    requires IsAbs(staging) && AllProper(parts) && rootParts != [] && rootParts <= parts
    requires f.Cons? && WfForest(f) && WritableForest(f)
    requires IsDir(p.fs, Components(staging) + parts)
    requires var top := Components(staging) + parts; forall q :: q in p.fs && top < q ==> q[|top|] !in Names(f)
    requires 0 <= p.entries <= MAX_DOWNLOAD_ENTRIES && 0 <= p.total <= MAX_DOWNLOAD_BYTES
    ensures EmitForest(f, Join(parts, '/')).1
    ensures var root := Join(rootParts, '/');
      var more := EmitForest(f.rest, Join(parts, '/')).0 + rest;
      var r := ExtractFrom(p, EmitForest(f, Join(parts, '/')).0 + rest, staging, root);
      if LinkFree(f.tree) && Room(p, Count(f.tree), Size(f.tree))
      then r == ExtractFrom(Grown(p, p.fs, f.tree, Components(staging) + parts + [f.name]), more, staging, root)
      else r.1.Some?
    decreases f, 1
  {
    var top := Components(staging) + parts;
    hide ExtractFrom, Grown, Count, Size, Components, Join, AllProper, LinkFree, Writable;
    var items := Emit(f.tree, Join(parts + [f.name], '/')).0;
    var more := EmitForest(f.rest, Join(parts, '/')).0;
    ChildName(parts, f.name);
    ChildVacant(p, f, top);
    ForestWriterFinishes(f, Join(parts, '/'));
    assert Components(staging) + (parts + [f.name]) == top + [f.name];
    TreeExtracts(p, p.fs, f.tree, parts + [f.name], rootParts, staging, more + rest);
    assert items + more + rest == items + (more + rest);
  }

  lemma {:induction false} LinkFreeIsWritable(t: Tree)
    ensures LinkFree(t) ==> Writable(t)
  {
    if t.DirTree? {
      LinkFreeForestIsWritable(t.children);
    }
  }

  lemma {:induction false} LinkFreeForestIsWritable(f: Forest)
    ensures LinkFreeForest(f) ==> WritableForest(f)
  {
    if f.Cons? {
      LinkFreeIsWritable(f.tree);
      LinkFreeForestIsWritable(f.rest);
    }
  }

  /** A tree denotes the same nodes wherever it stands. */
  lemma {:induction false} FlatShifts(top: Path, rel: Path, t: Tree)
    ensures forall q :: q in Flat(rel, t) <==> top + q in Flat(top + rel, t)
    ensures forall q :: q in Flat(rel, t) ==> Flat(top + rel, t)[top + q] == Flat(rel, t)[q]
    decreases t
  {
    assert forall q: Path {:trigger top + q} :: top + q == top + rel <==> q == rel by {
      forall q: Path | top + q == top + rel ensures q == rel {
        assert (top + q)[|top|..] == q && (top + rel)[|top|..] == rel;
      }
    }
    if t.DirTree? {
      FlatForestShifts(top, rel, t.children);
    }
  }

  lemma {:induction false} FlatForestShifts(top: Path, rel: Path, f: Forest)
    ensures forall q :: q in FlatForest(rel, f) <==> top + q in FlatForest(top + rel, f)
    ensures forall q :: q in FlatForest(rel, f) ==> FlatForest(top + rel, f)[top + q] == FlatForest(rel, f)[q]
    decreases f
  {
    if f.Cons? {
      assert top + (rel + [f.name]) == top + rel + [f.name];
      FlatShifts(top, rel + [f.name], f.tree);
      FlatForestShifts(top, rel, f.rest);
    }
  }

  /** Archive round trip. Into an empty staging directory, writing and extracting succeed
      together exactly for link-free trees within both budgets; then the disk holds the
      tree's own shape and bytes at the requested root, its parent directories, and nothing else. */
  lemma RoundTrip(fs: Fs, t: Tree, rootParts: Path, staging: string)
    requires WfTree(t) && AllProper(rootParts) && rootParts != []
    requires IsAbs(staging) && IsDir(fs, Components(staging))
    requires forall p :: p in fs ==> !(Components(staging) < p)
    ensures var root, top := Join(rootParts, '/'), Components(staging) + rootParts;
      var (items, written) := Emit(t, root);
      var (done, err) := Extract(fs, items, staging, root);
      && (written && err.None? <==> LinkFree(t) && Count(t) <= MAX_DOWNLOAD_ENTRIES && Size(t) <= MAX_DOWNLOAD_BYTES)
      && (written && err.None? ==>
            && done.fs == fs + Chain(Components(staging), Parent(rootParts)) + Flat(top, t)
            && Below(done.fs, top) == Flat([], t))
  {
    var root, base := Join(rootParts, '/'), Components(staging);
    var top := base + rootParts;
    var start := Progress(fs, 0, 0);
    var made := fs + Chain(base, Parent(rootParts));
    var items := Emit(t, root).0;
    WriterFinishes(t, root);
    LinkFreeIsWritable(t);
    if Writable(t) {
      MadeIsVacant(fs, base, rootParts);
      TreeExtracts(start, made, t, rootParts, rootParts, staging, []);
      assert items + [] == items;
      if LinkFree(t) && Room(start, Count(t), Size(t)) {
        ReadsBack(made, top, t);
      }
    }
  }

  lemma MadeIsVacant(fs: Fs, base: Path, rootParts: Path)
    requires rootParts != [] && IsDir(fs, base)
    requires forall p :: p in fs ==> !(base < p)
    ensures Vacant(Progress(fs, 0, 0), fs + Chain(base, Parent(rootParts)), base + rootParts)
  {
    var parent := Parent(rootParts);
    assert Parent(base + rootParts) == base + parent;
    MkdirAllAddsChain(fs, base, parent);
    MkdirAllOnlyAddsAncestors(fs, base, base + parent);
    assert base < base + rootParts;
  }

  lemma ReadsBack(made: Fs, top: Path, t: Tree)
    requires forall q :: q in made ==> !(top <= q)
    ensures Below(made + Flat(top, t), top) == Flat([], t)
  {
    hide Flat;
    assert top + [] == top;
    FlatShifts(top, [], t);
    assert forall q: Path :: top <= top + q;
  }
}
