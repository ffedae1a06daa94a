// What extraction may touch, and how far its budgets reach, for every entry sequence.
module ArchiveSafety {
  import opened Strings
  import opened Paths
  import opened Disk
  import opened Archive
  import opened ArchiveNames

  /** Strictly under staging, and on the way to the requested root or below it. */
  predicate OnRequestedPath(p: Path, staging: Path, rootParts: Path) {
    staging < p && (p <= staging + rootParts || staging + rootParts <= p)
  }

  /** `after` keeps every node of `before` and adds only nodes on the requested path. */
  ghost predicate Contained(before: Fs, after: Fs, staging: Path, rootParts: Path) {
    && (forall p :: p in before ==> p in after && after[p] == before[p])
    && (forall p :: p in after && p !in before ==> OnRequestedPath(p, staging, rootParts))
  }

  lemma PrefixesAreComparable(p: Path, staging: Path, parts: Path, rootParts: Path)
    requires staging < p && p <= staging + parts && rootParts <= parts
    ensures OnRequestedPath(p, staging, rootParts)
  {
    var full, top := staging + parts, staging + rootParts;
    assert top == full[..|top|] && p == full[..|p|];
    if |p| <= |top| {
      assert p == top[..|p|];
    } else {
      assert top == p[..|top|];
    }
  }

  lemma CreateIsContained(p: Progress, header: Header, top: Path, parts: Path, rootParts: Path)
    requires IsDir(p.fs, top) && parts != [] && rootParts <= parts
    ensures Contained(p.fs, Create(p, header, top + parts).0.fs, top, rootParts)
    ensures IsDir(Create(p, header, top + parts).0.fs, top)
    ensures Create(p, header, top + parts).1 != Some(EscapesStaging)
  {
    var destination := top + parts;
    var after := Create(p, header, destination).0.fs;
    if header.kind == DirEntry && MkdirAll(p.fs, destination).Some? {
      MkdirAllOnlyAddsAncestors(p.fs, top, destination);
    }
    if header.kind == RegularEntry && MkdirAll(p.fs, Parent(destination)).Some? {
      assert top <= Parent(destination);
      MkdirAllOnlyAddsAncestors(p.fs, top, Parent(destination));
      assert destination == Parent(destination) + [parts[|parts| - 1]];
    }
    forall q | q in after && q !in p.fs ensures OnRequestedPath(q, top, rootParts) {
      assert top < q && q <= destination;
      PrefixesAreComparable(q, top, parts, rootParts);
    }
  }

  lemma NothingCreated(fs: Fs, staging: Path, rootParts: Path)
    ensures Contained(fs, fs, staging, rootParts)
  {}

  lemma TurnIsContained(p: Progress, item: Item, staging: string, root: string)
    requires IsAbs(staging) && IsDir(p.fs, Components(staging))
    ensures Contained(p.fs, ExtractOne(p, item, staging, root).0.fs, Components(staging), Split(root, '/'))
    ensures ExtractOne(p, item, staging, root).1 != Some(EscapesStaging)
  {
    hide Create, Contained, Clean, Components, Split, JoinPath, PathWithin, UnsafeName, InRequestedOutput, IsAbs;
    NothingCreated(p.fs, Components(staging), Split(root, '/'));
    if item.Entry? {
      var raw := item.header.name;
      var q := p.(entries := p.entries + 1);
      if !UnsafeName(Clean(raw)) && InRequestedOutput(Clean(raw), root) {
        AcceptedNameShape(raw, root, staging);
        CreateIsContained(q, item.header, Components(staging), Components(raw), Split(root, '/'));
      }
    }
  }

  /** For every entry sequence, well-formed or not: nothing existing changes, everything created
      is on the requested path, and the check on the joined path never fires. */
  lemma {:induction false} ExtractionIsContained(p: Progress, items: seq<Item>, staging: string, root: string)
    requires IsAbs(staging) && IsDir(p.fs, Components(staging))
    ensures Contained(p.fs, ExtractFrom(p, items, staging, root).0.fs, Components(staging), Split(root, '/'))
    ensures ExtractFrom(p, items, staging, root).1 != Some(EscapesStaging)
    decreases items
  {
    if items != [] {
      TurnIsContained(p, items[0], staging, root);
      var (next, err) := ExtractOne(p, items[0], staging, root);
      if err.None? {
        ExtractionIsContained(next, items[1..], staging, root);
      }
    }
  }

  /** The 64-bit guard decides the mathematical budget exactly and never wraps. */
  lemma BudgetGuardIsExact(total: Int64, size: Int64)
    requires 0 <= total <= MAX_DOWNLOAD_BYTES
    ensures (size < 0 || total > Wrap64(MAX_DOWNLOAD_BYTES - size)) <==>
      !(0 <= size && total + size <= MAX_DOWNLOAD_BYTES)
    ensures 0 <= size ==> Wrap64(MAX_DOWNLOAD_BYTES - size) == MAX_DOWNLOAD_BYTES - size
    ensures 0 <= size && total + size <= MAX_DOWNLOAD_BYTES ==> Wrap64(total + size) == total + size
  {
  }

  function RegularSize(item: Item): int {
    if item.Entry? && item.header.kind == RegularEntry then item.header.size else 0
  }

  function RegularBytes(items: seq<Item>): int
    decreases items
  {
    if items == [] then 0 else RegularSize(items[0]) + RegularBytes(items[1..])
  }

  lemma CreateBudget(p: Progress, header: Header, destination: Path)
    requires 0 <= p.total <= MAX_DOWNLOAD_BYTES
    ensures var (q, err) := Create(p, header, destination);
      && q.entries == p.entries
      && 0 <= q.total <= MAX_DOWNLOAD_BYTES
      && (err.None? ==> q.total == p.total + RegularSize(Entry(header)))
  {
    BudgetGuardIsExact(p.total, header.size);
  }

  lemma TurnBudget(p: Progress, item: Item, staging: string, root: string)
    requires 0 <= p.entries <= MAX_DOWNLOAD_ENTRIES && 0 <= p.total <= MAX_DOWNLOAD_BYTES
    ensures var (q, err) := ExtractOne(p, item, staging, root);
      && q.entries == p.entries + (if item.Entry? then 1 else 0)
      && 0 <= q.total <= MAX_DOWNLOAD_BYTES
      && (q.entries > MAX_DOWNLOAD_ENTRIES ==> err == Some(TooManyEntries))
      && (err.None? ==> item.Entry? && q.total == p.total + RegularSize(item))
  {
    hide Clean, JoinPath, Components, Refusal, Create;
    if item.Entry? {
      var q := p.(entries := p.entries + 1);
      var name := Clean(item.header.name);
      RefusalForCount(q.entries, name, staging, root);
      if Refusal(q.entries, name, staging, root).None? {
        CreateBudget(q, item.header, Components(JoinPath(staging, name)));
      }
    }
  }

  lemma RefusalForCount(entries: int, name: string, staging: string, root: string)
    ensures entries > MAX_DOWNLOAD_ENTRIES ==> Refusal(entries, name, staging, root) == Some(TooManyEntries)
  {
  }

  /** Budgets: whatever the stream says, at most 256 MiB are accepted and at most one entry
      past 10,000 is looked at; an accepted archive is accounted for to the byte. */
  lemma {:induction false} BudgetsHold(p: Progress, items: seq<Item>, staging: string, root: string)
    requires 0 <= p.entries <= MAX_DOWNLOAD_ENTRIES && 0 <= p.total <= MAX_DOWNLOAD_BYTES
    ensures var (q, err) := ExtractFrom(p, items, staging, root);
      && 0 <= q.total <= MAX_DOWNLOAD_BYTES
      && q.entries <= MAX_DOWNLOAD_ENTRIES + 1
      && (q.entries > MAX_DOWNLOAD_ENTRIES ==> err == Some(TooManyEntries))
      && (err.None? ==> q.entries == p.entries + |items| && q.total == p.total + RegularBytes(items))
    decreases items
  {
    if items != [] {
      var (next, err) := ExtractOne(p, items[0], staging, root);
      TurnBudget(p, items[0], staging, root);
      if err.None? {
        BudgetsHold(next, items[1..], staging, root);
      }
    }
  }

  // --------------------------------------------------- what reaches the disk

  lemma {:induction false} MkdirAllAdds(fs: Fs, p: Path)
    requires MkdirAll(fs, p).Some?
    ensures var made := MkdirAll(fs, p).value;
      && (forall q :: q in fs ==> q in made && made[q] == fs[q])
      && (forall q :: q in made && q !in fs ==> q <= p && made[q] == Dir)
    decreases |p|
  {
    if p !in fs {
      MkdirAllAdds(fs, Parent(p));
    }
  }

  /** `path` is a file of `after` that `before` did not have. */
  predicate NewFile(before: Fs, after: Fs, path: Path) {
    path !in before && path in after && after[path].File?
  }

  predicate Keeps(before: Fs, after: Fs) {
    forall q :: q in before ==> q in after && after[q] == before[q]
  }

  /** The file an entry would become. */
  function Destination(item: Item, staging: string): Path
    requires item.Entry?
  {
    Components(JoinPath(staging, Clean(item.header.name)))
  }

  /** The file one turn creates, if any. */
  function TurnFiles(p: Progress, item: Item, staging: string, root: string): (files: seq<Path>)
    ensures |files| <= 1
  {
    if item.Entry? && NewFile(p.fs, ExtractOne(p, item, staging, root).0.fs, Destination(item, staging))
    then [Destination(item, staging)] else []
  }

  /** The files an extraction creates, in order. */
  function FilesCreated(p: Progress, items: seq<Item>, staging: string, root: string): seq<Path>
    decreases items
  {
    if items == [] then []
    else
      var (next, err) := ExtractOne(p, items[0], staging, root);
      TurnFiles(p, items[0], staging, root) + if err.Some? then [] else FilesCreated(next, items[1..], staging, root)
  }

  /** The bytes the listed files hold. */
  function BytesIn(fs: Fs, files: seq<Path>): nat
    decreases files
  {
    if files == [] then 0
    else (if files[0] in fs && fs[files[0]].File? then |fs[files[0]].data| else 0) + BytesIn(fs, files[1..])
  }

  lemma {:induction false} BytesConcat(fs: Fs, a: seq<Path>, b: seq<Path>)
    ensures BytesIn(fs, a + b) == BytesIn(fs, a) + BytesIn(fs, b)
    decreases a
  {
    if a == [] {
      assert a + b == b;
    } else {
      assert (a + b)[1..] == a[1..] + b;
      BytesConcat(fs, a[1..], b);
    }
  }

  lemma FileWrites(p: Progress, header: Header, destination: Path)
    requires 0 <= p.total <= MAX_DOWNLOAD_BYTES && destination != []
    ensures var (q, err) := ExtractFile(p, header, destination);
      && Keeps(p.fs, q.fs)
      && (forall path :: NewFile(p.fs, q.fs, path) ==> path == destination)
      && (NewFile(p.fs, q.fs, destination) ==> p.total + |q.fs[destination].data| <= MAX_DOWNLOAD_BYTES)
      && (err.None? ==> NewFile(p.fs, q.fs, destination) && q.total == p.total + |q.fs[destination].data|)
  {
    BudgetGuardIsExact(p.total, header.size);
    if MkdirAll(p.fs, Parent(destination)).Some? {
      MkdirAllAdds(p.fs, Parent(destination));
      hide MkdirAll;
    }
  }

  /** One turn creates at most its own file, within what is left of the budget, and a
      turn that ends well accounts for it. */
  lemma TurnWrites(p: Progress, item: Item, staging: string, root: string)
    requires 0 <= p.total <= MAX_DOWNLOAD_BYTES
    ensures var (q, err) := ExtractOne(p, item, staging, root);
      var files := TurnFiles(p, item, staging, root);
      && Keeps(p.fs, q.fs)
      && (forall path :: NewFile(p.fs, q.fs, path) <==> path in files)
      && p.total + BytesIn(q.fs, files) <= MAX_DOWNLOAD_BYTES
      && (err.None? ==> q.total == p.total + BytesIn(q.fs, files))
  {
    hide ExtractFile, Refusal, Clean, JoinPath, Components;
    if item.Entry? {
      var d := Destination(item, staging);
      var q := p.(entries := p.entries + 1);
      if item.header.kind == RegularEntry && Refusal(q.entries, Clean(item.header.name), staging, root).None? {
        if d != [] {
          FileWrites(q, item.header, d);
        } else {
          RootIsNoFile(q, item.header);
        }
      }
      if item.header.kind == DirEntry && MkdirAll(p.fs, d).Some? {
        MkdirAllAdds(p.fs, d);
      }
      hide MkdirAll;
    }
  }

  lemma RootIsNoFile(p: Progress, header: Header)
    ensures ExtractFile(p, header, []).0 == p && ExtractFile(p, header, []).1.Some?
  {}

  /** What reaches the disk: whichever way an extraction ends, a copy cut short included,
      the files it created are those listed, each once, and together they hold at most
      256 MiB. */
  lemma {:induction false} BytesOnDisk(p: Progress, items: seq<Item>, staging: string, root: string)
    requires 0 <= p.total <= MAX_DOWNLOAD_BYTES
    ensures var (q, err) := ExtractFrom(p, items, staging, root);
      var files := FilesCreated(p, items, staging, root);
      && Keeps(p.fs, q.fs)
      && (forall path :: NewFile(p.fs, q.fs, path) <==> path in files)
      && (forall i, j :: 0 <= i < j < |files| ==> files[i] != files[j])
      && p.total + BytesIn(q.fs, files) <= MAX_DOWNLOAD_BYTES
    decreases items
  {
    if items != [] {
      var (next, err) := ExtractOne(p, items[0], staging, root);
      TurnWrites(p, items[0], staging, root);
      if err.None? {
        hide ExtractOne;
        var q := ExtractFrom(next, items[1..], staging, root).0;
        var first, rest := TurnFiles(p, items[0], staging, root), FilesCreated(next, items[1..], staging, root);
        BytesOnDisk(next, items[1..], staging, root);
        FilesAddUp(p.fs, next.fs, q.fs, first, rest);
      }
    }
  }

  lemma FilesAddUp(before: Fs, between: Fs, after: Fs, first: seq<Path>, rest: seq<Path>)
    requires Keeps(before, between) && Keeps(between, after) && |first| <= 1
    requires forall path :: NewFile(before, between, path) <==> path in first
    requires forall path :: NewFile(between, after, path) <==> path in rest
    requires forall i, j :: 0 <= i < j < |rest| ==> rest[i] != rest[j]
    ensures Keeps(before, after)
    ensures forall path :: NewFile(before, after, path) <==> path in first + rest
    ensures forall i, j :: 0 <= i < j < |first + rest| ==> (first + rest)[i] != (first + rest)[j]
    ensures BytesIn(after, first + rest) == BytesIn(between, first) + BytesIn(after, rest)
  {
    BytesConcat(after, first, rest);
    if first != [] {
      assert first[0] in first && NewFile(before, between, first[0]);
      assert first == [first[0]] && first[1..] == [];
      forall j | 0 <= j < |rest| ensures rest[j] != first[0] {
        assert rest[j] in rest && NewFile(between, after, rest[j]);
      }
    }
    forall path ensures NewFile(before, after, path) <==> path in first + rest {
      assert path in first + rest <==> path in first || path in rest;
    }
  }
}
