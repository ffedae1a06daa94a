// Which archives the extractor accepts, and what the disk is like afterwards: for every
// entry sequence, whoever wrote it.
module ArchiveAcceptance {
  import opened Paths
  import opened Disk
  import opened Archive
  import opened ArchiveNames
  import opened ArchiveSafety

  predicate IsFile(item: Item) {
    item.Entry? && item.header.kind == RegularEntry
  }

  /** What an entry must be like by itself: a directory or a complete regular file, under an
      ordinary name at or below the requested root. */
  predicate GoodEntry(item: Item, root: string) {
    && item.Entry?
    && (item.header.kind == DirEntry || item.header.kind == RegularEntry)
    && !UnsafeName(Clean(item.header.name)) && InRequestedOutput(Clean(item.header.name), root)
    && (IsFile(item) ==> 0 <= item.header.size <= |item.header.data|)
  }

  /** `q` is `p` or a directory on the way to it. */
  predicate OnWay(q: Path, p: Path) {
    q <= p
  }

  /** Room for a node at `d`: no file on the way; for a file also nothing at `d` itself. */
  ghost predicate RoomFor(fs: Fs, d: Path, file: bool) {
    && (forall q :: q in fs && OnWay(q, d) && q != d ==> fs[q].Dir?)
    && (d in fs ==> !file && fs[d].Dir?)
  }

  /** Two nodes that can stand on one disk when `later` is created after `earlier`. */
  predicate Compatible(earlier: Path, earlierFile: bool, later: Path, laterFile: bool) {
    (earlierFile ==> !OnWay(earlier, later)) && (laterFile ==> !OnWay(later, earlier))
  }

  /** `after` is `before` with a node at `d` and the directories on the way to it. */
  ghost predicate Grew(before: Fs, after: Fs, d: Path, node: Node) {
    && (forall q :: q in after <==> q in before || OnWay(q, d))
    && (forall q :: q in before ==> after[q] == before[q])
    && (forall q :: q in after && q !in before ==> after[q] == if q == d then node else Dir)
  }

  lemma OnWayToParent(q: Path, p: Path)
    requires p != []
    ensures OnWay(q, p) <==> OnWay(q, Parent(p)) || q == p
    ensures !OnWay(p, Parent(p)) && OnWay(Parent(p), p) && Parent(p) != p
  {
    PrefixOfExtension(q, Parent(p), p[|p| - 1]);
    assert p == Parent(p) + [p[|p| - 1]];
  }

  lemma OnWayTransitive(a: Path, b: Path, c: Path)
    requires OnWay(a, b) && OnWay(b, c)
    ensures OnWay(a, c)
  {
    assert a == b[..|a|] == c[..|a|];
  }

  /** On a well-formed disk everything on the way to an existing node is a directory. */
  lemma {:induction false} WayExists(fs: Fs, p: Path, q: Path)
    requires WellFormed(fs) && p in fs && OnWay(q, p) && q != p
    ensures q in fs && fs[q].Dir?
    decreases |p|
  {
    OnWayToParent(q, p);
    if q != Parent(p) {
      WayExists(fs, Parent(p), q);
    }
  }

  /** MkdirAll succeeds exactly where no file is in the way, and then adds the way. */
  lemma {:induction false} MkdirAllGrows(fs: Fs, p: Path)
    requires WellFormed(fs) && [] in fs && fs[[]].Dir?
    ensures MkdirAll(fs, p).Some? <==> RoomFor(fs, p, false)
    ensures MkdirAll(fs, p).Some? ==> Grew(fs, MkdirAll(fs, p).value, p, Dir)
    decreases |p|
  {
    if p in fs {
      hide OnWay;
      forall q | OnWay(q, p) && q != p ensures q in fs && fs[q].Dir? {
        WayExists(fs, p, q);
      }
    } else {
      hide OnWay, WellFormed;
      MkdirAllGrows(fs, Parent(p));
      forall q ensures OnWay(q, p) <==> OnWay(q, Parent(p)) || q == p {
        OnWayToParent(q, p);
      }
      OnWayToParent(p, p);
    }
  }

  lemma GrewKeepsWellFormed(before: Fs, after: Fs, d: Path, node: Node)
    requires WellFormed(before) && RoomFor(before, d, node.File?) && Grew(before, after, d, node)
    ensures WellFormed(after)
  {
    hide OnWay;
    forall p | p in after && p != [] ensures IsDir(after, Parent(p)) {
      OnWayToParent(Parent(p), p);
      OnWayToParent(p, p);
      if p !in before {
        OnWayTransitive(Parent(p), p, d);
        NotBelowItself(Parent(p), p, d);
      }
    }
  }

  lemma NotBelowItself(a: Path, b: Path, c: Path)
    requires OnWay(a, b) && OnWay(b, c) && a != b
    ensures a != c
  {}

  /** The node an accepted entry becomes. */
  function NodeOf(item: Item): Node
    requires item.Entry? && (IsFile(item) ==> 0 <= item.header.size <= |item.header.data|)
  {
    if IsFile(item) then File(item.header.data[..item.header.size]) else Dir
  }

  /** One regular entry is accepted exactly when it is complete, within the budget, and there is
      room for it; then the disk grows by it. */
  lemma FileAccepted(p: Progress, header: Header, d: Path)
    requires WellFormed(p.fs) && [] in p.fs && p.fs[[]].Dir? && d != [] && 0 <= p.total <= MAX_DOWNLOAD_BYTES
    ensures var (q, err) := ExtractFile(p, header, d);
      && (err.None? <==> 0 <= header.size <= |header.data| && p.total + header.size <= MAX_DOWNLOAD_BYTES
                         && RoomFor(p.fs, d, true))
      && (err.None? ==> q.total == p.total + header.size && Grew(p.fs, q.fs, d, File(header.data[..header.size])))
  {
    hide MkdirAll, WellFormed, OnWay;
    BudgetGuardIsExact(p.total, header.size);
    MkdirAllGrows(p.fs, Parent(d));
    forall q ensures OnWay(q, d) <==> OnWay(q, Parent(d)) || q == d {
      OnWayToParent(q, d);
    }
    OnWayToParent(d, d);
  }

  /** What an extraction starts from: a well-formed disk, an absolute staging directory,
      and counters within their budgets. */
  ghost predicate Sound(p: Progress, staging: string) {
    && IsAbs(staging) && WellFormed(p.fs) && [] in p.fs && p.fs[[]].Dir?
    && 0 <= p.entries <= MAX_DOWNLOAD_ENTRIES && 0 <= p.total <= MAX_DOWNLOAD_BYTES
  }

  lemma CreateAccepted(p: Progress, header: Header, d: Path)
    requires WellFormed(p.fs) && [] in p.fs && p.fs[[]].Dir? && d != [] && 0 <= p.total <= MAX_DOWNLOAD_BYTES
    requires header.kind == DirEntry || header.kind == RegularEntry
    ensures var (q, err) := Create(p, header, d);
      var file := header.kind == RegularEntry;
      && (err.None? <==>
            && (file ==> 0 <= header.size <= |header.data| && p.total + header.size <= MAX_DOWNLOAD_BYTES)
            && RoomFor(p.fs, d, file))
      && (err.None? ==>
            && q.entries == p.entries && q.total == p.total + RegularSize(Entry(header))
            && Grew(p.fs, q.fs, d, NodeOf(Entry(header))))
  {
    hide MkdirAll, WellFormed, OnWay, ExtractFile, Grew, RoomFor;
    MkdirAllGrows(p.fs, d);
    FileAccepted(p, header, d);
  }

  lemma OthersRefused(p: Progress, header: Header, d: Path)
    requires header.kind != DirEntry && header.kind != RegularEntry
    ensures Create(p, header, d).1.Some? && Create(p, header, d).0 == p
  {}

  /** One turn is accepted exactly when its entry is good, within both budgets, and there is
      room for it; then the disk grows by it and the counters count it. */
  lemma TurnAccepted(p: Progress, item: Item, staging: string, root: string)
    requires Sound(p, staging)
    ensures var (q, err) := ExtractOne(p, item, staging, root);
      && (err.None? <==>
            && GoodEntry(item, root) && p.entries + 1 <= MAX_DOWNLOAD_ENTRIES
            && p.total + RegularSize(item) <= MAX_DOWNLOAD_BYTES
            && RoomFor(p.fs, Destination(item, staging), IsFile(item)))
      && (err.None? ==>
            && q.entries == p.entries + 1 && q.total == p.total + RegularSize(item)
            && Grew(p.fs, q.fs, Destination(item, staging), NodeOf(item)))
  {
    hide WellFormed, OnWay, Create, Grew, RoomFor, Clean, JoinPath, Components, PathWithin, UnsafeName,
      InRequestedOutput;
    if item.Entry? && !UnsafeName(Clean(item.header.name)) && InRequestedOutput(Clean(item.header.name), root) {
      AcceptedNameShape(item.header.name, root, staging);
      SafeNameShape(item.header.name);
      if item.header.kind == DirEntry || item.header.kind == RegularEntry {
        CreateAccepted(p.(entries := p.entries + 1), item.header, Destination(item, staging));
      } else {
        OthersRefused(p.(entries := p.entries + 1), item.header, Destination(item, staging));
      }
    }
  }

  /** Room is kept for everything compatible with what was just created, and for nothing else. */
  lemma RoomAfter(before: Fs, after: Fs, d: Path, node: Node, later: Path, laterFile: bool)
    requires WellFormed(before) && RoomFor(before, d, node.File?) && Grew(before, after, d, node)
    ensures RoomFor(after, later, laterFile) <==>
      RoomFor(before, later, laterFile) && Compatible(d, node.File?, later, laterFile)
  {
    hide WellFormed;
    if RoomFor(after, later, laterFile) {
      assert d in after && OnWay(d, d);
      assert forall q :: q in before ==> q in after && after[q] == before[q];
    }
    if RoomFor(before, later, laterFile) && Compatible(d, node.File?, later, laterFile) {
      assert later in after ==> later in before || OnWay(later, d);
    }
  }

  ghost predicate FitsDisk(fs: Fs, item: Item, staging: string, root: string) {
    GoodEntry(item, root) && RoomFor(fs, Destination(item, staging), IsFile(item))
  }

  predicate FitsAfter(earlier: Item, later: Item, staging: string) {
    && earlier.Entry? && later.Entry?
    && Compatible(Destination(earlier, staging), IsFile(earlier), Destination(later, staging), IsFile(later))
  }

  /** Every entry is good by itself, there is room for it on the first disk, and no two
      entries are in each other's way. */
  ghost predicate FitTogether(fs: Fs, items: seq<Item>, staging: string, root: string) {
    && (forall i :: 0 <= i < |items| ==> FitsDisk(fs, items[i], staging, root))
    && (forall i, j :: 0 <= i < j < |items| ==> FitsAfter(items[i], items[j], staging))
  }

  lemma FitsNext(before: Fs, after: Fs, first: Item, later: Item, staging: string, root: string)
    requires FitsDisk(before, first, staging, root) && WellFormed(before)
    requires Grew(before, after, Destination(first, staging), NodeOf(first))
    ensures FitsDisk(after, later, staging, root) <==>
      FitsDisk(before, later, staging, root) && FitsAfter(first, later, staging)
  {
    hide WellFormed, Grew, RoomFor, Compatible, Destination, InRequestedOutput, UnsafeName, Clean;
    if later.Entry? {
      RoomAfter(before, after, Destination(first, staging), NodeOf(first), Destination(later, staging), IsFile(later));
    }
  }

  lemma FitAfterFirst(before: Fs, after: Fs, items: seq<Item>, staging: string, root: string)
    requires items != [] && FitsDisk(before, items[0], staging, root) && WellFormed(before)
    requires Grew(before, after, Destination(items[0], staging), NodeOf(items[0]))
    ensures FitTogether(before, items, staging, root) <==> FitTogether(after, items[1..], staging, root)
  {
    hide WellFormed, Grew, FitsDisk, FitsAfter;
    var rest := items[1..];
    forall j | 0 <= j < |rest|
      ensures FitsDisk(after, rest[j], staging, root) <==>
        FitsDisk(before, items[j + 1], staging, root) && FitsAfter(items[0], items[j + 1], staging)
    {
      FitsNext(before, after, items[0], rest[j], staging, root);
    }
    if FitTogether(after, rest, staging, root) {
      forall i | 0 <= i < |items| ensures FitsDisk(before, items[i], staging, root) {
        if i > 0 {
          assert FitsDisk(after, rest[i - 1], staging, root);
        }
      }
      forall i, j | 0 <= i < j < |items| ensures FitsAfter(items[i], items[j], staging) {
        if i > 0 {
          assert FitsAfter(rest[i - 1], rest[j - 1], staging);
        } else {
          assert FitsDisk(after, rest[j - 1], staging, root);
        }
      }
    }
  }

  /**
   * Which archives are accepted, whoever wrote them: exactly those whose entries are all
   * directories and complete regular files under ordinary names at or below the requested
   * root, within both budgets, with room on the disk, and not in each other's way.
   */
  lemma {:induction false} AcceptsExactly(p: Progress, items: seq<Item>, staging: string, root: string)
    requires Sound(p, staging)
    ensures ExtractFrom(p, items, staging, root).1.None? <==>
      && p.entries + |items| <= MAX_DOWNLOAD_ENTRIES
      && p.total + RegularBytes(items) <= MAX_DOWNLOAD_BYTES
      && FitTogether(p.fs, items, staging, root)
    decreases items
  {
    if items != [] {
      hide ExtractOne, Grew, RoomFor, WellFormed, GoodEntry, FitTogether, Destination;
      var (next, err) := ExtractOne(p, items[0], staging, root);
      TurnAccepted(p, items[0], staging, root);
      if FitTogether(p.fs, items, staging, root) {
        SizesAreSmall(p.fs, items, staging, root);
        FirstFits(p.fs, items, staging, root);
      }
      if err.None? {
        GrewKeepsWellFormed(p.fs, next.fs, Destination(items[0], staging), NodeOf(items[0]));
        GrewKeepsRoot(p.fs, next.fs, Destination(items[0], staging), NodeOf(items[0]));
        AcceptsExactly(next, items[1..], staging, root);
        FitAfterFirst(p.fs, next.fs, items, staging, root);
      }
    }
  }

  lemma GrewKeepsRoot(before: Fs, after: Fs, d: Path, node: Node)
    requires [] in before && before[[]].Dir? && Grew(before, after, d, node)
    ensures [] in after && after[[]].Dir?
  {}

  lemma FirstFits(fs: Fs, items: seq<Item>, staging: string, root: string)
    requires items != [] && FitTogether(fs, items, staging, root)
    ensures FitsDisk(fs, items[0], staging, root) && FitTogether(fs, items[1..], staging, root)
  {
    hide FitsDisk, FitsAfter;
  }

  lemma {:induction false} SizesAreSmall(fs: Fs, items: seq<Item>, staging: string, root: string)
    requires FitTogether(fs, items, staging, root)
    ensures RegularBytes(items) >= 0
    ensures items != [] ==> RegularSize(items[0]) <= RegularBytes(items)
    decreases items
  {
    if items != [] {
      FirstFits(fs, items, staging, root);
      SizesAreSmall(fs, items[1..], staging, root);
    }
  }

  /** The entry is a directory or a regular file, and stands on the disk as it was sent. */
  predicate Stands(fs: Fs, item: Item, staging: string) {
    && item.Entry? && (item.header.kind == DirEntry || item.header.kind == RegularEntry)
    && (IsFile(item) ==> 0 <= item.header.size <= |item.header.data|)
    && Destination(item, staging) in fs && fs[Destination(item, staging)] == NodeOf(item)
  }

  lemma FirstStands(before: Fs, after: Fs, later: Fs, item: Item, staging: string, root: string)
    requires FitsDisk(before, item, staging, root) && WellFormed(before)
    requires Grew(before, after, Destination(item, staging), NodeOf(item))
    requires forall q :: q in after ==> q in later && later[q] == after[q]
    ensures Stands(later, item, staging)
    ensures forall q :: q in after && q !in before ==> OnWay(q, Destination(item, staging))
  {
    hide WellFormed, Destination, UnsafeName, InRequestedOutput, Clean;
    var d := Destination(item, staging);
    assert OnWay(d, d);
  }

  /** What an accepted archive leaves on the disk: a directory or the exact bytes at every
      entry's place, all that was there before, and on top of it nothing but the
      directories on the way to the entries. */
  lemma {:induction false} AcceptedDisk(p: Progress, items: seq<Item>, staging: string, root: string)
    requires Sound(p, staging) && ExtractFrom(p, items, staging, root).1.None?
    ensures var after := ExtractFrom(p, items, staging, root).0.fs;
      && (forall q :: q in p.fs ==> q in after && after[q] == p.fs[q])
      && (forall i :: 0 <= i < |items| ==> Stands(after, items[i], staging))
      && (forall q :: q in after && q !in p.fs ==>
            exists i :: 0 <= i < |items| && items[i].Entry? && OnWay(q, Destination(items[i], staging)))
    decreases items
  {
    if items != [] {
      hide ExtractOne, RoomFor, WellFormed, GoodEntry, Destination, Stands, OnWay;
      var (next, err) := ExtractOne(p, items[0], staging, root);
      TurnAccepted(p, items[0], staging, root);
      var d, node := Destination(items[0], staging), NodeOf(items[0]);
      GrewKeepsWellFormed(p.fs, next.fs, d, node);
      GrewKeepsRoot(p.fs, next.fs, d, node);
      var rest := items[1..];
      AcceptedDisk(next, rest, staging, root);
      var after := ExtractFrom(p, items, staging, root).0.fs;
      FirstStands(p.fs, next.fs, after, items[0], staging, root);
      forall i | 0 <= i < |items| ensures Stands(after, items[i], staging) {
        if i > 0 {
          assert items[i] == rest[i - 1];
        }
      }
      forall q | q in after && q !in p.fs
        ensures exists i :: 0 <= i < |items| && items[i].Entry? && OnWay(q, Destination(items[i], staging))
      {
        if q in next.fs {
          assert OnWay(q, Destination(items[0], staging));
        } else {
          var i :| 0 <= i < |rest| && rest[i].Entry? && OnWay(q, Destination(rest[i], staging));
          assert items[i + 1] == rest[i];
        }
      }
    }
  }

  /** What an error says about the entry it was reported for. */
  predicate CausedBy(e: ExtractError, item: Item, staging: string, root: string) {
    match e
    case BadStream => item == Corrupt
    case UnsafePath => item.Entry? && UnsafeName(Clean(item.header.name))
    case OutsideOutput => item.Entry? && !InRequestedOutput(Clean(item.header.name), root)
    case EscapesStaging => item.Entry? && !PathWithin(staging, JoinPath(staging, Clean(item.header.name)))
    case LinkRejected => item.Entry? && (item.header.kind == SymlinkEntry || item.header.kind == HardlinkEntry)
    case Unsupported => item.Entry? && item.header.kind == OtherEntry
    case DirectoryFailed => item.Entry? && item.header.kind == DirEntry
    case ReadFailed => IsFile(item) && |item.header.data| < item.header.size
    case TooLarge => IsFile(item)
    case ParentFailed => IsFile(item)
    case FileFailed => IsFile(item)
    case TooManyEntries => item.Entry?
  }

  lemma TurnCause(p: Progress, item: Item, staging: string, root: string)
    ensures var err := ExtractOne(p, item, staging, root).1;
      err.Some? ==> CausedBy(err.value, item, staging, root)
  {
    hide MkdirAll, CreateExclusive, Clean, JoinPath, PathWithin, UnsafeName, InRequestedOutput, Components;
  }

  /** Every error is about an entry that deserves it, and all entries before were accepted. */
  lemma {:induction false} ErrorsHaveCauses(p: Progress, items: seq<Item>, staging: string, root: string)
    ensures var err := ExtractFrom(p, items, staging, root).1;
      err.Some? ==>
        exists i :: 0 <= i < |items| && ExtractFrom(p, items[..i], staging, root).1.None?
                    && CausedBy(err.value, items[i], staging, root)
    decreases items
  {
    if items != [] {
      hide ExtractOne, CausedBy;
      var (next, err) := ExtractOne(p, items[0], staging, root);
      TurnCause(p, items[0], staging, root);
      if err.Some? {
        assert items[..0] == [];
      } else if ExtractFrom(p, items, staging, root).1.Some? {
        var rest := items[1..];
        ErrorsHaveCauses(next, rest, staging, root);
        var e := ExtractFrom(p, items, staging, root).1.value;
        var i :| 0 <= i < |rest|
          && ExtractFrom(next, rest[..i], staging, root).1.None? && CausedBy(e, rest[i], staging, root);
        assert items[..i + 1][0] == items[0] && items[..i + 1][1..] == rest[..i] && items[i + 1] == rest[i];
      }
    }
  }
}
