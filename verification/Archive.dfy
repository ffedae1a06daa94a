// Archive transfer: the tree-to-archive writer of upload.go and the budgeted,
// path-checked extractor of download.go. An archive is its sequence of entries;
// the tar byte encoding is not part of this model.
module Archive {
  import opened Strings
  import opened Paths
  import opened Disk

  const MAX_DOWNLOAD_BYTES: Int64 := 0x1000_0000  // 256 MiB
  const MAX_DOWNLOAD_ENTRIES := 10_000

  datatype Kind = DirEntry | RegularEntry | SymlinkEntry | HardlinkEntry | OtherEntry

  /** `data` is what the stream still delivers for this entry; it may be shorter than `size`. */
  datatype Header = Header(name: string, kind: Kind, size: Int64, data: Bytes)

  /** What one call of tar.Reader.Next yields before the end of the stream. */
  datatype Item = Entry(header: Header) | Corrupt

  // ---------------------------------------------------------------- writer

  /** A local file tree, directory entries in the order ReadDir lists them. */
  datatype Tree = FileTree(data: Bytes) | LinkTree(target: string) | SpecialTree | DirTree(children: Forest)
  datatype Forest = Nil | Cons(name: string, tree: Tree, rest: Forest)

  function Names(f: Forest): set<string> {
    match f
    case Nil => {}
    case Cons(name, _, rest) => {name} + Names(rest)
  }

  /** Directory entries have ordinary, pairwise different names. */
  predicate WfTree(t: Tree) {
    t.DirTree? ==> WfForest(t.children)
  }

  predicate WfForest(f: Forest) {
    match f
    case Nil => true
    case Cons(name, tree, rest) => Proper(name) && name !in Names(rest) && WfTree(tree) && WfForest(rest)
  }

  function HeaderFor(t: Tree, archivePath: string): Header
    requires !t.SpecialTree?
  {
    match t
    case FileTree(data) => Header(archivePath, RegularEntry, |data|, data)
    case LinkTree(_) => Header(archivePath, SymlinkEntry, 0, [])
    case DirTree(_) => Header(if HasSuffix(archivePath, "/") then archivePath else archivePath + "/", DirEntry, 0, [])
  }

  /** The entries written for a tree, and whether the walk ended without an error. */
  function Emit(t: Tree, archivePath: string): (seq<Item>, bool) {
    match t
    case SpecialTree => ([], false)
    case DirTree(children) =>
      var (items, ok) := EmitForest(children, archivePath);
      ([Entry(HeaderFor(t, archivePath))] + items, ok)
    case _ => ([Entry(HeaderFor(t, archivePath))], true)
  }

  function EmitForest(f: Forest, archivePath: string): (seq<Item>, bool) {
    match f
    case Nil => ([], true)
    case Cons(name, tree, rest) =>
      var (items, ok) := Emit(tree, JoinPath(archivePath, name));
      if !ok then (items, false)
      else
        var (more, finished) := EmitForest(rest, archivePath);
        (items + more, finished)
  }

  /** tar.Writer as appendTarPath uses it: entries go out in the order written. */
  class ArchiveWriter {
    var items: seq<Item>

    constructor ()
      ensures items == []
    {
      items := [];
    }

    method AppendTarPath(t: Tree, archivePath: string) returns (ok: bool)
      modifies this
      ensures items == old(items) + Emit(t, archivePath).0
      ensures ok == Emit(t, archivePath).1
      decreases t
    {
      hide JoinPath, HeaderFor;
      if t.SpecialTree? {
        return false;
      }
      ghost var all, finished := old(items) + Emit(t, archivePath).0, Emit(t, archivePath).1;
      items := items + [Entry(HeaderFor(t, archivePath))];
      ok := true;
      if t.DirTree? {
        var todo := t.children;
        while todo.Cons?
          invariant ok && (todo == t.children || todo < t.children)
          invariant all == items + EmitForest(todo, archivePath).0
          invariant finished == EmitForest(todo, archivePath).1
          decreases todo
        {
          ghost var before := items;
          ok := AppendTarPath(todo.tree, JoinPath(archivePath, todo.name));
          if !ok {
            return;
          }
          assert all == before + (Emit(todo.tree, JoinPath(archivePath, todo.name)).0
                                  + EmitForest(todo.rest, archivePath).0);
          todo := todo.rest;
        }
      }
    }
  }

  // ------------------------------------------------------------- extractor

  datatype ExtractError =
    | BadStream | TooManyEntries | UnsafePath | OutsideOutput | EscapesStaging
    | DirectoryFailed | TooLarge | ParentFailed | FileFailed | ReadFailed
    | LinkRejected | Unsupported

  /** The extractor's state: the disk and its two counters. */
  datatype Progress = Progress(fs: Fs, entries: int, total: Int64)

  /** Two's-complement 64-bit arithmetic, as int64 computes it. */
  function Wrap64(x: int): Int64 {
    var m := (x + MAX_INT64 + 1) % 0x1_0000_0000_0000_0000;
    m - MAX_INT64 - 1
  }

  predicate UnsafeName(name: string) {
    name == "." || IsAbs(name) || name == ".." || HasPrefix(name, "../")
  }

  predicate InRequestedOutput(name: string, root: string) {
    name == root || HasPrefix(name, root + "/")
  }

  /** One regular entry: budget check, parents, exclusive creation, copy. */
  function ExtractFile(p: Progress, header: Header, destination: Path): (r: (Progress, Option<ExtractError>))
    ensures r.0.entries == p.entries
  {
    if header.size < 0 || p.total > Wrap64(MAX_DOWNLOAD_BYTES - header.size) then (p, Some(TooLarge))
    else if destination == [] then (p, Some(FileFailed))
    else
      match MkdirAll(p.fs, Parent(destination))
      case None => (p, Some(ParentFailed))
      case Some(made) =>
        var copied: Bytes := if |header.data| < header.size then header.data else header.data[..header.size];
        match CreateExclusive(made, destination, copied)
        case None => (p.(fs := made), Some(FileFailed))
        case Some(written) =>
          if |header.data| < header.size then (p.(fs := written), Some(ReadFailed))
          else (p.(fs := written, total := Wrap64(p.total + header.size)), None)
  }

  /** The checks made on a header before anything is created, in their order. */
  function Refusal(entries: int, name: string, staging: string, root: string): Option<ExtractError> {
    if entries > MAX_DOWNLOAD_ENTRIES then Some(TooManyEntries)
    else if UnsafeName(name) then Some(UnsafePath)
    else if !InRequestedOutput(name, root) then Some(OutsideOutput)
    else if !PathWithin(staging, JoinPath(staging, name)) then Some(EscapesStaging)
    else None
  }

  /** What an accepted header creates. */
  function Create(p: Progress, header: Header, destination: Path): (r: (Progress, Option<ExtractError>))
    ensures r.0.entries == p.entries
  {
    match header.kind
    case DirEntry =>
      (match MkdirAll(p.fs, destination)
       case None => (p, Some(DirectoryFailed))
       case Some(made) => (p.(fs := made), None))
    case RegularEntry => ExtractFile(p, header, destination)
    case SymlinkEntry | HardlinkEntry => (p, Some(LinkRejected))
    case OtherEntry => (p, Some(Unsupported))
  }

  /** One turn of the loop, for an item that is not the end of the stream. */
  function ExtractOne(p: Progress, item: Item, staging: string, root: string): (Progress, Option<ExtractError>) {
    if item.Corrupt? then (p, Some(BadStream))
    else
      var q := p.(entries := p.entries + 1);
      var name := Clean(item.header.name);
      var refusal := Refusal(q.entries, name, staging, root);
      if refusal.Some? then (q, refusal) else Create(q, item.header, Components(JoinPath(staging, name)))
  }

  function ExtractFrom(p: Progress, items: seq<Item>, staging: string, root: string): (Progress, Option<ExtractError>)
    decreases items
  {
    if items == [] then (p, None)
    else
      var (next, err) := ExtractOne(p, items[0], staging, root);
      if err.Some? then (next, err) else ExtractFrom(next, items[1..], staging, root)
  }

  lemma ExtractFromTurn(p: Progress, items: seq<Item>, i: nat, staging: string, root: string)
    requires i < |items|
    ensures ExtractFrom(p, items[i..], staging, root)
         == var (next, err) := ExtractOne(p, items[i], staging, root);
            if err.Some? then (next, err) else ExtractFrom(next, items[i + 1..], staging, root)
  {
    assert items[i..][0] == items[i] && items[i..][1..] == items[i + 1..];
  }

  function Extract(fs: Fs, items: seq<Item>, staging: string, root: string): (Progress, Option<ExtractError>) {
    ExtractFrom(Progress(fs, 0, 0), items, staging, root)
  }

  class Extractor {
    var nodes: Fs

    constructor (fs: Fs)
      ensures nodes == fs
    {
      nodes := fs;
    }

    /** extractDownloadTar. */
    method ExtractDownloadTar(items: seq<Item>, staging: string, root: string) returns (err: Option<ExtractError>)
      modifies this
      ensures nodes == Extract(old(nodes), items, staging, root).0.fs
      ensures err == Extract(old(nodes), items, staging, root).1
    {
      var entries := 0;
      var totalBytes: Int64 := 0;
      var i := 0;
      ghost var whole := Extract(nodes, items, staging, root);
      assert items[0..] == items;
      while i < |items|
        invariant 0 <= i <= |items|
        invariant ExtractFrom(Progress(nodes, entries, totalBytes), items[i..], staging, root)
               == whole
      {
        ExtractFromTurn(Progress(nodes, entries, totalBytes), items, i, staging, root);
        if items[i].Corrupt? {
          return Some(BadStream);
        }
        var header := items[i].header;
        entries := entries + 1;
        var name := Clean(header.name);
        var refusal := Refusal(entries, name, staging, root);
        if refusal.Some? {
          return refusal;
        }
        var (next, failure) := Create(Progress(nodes, entries, totalBytes), header,
                                      Components(JoinPath(staging, name)));
        nodes, totalBytes := next.fs, next.total;
        if failure.Some? {
          return failure;
        }
        i := i + 1;
      }
      return None;
    }
  }
}
