// The abstract host file system: a finite map from component lists to nodes.
// Modes, ownership and symbolic links on the host are not part of this model.
module Disk {
  import opened Strings

  type Path = seq<string>

  type Byte = b: int | 0 <= b < 256

  const MAX_INT64 := 0x7FFF_FFFF_FFFF_FFFF

  type Int64 = x: int | -MAX_INT64 - 1 <= x <= MAX_INT64

  /** File contents: a length the platform can report in a signed 64-bit size. */
  type Bytes = s: seq<Byte> | |s| <= MAX_INT64

  datatype Node = Dir | File(data: Bytes)

  type Fs = map<Path, Node>

  function Parent(p: Path): Path
    requires p != []
  {
    p[..|p| - 1]
  }

  predicate IsDir(fs: Fs, p: Path) {
    p in fs && fs[p].Dir?
  }

  /** Every node other than the root sits in a directory. */
  ghost predicate WellFormed(fs: Fs) {
    forall p :: p in fs && p != [] ==> IsDir(fs, Parent(p))
  }

  /** os.MkdirAll: None when a component exists and is not a directory. */
  function MkdirAll(fs: Fs, p: Path): Option<Fs>
    decreases |p|
  {
    if p in fs then (if fs[p].Dir? then Some(fs) else None)
    else if p == [] then None
    else
      match MkdirAll(fs, Parent(p))
      case None => None
      case Some(made) => Some(made[p := Dir])
  }

  /** os.OpenFile with O_CREATE|O_EXCL followed by a write. */
  function CreateExclusive(fs: Fs, p: Path, data: Bytes): Option<Fs> {
    if p == [] || p in fs || !IsDir(fs, Parent(p)) then None else Some(fs[p := File(data)])
  }

  /** What lies at or below `top`, addressed relative to it. */
  function Below(fs: Fs, top: Path): (sub: Fs)
    ensures forall q :: q in sub <==> top + q in fs
    ensures forall q :: q in sub ==> sub[q] == fs[top + q]
  {
    var keys := set p | p in fs && top <= p :: p[|top|..];
    assert forall p :: p in fs && top <= p ==> p == top + p[|top|..];
    assert forall q: Path :: top + q in fs ==> (top + q)[|top|..] == q;
    map q | q in keys :: fs[top + q]
  }

  /** The directories on the way from `top` down to (and including) `top + rel`. */
  function Chain(top: Path, rel: Path): (dirs: Fs)
    ensures forall p :: p in dirs <==> top < p && p <= top + rel
    ensures forall p :: p in dirs ==> dirs[p] == Dir
  {
    var full := top + rel;
    var keys := set k | |top| < k <= |full| :: full[..k];
    assert forall p :: p in keys ==> top < p && p <= full;
    assert forall p: Path {:trigger p in keys} :: top < p && p <= full ==> p == full[..|p|];
    map p | p in keys :: Dir
  }

  lemma PrefixOfExtension(p: Path, base: Path, last: string)
    ensures p <= base + [last] <==> p <= base || p == base + [last]
  {
    if p <= base + [last] && |p| <= |base| {
      assert p == (base + [last])[..|p|] == base[..|p|];
    }
  }

  lemma ChainStep(top: Path, rel: Path, last: string)
    ensures Chain(top, rel + [last]) == Chain(top, rel)[top + rel + [last] := Dir]
  {
    var longer, shorter := Chain(top, rel + [last]), Chain(top, rel);
    var end := top + rel + [last];
    assert top + (rel + [last]) == end;
    forall p ensures p in longer <==> p in shorter || p == end {
      PrefixOfExtension(p, top + rel, last);
    }
  }

  /** Below an existing empty directory MkdirAll adds exactly the missing chain. */
  lemma {:induction false} MkdirAllAddsChain(fs: Fs, top: Path, rel: Path)
    requires IsDir(fs, top)
    requires forall p :: p in fs ==> !(top < p)
    ensures MkdirAll(fs, top + rel) == Some(fs + Chain(top, rel))
    decreases |rel|
  {
    if rel == [] {
      assert top + rel == top;
      assert fs + Chain(top, rel) == fs;
    } else {
      var shorter := rel[..|rel| - 1];
      var last := rel[|rel| - 1];
      assert rel == shorter + [last];
      assert top + rel == top + shorter + [last];
      MkdirAllAddsChain(fs, top, shorter);
      ChainStep(top, shorter, last);
      hide Chain;
      assert top < top + rel && Parent(top + rel) == top + shorter;
      assert (fs + Chain(top, shorter))[top + rel := Dir] == fs + Chain(top, shorter)[top + rel := Dir];
    }
  }

  /** MkdirAll only adds directories: ancestors of its target, all below an existing one. */
  lemma {:induction false} MkdirAllOnlyAddsAncestors(fs: Fs, top: Path, p: Path)
    requires IsDir(fs, top) && top <= p
    requires MkdirAll(fs, p).Some?
    ensures var made := MkdirAll(fs, p).value;
      && IsDir(made, p)
      && (forall q :: q in fs ==> q in made && made[q] == fs[q])
      && (forall q :: q in made && q !in fs ==> top < q && q <= p && made[q] == Dir)
    decreases |p|
  {
    if p !in fs {
      PrefixOfExtension(top, Parent(p), p[|p| - 1]);
      assert p == Parent(p) + [p[|p| - 1]];
      MkdirAllOnlyAddsAncestors(fs, top, Parent(p));
    }
  }
}
