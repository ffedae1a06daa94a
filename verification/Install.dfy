// installDownloadTree: commit a staged tree without ever replacing what is already
// there, on a host where any call may fail and other processes keep adding files.
module Install {
  import opened Strings
  import opened Disk

  datatype Outcome = Done | AlreadyExists(destination: Path) | HostError

  /** What happens at one system call besides the call itself: paths other
      processes have created by then, and whether the call fails. */
  datatype Turn = Turn(added: Fs, fault: bool)

  /** The nodes at or below a path, as a termination measure. */
  function Under(fs: Fs, top: Path): set<Path> {
    set p | p in fs && top <= p
  }

  /** Below `top` every node sits in a directory. */
  ghost predicate Closed(fs: Fs, top: Path) {
    forall p :: p in fs && top < p ==> IsDir(fs, Parent(p))
  }

  /** `fs` contains the nodes of `sub`, standing at `top`. */
  ghost predicate Holds(fs: Fs, top: Path, sub: Fs) {
    forall q :: q in sub ==> top + q in fs && fs[top + q] == sub[q]
  }

  /** `now` holds at `at` what `before` had at `top`. */
  ghost predicate HoldsTree(now: Fs, at: Path, before: Fs, top: Path) {
    Holds(now, at, Below(before, top))
  }

  /** Everything of `before` outside `top` is still there, unchanged. */
  ghost predicate KeptOutside(before: Fs, after: Fs, top: Path) {
    forall p :: p in before && !(top <= p) ==> p in after && after[p] == before[p]
  }

  /** Nothing stands at or below `at`. */
  ghost predicate Free(fs: Fs, at: Path) {
    forall p :: p in fs ==> !(at <= p)
  }

  /** All of `before` is still there, unchanged. */
  ghost predicate Extends(before: Fs, after: Fs) {
    forall p :: p in before ==> p in after && after[p] == before[p]
  }

  /** Nothing was added at or below `at`. */
  ghost predicate NoneAdded(before: Fs, after: Fs, at: Path) {
    forall p :: p in after && at <= p ==> p in before
  }

  predicate Distinct(names: seq<string>) {
    forall i, j :: 0 <= i < j < |names| ==> names[i] != names[j]
  }

  /** `names` lists the entries of the directory `top`, each once. */
  ghost predicate Listing(fs: Fs, top: Path, names: seq<string>) {
    Distinct(names) && forall name :: name in names <==> top + [name] in fs
  }

  lemma ListedNames(fs: Fs, top: Path, names: set<string>)
    requires names == set p | p in fs && top < p && |p| == |top| + 1 :: p[|top|]
    ensures forall name :: name in names <==> top + [name] in fs
  {
    forall name ensures name in names <==> top + [name] in fs {
      if top + [name] in fs {
        assert (top + [name])[|top|] == name;
      }
      if name in names {
        var p :| p in fs && top < p && |p| == |top| + 1 && p[|top|] == name;
        assert p == top + [name];
      }
    }
  }

  lemma {:induction false} FirstStepExists(fs: Fs, top: Path, p: Path)
    requires Closed(fs, top) && p in fs && top < p
    ensures IsDir(fs, top) && top + [p[|top|]] in fs
    decreases |p|
  {
    if |p| == |top| + 1 {
      assert Parent(p) == top && p == top + [p[|top|]];
    } else {
      assert top < Parent(p) && Parent(p)[|top|] == p[|top|];
      FirstStepExists(fs, top, Parent(p));
    }
  }

  /** The entries still to be handled are untouched. */
  ghost predicate Waiting(start: Fs, now: Fs, top: Path, names: seq<string>) {
    forall p :: p in start && top < p && p[|top|] in names ==> p in now && now[p] == start[p]
  }

  /** The entries already handled are gone from `top` and stand at `target`. */
  ghost predicate Moved(start: Fs, now: Fs, top: Path, target: Path, names: seq<string>) {
    && (forall p :: p in now && top < p ==> p[|top|] !in names)
    && (forall q :: q in Below(start, top) && q != [] && q[0] in names ==>
          target + q in now && now[target + q] == start[top + q])
  }

  /** A staged file has nothing below it. */
  lemma LoneFile(fs: Fs, top: Path)
    requires Closed(fs, top) && top in fs && fs[top].File?
    ensures forall p :: p in fs ==> !(top < p)
  {
    forall p | p in fs ensures top < p ==> IsDir(fs, top) {
      if top < p {
        FirstStepExists(fs, top, p);
      }
    }
  }

  /** No path at or below `target` lies at or below `top`. */
  ghost predicate Apart(top: Path, target: Path) {
    forall q: Path :: !(top <= target + q)
  }

  /** The next entry is still exactly what it was at the start, and smaller than its directory. */
  lemma EntryReady(start: Fs, now: Fs, top: Path, names: seq<string>, i: nat)
    requires i < |names| && Closed(start, top) && top in start
    requires NoneAdded(start, now, top)
    requires Waiting(start, now, top, names[i..])
    ensures Closed(now, top + [names[i]])
    ensures Under(now, top + [names[i]]) < Under(start, top)
  {
    var child := top + [names[i]];
    assert names[i] in names[i..];
    forall p | p in now && child < p ensures IsDir(now, Parent(p)) {
      assert top < p && p[|top|] == child[|top|];
      assert top < Parent(p) && Parent(p)[|top|] == names[i];
    }
    assert forall p :: p in now && child <= p ==> top <= p;
    assert top in Under(start, top) && top !in Under(now, child);
  }

  lemma AfterEntry(start: Fs, before: Fs, now: Fs, top: Path, target: Path, names: seq<string>, i: nat)
    requires i < |names| && Distinct(names)
    requires NoneAdded(start, before, top)
    requires KeptOutside(start, before, top) && IsDir(before, top)
    requires Waiting(start, before, top, names[i..])
    requires KeptOutside(before, now, top + [names[i]])
    ensures KeptOutside(start, now, top) && IsDir(now, top)
    ensures Waiting(start, now, top, names[i + 1..])
  {
    var child := top + [names[i]];
    assert names[i..] == [names[i]] + names[i + 1..];
    assert names[i] !in names[i + 1..];
    assert forall p :: p in before && child <= p ==> top < p && p[|top|] == child[|top|];
  }

  lemma AfterMove(start: Fs, before: Fs, now: Fs, top: Path, target: Path, name: string, done: seq<string>)
    requires NoneAdded(before, now, top)
    requires Apart(top, target)
    requires forall p :: p in start && top < p && p[|top|] == name ==> p in before && before[p] == start[p]
    requires Moved(start, before, top, target, done)
    requires KeptOutside(before, now, top + [name])
    requires Holds(now, target + [name], Below(before, top + [name]))
    requires Free(now, top + [name])
    ensures Moved(start, now, top, target, done + [name])
  {
    forall p | p in now && top < p ensures p[|top|] !in done + [name] {
      StepBelow(top, p);
    }
    forall q | q in Below(start, top) && q != [] && q[0] in done + [name]
      ensures target + q in now && now[target + q] == start[top + q]
    {
      if q[0] == name {
        MovedNow(start, before, now, top, target, name, q);
      } else {
        StillThere(before, now, top, name, target + q);
      }
    }
  }

  lemma StepBelow(top: Path, p: Path)
    requires top < p
    ensures top + [p[|top|]] <= p
  {
    assert top + [p[|top|]] == p[..|top| + 1];
  }

  lemma GoneAfterRemove(before: Fs, now: Fs, top: Path)
    requires forall p :: p in before ==> !(top < p)
    requires NoneAdded(before, now, top)
    requires top !in now
    ensures Free(now, top)
  {
    forall p | p in now && top <= p ensures p == top || top < p {
      assert p == p[..|p|];
    }
  }

  lemma SliceStep(names: seq<string>, i: nat)
    requires i < |names|
    ensures names[i] in names[i..] && names[..i + 1] == names[..i] + [names[i]]
  {
    assert names[i..][0] == names[i];
  }

  lemma StillThere(before: Fs, now: Fs, top: Path, name: string, p: Path)
    requires p in before && KeptOutside(before, now, top + [name]) && !(top <= p)
    ensures p in now && now[p] == before[p]
  {
    InsideTop(top + [name], top, p);
  }

  lemma InsideTop(child: Path, top: Path, p: Path)
    requires top <= child
    ensures child <= p ==> top <= p
  {
  }

  lemma MovedNow(start: Fs, before: Fs, now: Fs, top: Path, target: Path, name: string, q: Path)
    requires q != [] && q[0] == name && top + q in start
    requires forall p :: p in start && top < p && p[|top|] == name ==> p in before && before[p] == start[p]
    requires Holds(now, target + [name], Below(before, top + [name]))
    ensures target + q in now && now[target + q] == start[top + q]
  {
    var deeper := q[1..];
    assert q == [name] + deeper;
    assert top + q == top + [name] + deeper && target + q == target + [name] + deeper;
    assert (top + q)[|top|] == name && top < top + q;
    assert deeper in Below(before, top + [name]);
  }

  /** The state of the loop over `names` after `i` entries. */
  ghost predicate Partway(start: Fs, now: Fs, top: Path, target: Path, names: seq<string>, i: nat) {
    && i <= |names|
    && KeptOutside(start, now, top) && IsDir(now, top)
    && NoneAdded(start, now, top)
    && Waiting(start, now, top, names[i..])
    && Moved(start, now, top, target, names[..i])
  }

  lemma StartsPartway(start: Fs, top: Path, target: Path, names: seq<string>)
    requires IsDir(start, top)
    ensures Partway(start, start, top, target, names, 0)
  {
  }

  lemma EntryInstalled(start: Fs, before: Fs, now: Fs, top: Path, target: Path, names: seq<string>, i: nat)
    requires i < |names| && Distinct(names)
    requires Partway(start, before, top, target, names, i)
    requires NoneAdded(before, now, top)
    requires Apart(top, target)
    requires KeptOutside(before, now, top + [names[i]])
    requires Holds(now, target + [names[i]], Below(before, top + [names[i]]))
    requires Free(now, top + [names[i]])
    ensures Partway(start, now, top, target, names, i + 1)
  {
    SliceStep(names, i);
    AfterEntry(start, before, now, top, target, names, i);
    AfterMove(start, before, now, top, target, names[i], names[..i]);
  }

  lemma ChildIsInside(start: Fs, before: Fs, now: Fs, top: Path, name: string)
    requires KeptOutside(start, before, top) && KeptOutside(before, now, top + [name])
    ensures KeptOutside(start, now, top)
  {
    assert forall p :: p in before && top + [name] <= p ==> top <= p;
  }

  lemma AllMoved(start: Fs, now: Fs, top: Path, target: Path, names: seq<string>)
    requires Listing(start, top, names) && Closed(start, top)
    requires IsDir(start, top) && IsDir(start, target) && !(top <= target)
    requires Partway(start, now, top, target, names, |names|)
    ensures Holds(now, target, Below(start, top))
    ensures forall p :: p in now ==> !(top < p)
  {
    assert names[..|names|] == names;
    forall p | p in now ensures top < p ==> p[|top|] in names {
      if top < p {
        FirstStepExists(start, top, p);
      }
    }
    forall q | q in Below(start, top) ensures target + q in now && now[target + q] == start[top + q] {
      if q == [] {
        assert target + q == target && top + q == top;
      } else {
        assert top < top + q && (top + q)[|top|] == q[0];
        FirstStepExists(start, top, top + q);
      }
    }
  }

  lemma SameBelow(before: Fs, after: Fs, top: Path)
    requires Extends(before, after) && NoneAdded(before, after, top)
    ensures Below(before, top) == Below(after, top)
    ensures Under(before, top) == Under(after, top)
  {
    assert forall q: Path :: top + q in after ==> top <= top + q;
  }

  lemma SameUnder(before: Fs, after: Fs, top: Path)
    requires Extends(before, after) && NoneAdded(before, after, top)
    ensures Under(before, top) == Under(after, top)
  {
    SameBelow(before, after, top);
  }

  lemma SameTree(before: Fs, after: Fs, top: Path, now: Fs, at: Path)
    requires Extends(before, after) && NoneAdded(before, after, top)
    ensures HoldsTree(now, at, after, top) <==> HoldsTree(now, at, before, top)
  {
    SameBelow(before, after, top);
  }

  lemma NoneAddedInside(before: Fs, after: Fs, area: Path, top: Path)
    requires area <= top && NoneAdded(before, after, area)
    ensures NoneAdded(before, after, top)
  {
    forall p | p in after && top <= p ensures p in before {
      PrefixesNest(area, top, p);
    }
  }

  lemma NoneAddedTwice(before: Fs, between: Fs, after: Fs, area: Path)
    requires NoneAdded(before, between, area) && NoneAdded(between, after, area)
    ensures NoneAdded(before, after, area)
  {}

  lemma StillClosed(before: Fs, after: Fs, top: Path)
    requires Closed(before, top)
    requires Extends(before, after)
    requires NoneAdded(before, after, top)
    ensures Closed(after, top)
  {}

  lemma FileHolds(before: Fs, now: Fs, top: Path, target: Path)
    requires top in before && target in now && now[target] == before[top]
    requires forall p :: p in before ==> !(top < p)
    ensures HoldsTree(now, target, before, top)
  {
    assert top + [] == top && target + [] == target;
    forall q | q in Below(before, top) ensures q == [] {
      assert q == [] || top < top + q;
    }
  }

  lemma HoldsAfterRemove(start: Fs, top: Path, before: Fs, now: Fs, removed: Path, target: Path)
    requires HoldsTree(before, target, start, top) && Apart(removed, target)
    requires forall p :: p in before && p != removed ==> p in now && now[p] == before[p]
    ensures HoldsTree(now, target, start, top)
  {
    var sub := Below(start, top);
    forall q | q in sub ensures target + q in now && now[target + q] == sub[q] {
      assert !(removed <= target + q);
    }
  }

  ghost predicate Grows(before: Fs, after: Fs) {
    forall p :: p in before ==> p in after
  }

  /** Between `before` and `after` only other processes added nodes, except at or below `at`. */
  ghost predicate AddsOnlyAt(before: Fs, after: Fs, foreign: Fs, at: Path) {
    forall p :: p in after && p !in before ==> p in foreign || at <= p
  }

  /** Nothing of the installation's own making stands at or below `at`. */
  ghost predicate Untaken(nodes: Fs, origin: Fs, foreign: Fs, at: Path) {
    forall p :: p in nodes && at <= p ==> p in origin || p in foreign
  }

  /** `p`, at or below `at`, is there and is not of the installation's own making. */
  ghost predicate TakenByOthers(p: Path, at: Path, nodes: Fs, origin: Fs, foreign: Fs) {
    at <= p && p in nodes && (p in origin || p in foreign)
  }

  lemma BelowOwnChild(target: Path, name: string, p: Path)
    ensures target + [name] <= p ==> target < p && p[|target|] == name
  {
    if target + [name] <= p {
      assert p[|target|] == (target + [name])[|target|];
    }
  }

  lemma ChildUntaken(before: Fs, after: Fs, origin: Fs, foreign0: Fs, foreign1: Fs, target: Path, name: string)
    requires Untaken(before, origin, foreign0, target) && Grows(foreign0, foreign1)
    requires forall p :: p in after && p !in before ==> p in foreign1 || p == target
    ensures Untaken(after, origin, foreign1, target + [name])
  {
    forall p | p in after && target + [name] <= p ensures p in origin || p in foreign1 {
      BelowOwnChild(target, name, p);
    }
  }

  lemma SiblingUntaken(before: Fs, after: Fs, origin: Fs, foreign0: Fs, foreign1: Fs, target: Path, name: string,
                       other: string)
    requires Untaken(before, origin, foreign0, target + [other]) && Grows(foreign0, foreign1)
    requires AddsOnlyAt(before, after, foreign1, target + [name]) && name != other
    ensures Untaken(after, origin, foreign1, target + [other])
  {
    forall p | p in after && target + [other] <= p ensures p in origin || p in foreign1 {
      BelowOwnChild(target, other, p);
      BelowOwnChild(target, name, p);
    }
  }

  lemma SiblingsUntaken(before: Fs, after: Fs, origin: Fs, foreign0: Fs, foreign1: Fs, target: Path, names: seq<string>,
                        i: nat)
    requires i < |names| && Distinct(names)
    requires forall k :: i <= k < |names| ==> Untaken(before, origin, foreign0, target + [names[k]])
    requires Grows(foreign0, foreign1) && AddsOnlyAt(before, after, foreign1, target + [names[i]])
    ensures forall k :: i < k < |names| ==> Untaken(after, origin, foreign1, target + [names[k]])
  {
    hide Untaken, Grows, AddsOnlyAt;
    forall k | i < k < |names| ensures Untaken(after, origin, foreign1, target + [names[k]]) {
      SiblingUntaken(before, after, origin, foreign0, foreign1, target, names[i], names[k]);
    }
  }

  /** Additions made in two parts. */
  lemma AddsTwice(start: Fs, before: Fs, now: Fs, foreign0: Fs, foreign1: Fs, foreign2: Fs, at: Path, inner: Path)
    requires Grows(foreign0, foreign1) && Grows(foreign1, foreign2) && at <= inner
    requires AddsOnlyAt(start, before, foreign1, at) && AddsOnlyAt(before, now, foreign2, inner)
    ensures Grows(foreign0, foreign2) && AddsOnlyAt(start, now, foreign2, at)
  {
    assert forall p :: p in now && inner <= p ==> at <= p;
  }

  lemma NothingAdded(nodes: Fs, foreign: Fs, at: Path)
    ensures Grows(foreign, foreign) && AddsOnlyAt(nodes, nodes, foreign, at)
  {}

  /** What happens before the first step of an installation disturbs none of it. */
  lemma StartSeen(before: Fs, after: Fs, origin: Fs, foreign0: Fs, foreign1: Fs, at: Path, top: Path)
    requires Untaken(before, origin, foreign0, at) && Grows(foreign0, foreign1)
    requires Extends(before, after)
    requires forall p :: p in after && p !in before ==> p in foreign1 && !(top <= p)
    ensures Untaken(after, origin, foreign1, at) && AddsOnlyAt(before, after, foreign1, at)
    ensures KeptOutside(before, after, top)
    ensures Closed(before, top) ==> Closed(after, top)
  {}

  /** The counterpart was made and the entries were read: at most `at` was added. */
  lemma MadeAndListed(before: Fs, made: Fs, now: Fs, foreign0: Fs, foreign1: Fs, foreign2: Fs, at: Path, top: Path,
                      area: Path)
    requires Grows(foreign0, foreign1) && Grows(foreign1, foreign2)
    requires Extends(before, made)
    requires forall p :: p in made && p !in before ==> p in foreign1 || p == at
    requires Extends(made, now)
    requires forall p :: p in now && p !in made ==> p in foreign2
    requires NoneAdded(before, made, area) && NoneAdded(made, now, area)
    ensures Grows(foreign0, foreign2) && AddsOnlyAt(before, now, foreign2, at) && KeptOutside(before, now, top)
    ensures Extends(before, now)
    ensures forall p :: p in now && p !in before ==> p in foreign2 || p == at
    ensures NoneAdded(before, now, area)
    ensures (IsDir(made, at) ==> IsDir(now, at)) && (IsDir(before, top) ==> IsDir(now, top))
  {}

  /** The staged name of the directory was dropped, or not. */
  lemma RemovedAfter(before: Fs, moved: Fs, now: Fs, foreign0: Fs, foreign1: Fs, foreign2: Fs, at: Path, top: Path)
    requires Grows(foreign0, foreign1) && Grows(foreign1, foreign2)
    requires AddsOnlyAt(before, moved, foreign1, at) && KeptOutside(before, moved, top)
    requires forall p :: p in moved && p != top ==> p in now && now[p] == moved[p]
    requires forall p :: p in now && p !in moved ==> p in foreign2
    ensures Grows(foreign0, foreign2) && AddsOnlyAt(before, now, foreign2, at) && KeptOutside(before, now, top)
  {}

  lemma KeptTwice(before: Fs, between: Fs, after: Fs, top: Path)
    requires KeptOutside(before, between, top) && KeptOutside(between, after, top)
    ensures KeptOutside(before, after, top)
  {}

  lemma TakenInside(p: Path, at: Path, inner: Path, nodes: Fs, origin: Fs, foreign: Fs)
    requires at <= inner && TakenByOthers(p, inner, nodes, origin, foreign)
    ensures TakenByOthers(p, at, nodes, origin, foreign)
    ensures at < inner ==> at < p
  {}

  /** All that was there at first or came from others, at or below `at`, is in `nodes`. */
  ghost predicate OthersIn(nodes: Fs, origin: Fs, foreign: Fs, at: Path) {
    forall p :: at <= p && (p in origin || p in foreign) ==> p in nodes
  }

  /** Without news, what is in the way was in the way before. */
  lemma TakenBefore(p: Path, at: Path, start: Fs, nodes: Fs, origin: Fs, foreign: Fs)
    requires OthersIn(start, origin, foreign, at) && TakenByOthers(p, at, nodes, origin, foreign)
    ensures p in start && !Free(start, at)
  {}

  lemma NotInTheWay(r: Outcome, at: Path, start: Fs, nodes: Fs, origin: Fs, foreign0: Fs, foreign1: Fs)
    requires OthersIn(start, origin, foreign0, at)
    requires r.AlreadyExists? ==> TakenByOthers(r.destination, at, nodes, origin, foreign1)
    ensures foreign0 == foreign1 && Free(start, at) ==> !r.AlreadyExists?
  {
    if foreign0 == foreign1 && r.AlreadyExists? {
      TakenBefore(r.destination, at, start, nodes, origin, foreign1);
    }
  }

  /** The state of the loop over the entries of a directory. */
  ghost predicate Installing(start: Fs, now: Fs, origin: Fs, others: Fs, foreign: Fs, oracle: nat -> Turn, t0: nat,
                             t: nat, area: Path, top: Path, target: Path, names: seq<string>, i: nat)
  {
    && Partway(start, now, top, target, names, i)
    && NoneAdded(start, now, area)
    && Grows(others, foreign) && AddsOnlyAt(start, now, foreign, target)
    && (forall k :: i <= k < |names| ==> Untaken(now, origin, foreign, target + [names[k]]))
    && t0 <= t && (NoNews(oracle, t0, t) ==> foreign == others)
  }

  lemma LoopStarts(start: Fs, origin: Fs, others: Fs, oracle: nat -> Turn, t0: nat, area: Path, top: Path, target: Path,
                   names: seq<string>)
    requires IsDir(start, top)
    requires forall name :: name in names ==> Untaken(start, origin, others, target + [name])
    ensures Installing(start, start, origin, others, others, oracle, t0, t0, area, top, target, names, 0)
  {
    hide Untaken, Partway;
    StartsPartway(start, top, target, names);
    NothingAdded(start, others, target);
  }

  lemma LoopEnds(start: Fs, now: Fs, origin: Fs, others: Fs, foreign: Fs, oracle: nat -> Turn, t0: nat, t: nat,
                 area: Path, top: Path, target: Path, names: seq<string>)
    requires Installing(start, now, origin, others, foreign, oracle, t0, t, area, top, target, names, |names|)
    requires Listing(start, top, names) && Closed(start, top)
    requires IsDir(start, top) && IsDir(start, target) && !(top <= target)
    ensures KeptOutside(start, now, top) && IsDir(now, top) && NoneAdded(start, now, area)
    ensures HoldsTree(now, target, start, top) && forall p :: p in now ==> !(top < p)
    ensures Grows(others, foreign) && AddsOnlyAt(start, now, foreign, target)
    ensures t0 <= t && (NoNews(oracle, t0, t) ==> foreign == others)
  {
    hide Untaken, AddsOnlyAt, Grows, NoNews;
    AllMoved(start, now, top, target, names);
  }

  lemma EntryDone(start: Fs, before: Fs, now: Fs, origin: Fs, others: Fs, seen: Fs, foreign: Fs, oracle: nat -> Turn,
                  t0: nat, t: nat, t1: nat, area: Path, top: Path, target: Path, names: seq<string>, i: nat)
    requires Installing(start, before, origin, others, seen, oracle, t0, t, area, top, target, names, i)
    requires i < |names| && Distinct(names) && area <= top && Apart(top, target)
    requires KeptOutside(before, now, top + [names[i]]) && NoneAdded(before, now, area)
    requires HoldsTree(now, target + [names[i]], before, top + [names[i]])
    requires Free(now, top + [names[i]])
    requires Grows(seen, foreign) && AddsOnlyAt(before, now, foreign, target + [names[i]])
    requires t <= t1 && (NoNews(oracle, t, t1) ==> foreign == seen)
    ensures Installing(start, now, origin, others, foreign, oracle, t0, t1, area, top, target, names, i + 1)
  {
    hide Untaken, AddsOnlyAt, Grows, NoNews, Partway, Holds, KeptOutside, Distinct;
    forall p | p in now && top <= p ensures p in before {
      PrefixesNest(area, top, p);
    }
    InParts(oracle, t0, t, t1);
    AddsTwice(start, before, now, others, seen, foreign, target, target + [names[i]]);
    EntryInstalled(start, before, now, top, target, names, i);
    SiblingsUntaken(before, now, origin, seen, foreign, target, names, i);
  }

  lemma EntryStopped(start: Fs, before: Fs, now: Fs, origin: Fs, others: Fs, seen: Fs, foreign: Fs,
                     oracle: nat -> Turn, t0: nat, t: nat, t1: nat, area: Path, top: Path, target: Path,
                     names: seq<string>, i: nat, r: Outcome)
    requires Installing(start, before, origin, others, seen, oracle, t0, t, area, top, target, names, i)
    requires i < |names| && OthersIn(start, origin, others, target)
    requires KeptOutside(before, now, top + [names[i]]) && NoneAdded(before, now, area)
    requires Grows(seen, foreign) && AddsOnlyAt(before, now, foreign, target + [names[i]])
    requires t <= t1 && (NoNews(oracle, t, t1) ==> foreign == seen)
    requires r != Done && AsExpected(r, before, oracle, t, t1, top + [names[i]], target + [names[i]])
    requires Startable(before, top + [names[i]], target + [names[i]])
    requires r.AlreadyExists? ==> TakenByOthers(r.destination, target + [names[i]], now, origin, foreign)
    ensures KeptOutside(start, now, top) && NoneAdded(start, now, area)
    ensures Grows(others, foreign) && AddsOnlyAt(start, now, foreign, target)
    ensures t0 <= t1 && (NoNews(oracle, t0, t1) ==> foreign == others)
    ensures r.AlreadyExists? ==> TakenByOthers(r.destination, target, now, origin, foreign) && target < r.destination
    ensures NoFault(oracle, t0, t1) ==> r != HostError
    ensures NoFault(oracle, t0, t1) && NoNews(oracle, t0, t1) ==> exists p :: p in start && target < p
  {
    hide Untaken, AddsOnlyAt, Grows, NoNews, NoFault, HoldsTree, KeptOutside, TakenByOthers, OthersIn, Waiting, Moved;
    InParts(oracle, t0, t, t1);
    AddsTwice(start, before, now, others, seen, foreign, target, target + [names[i]]);
    ChildIsInside(start, before, now, top, names[i]);
    if r.AlreadyExists? {
      TakenInside(r.destination, target, target + [names[i]], now, origin, foreign);
      if foreign == others {
        TakenBefore(r.destination, target, start, now, origin, foreign);
      }
    }
  }

  /** Within a directory being installed, the next entry can be started. */
  lemma EntryStands(start: Fs, now: Fs, origin: Fs, others: Fs, foreign: Fs, oracle: nat -> Turn, t0: nat, t: nat,
                    area: Path, top: Path, target: Path, names: seq<string>, i: nat)
    requires Installing(start, now, origin, others, foreign, oracle, t0, t, area, top, target, names, i)
    requires i < |names| && Listing(start, top, names) && area <= top
    requires IsDir(start, target) && !(top <= target) && Closed(start, top) && top in start
    ensures Distinct(names) && Startable(now, top + [names[i]], target + [names[i]])
    ensures Closed(now, top + [names[i]])
    ensures Under(now, top + [names[i]]) < Under(start, top)
    ensures Untaken(now, origin, foreign, target + [names[i]])
  {
    hide Untaken, AddsOnlyAt, Grows, NoNews;
    forall p | p in now && top <= p ensures p in start {
      PrefixesNest(area, top, p);
    }
    EntryReady(start, now, top, names, i);
    assert names[i] in names[i..] && names[i] in names;
    assert (top + [names[i]])[|top|] == names[i];
    assert Parent(target + [names[i]]) == target;
  }

  /** Nothing that was there is lost: outside the staged tree nothing changed, what others
      created is still there, every staged file is at its old or its new place, and all
      that is there now is old, foreign, or stands for a staged node. */
  ghost predicate Conserved(origin: Fs, nodes: Fs, foreign: Fs, area: Path, staged: Path, destination: Path) {
    && KeptOutside(origin, nodes, staged)
    && (forall p :: p in foreign ==> !(area <= p) && p in nodes && nodes[p] == foreign[p])
    && (forall q :: staged + q in origin && origin[staged + q].File? ==>
          || (staged + q in nodes && nodes[staged + q] == origin[staged + q])
          || (destination + q in nodes && nodes[destination + q] == origin[staged + q]))
    && (forall p :: p in nodes ==>
          || (p in origin && nodes[p] == origin[p])
          || p in foreign
          || (destination <= p && staged + p[|destination|..] in origin
              && nodes[p] == origin[staged + p[|destination|..]]))
  }

  lemma OthersActing(origin: Fs, nodes: Fs, foreign: Fs, area: Path, staged: Path, destination: Path, created: Fs)
    requires Conserved(origin, nodes, foreign, area, staged, destination)
    requires forall p :: p in created ==> p !in nodes && !(area <= p)
    ensures Conserved(origin, nodes + created, foreign + created, area, staged, destination)
  {}

  /** A counterpart that was not there is added. */
  lemma CounterpartAdded(origin: Fs, nodes: Fs, foreign: Fs, area: Path, staged: Path, destination: Path, rel: Path)
    requires Conserved(origin, nodes, foreign, area, staged, destination)
    requires destination + rel !in nodes && staged + rel in origin
    requires (destination + rel)[|destination|..] == rel && !(staged <= destination + rel)
    ensures Conserved(origin, nodes[destination + rel := origin[staged + rel]], foreign, area, staged, destination)
  {}

  /** A staged node goes that is a directory, or a file that stands at its new place. */
  lemma StagedRemoved(origin: Fs, nodes: Fs, foreign: Fs, area: Path, staged: Path, destination: Path, rel: Path)
    requires Conserved(origin, nodes, foreign, area, staged, destination)
    requires staged + rel in origin && area <= staged + rel && Incomparable(area, destination)
    requires origin[staged + rel].File? ==>
      && destination + rel in nodes && nodes[destination + rel] == origin[staged + rel]
      && destination + rel != staged + rel
    ensures Conserved(origin, map p | p in nodes && p != staged + rel :: nodes[p], foreign, area, staged, destination)
  {
    forall q: Path | staged + q == staged + rel ensures q == rel {
      assert (staged + q)[|staged|..] == q && (staged + rel)[|staged|..] == rel;
    }
    forall q: Path ensures destination + q != staged + rel {
      PrefixesCompare(area, destination, destination + q);
    }
    assert staged <= staged + rel;
  }

  /** On a well-formed disk a path that does not exist has nothing below it. */
  lemma FreeWhenMissing(fs: Fs, at: Path)
    requires WellFormed(fs) && at !in fs
    ensures Free(fs, at)
  {
    forall p | p in fs ensures !(at <= p) {
      NothingBelowMissing(fs, at, p);
    }
  }

  lemma {:induction false} NothingBelowMissing(fs: Fs, at: Path, p: Path)
    requires WellFormed(fs) && at !in fs && p in fs
    ensures !(at <= p)
    decreases |p|
  {
    if at <= p {
      assert p[..|p|] == p && at == p[..|at|];
      assert |at| < |p| && at == Parent(p)[..|at|];
      NothingBelowMissing(fs, at, Parent(p));
    }
  }

  /** None of the calls from number `from` up to `to` failed. */
  ghost predicate NoFault(oracle: nat -> Turn, from: nat, to: nat) {
    forall n :: from <= n < to ==> !oracle(n).fault
  }

  /** Other processes created nothing during these calls. */
  ghost predicate NoNews(oracle: nat -> Turn, from: nat, to: nat) {
    forall n :: from <= n < to ==> oracle(n).added == map[]
  }

  lemma InParts(oracle: nat -> Turn, from: nat, between: nat, to: nat)
    requires from <= between <= to
    ensures NoFault(oracle, from, to) <==> NoFault(oracle, from, between) && NoFault(oracle, between, to)
    ensures NoNews(oracle, from, to) <==> NoNews(oracle, from, between) && NoNews(oracle, between, to)
  {}

  lemma OneCall(oracle: nat -> Turn, n: nat)
    ensures NoFault(oracle, n, n + 1) <==> !oracle(n).fault
    ensures NoNews(oracle, n, n + 1) <==> oracle(n).added == map[]
  {}

  /** A staged node whose counterpart has a directory to stand in. */
  predicate Startable(nodes: Fs, top: Path, target: Path) {
    top in nodes && target != [] && IsDir(nodes, Parent(target))
  }

  /**
   * How an installation of `top` at `target` ends that started on the disk `start` and
   * made the calls from number `from` up to `to`: when none of them failed, an existing
   * target is reported and nothing else goes wrong but a missing staged node or parent;
   * when also nobody else created anything, it succeeds at every free target.
   */
  ghost predicate AsExpected(r: Outcome, start: Fs, oracle: nat -> Turn, from: nat, to: nat, top: Path, target: Path) {
    NoFault(oracle, from, to) ==>
      && (Startable(start, top, target) ==> r != HostError)
      && (top in start && target in start ==> r == AlreadyExists(target))
      && (NoNews(oracle, from, to) && Startable(start, top, target) && Free(start, target) ==> r == Done)
  }

  lemma ExpectedAtOnce(r: Outcome, start: Fs, oracle: nat -> Turn, from: nat, to: nat, top: Path, target: Path)
    requires NoFault(oracle, from, to) && target in start ==> r == AlreadyExists(target)
    requires NoFault(oracle, from, to) && Startable(start, top, target) ==> r != HostError
    requires NoNews(oracle, from, to) && Free(start, target) ==> !r.AlreadyExists?
    ensures AsExpected(r, start, oracle, from, to, top, target)
  {}

  /** A directory whose counterpart could be made. */
  lemma ExpectedInside(r: Outcome, start: Fs, oracle: nat -> Turn, from: nat, made: nat, to: nat, top: Path,
                       target: Path)
    requires from <= made <= to && (NoFault(oracle, from, made) ==> target !in start)
    requires NoFault(oracle, from, to) ==> r != HostError
    requires NoNews(oracle, from, to) && Free(start, target) ==> !r.AlreadyExists?
    ensures AsExpected(r, start, oracle, from, to, top, target)
  {
    InParts(oracle, from, made, to);
  }

  predicate Incomparable(a: Path, b: Path) {
    !(a <= b) && !(b <= a)
  }

  lemma PrefixesCompare(a: Path, b: Path, p: Path)
    ensures a <= p && b <= p ==> a <= b || b <= a
  {
    if a <= p && b <= p {
      assert a == p[..|a|] && b == p[..|b|];
      if |a| <= |b| {
        assert a == b[..|a|];
      } else {
        assert b == a[..|b|];
      }
    }
  }

  lemma ApartFromStaged(area: Path, staged: Path, destination: Path, rel: Path, p: Path)
    requires area <= staged && Incomparable(area, destination)
    ensures destination + rel <= p ==> !(staged <= p)
  {
    if destination + rel <= p {
      assert destination == (destination + rel)[..|destination|] == p[..|destination|];
      PrefixesCompare(area, destination, p);
      assert staged <= p ==> area <= p by {
        PrefixesNest(area, staged, p);
      }
    }
  }

  lemma PrefixesNest(a: Path, b: Path, p: Path)
    requires a <= b
    ensures b <= p ==> a <= p
  {
    if b <= p {
      assert a == b[..|a|] == p[..|a|];
    }
  }

  /**
   * The host while one download is being installed. `origin` is the disk when the
   * installation began, `foreign` what other processes have created since, `area`
   * the private staging directory they stay out of.
   */
  class Host {
    var nodes: Fs
    var clock: nat
    const oracle: nat -> Turn
    const area: Path
    const staged: Path
    const destination: Path
    ghost var foreign: Fs
    ghost const origin: Fs

    ghost predicate Layout() {
      area <= staged && Incomparable(area, destination)
    }

    /** Conservation: what must hold between any two system calls. */
    ghost predicate Safe()
      reads this
    {
      Layout() && Conserved(origin, nodes, foreign, area, staged, destination)
    }

    /** `p` holds what the staged tree held in its place. */
    ghost predicate StagedCounterpart(p: Path)
      reads this
    {
      destination <= p && var q := staged + p[|destination|..]; q in origin && p in nodes && nodes[p] == origin[q]
    }

    constructor (fs: Fs, area: Path, staged: Path, destination: Path, oracle: nat -> Turn)
      requires area <= staged && Incomparable(area, destination)
      ensures Safe() && nodes == fs && origin == fs && foreign == map[]
      ensures forall at: Path {:trigger Untaken(nodes, origin, foreign, at)} :: Untaken(nodes, origin, foreign, at)
      ensures this.area == area && this.staged == staged && this.destination == destination
    {
      nodes, clock, this.oracle := fs, 0, oracle;
      this.area, this.staged, this.destination := area, staged, destination;
      foreign, origin := map[], fs;
    }

    lemma StagedIsOriginal(p: Path)
      requires Safe() && staged <= p && p in nodes
      ensures p in origin && nodes[p] == origin[p]
    {
      assert area <= p;
      PrefixesCompare(area, destination, p);
    }

    /** Other processes act, and the host decides whether the coming call fails. */
    method Tick() returns (fault: bool)
      requires Safe()
      modifies this
      ensures Safe()
      ensures Extends(old(nodes), nodes)
      ensures forall p :: p in nodes && p !in old(nodes) ==> !(area <= p) && p in foreign
      ensures Grows(old(foreign), foreign)
      ensures clock == old(clock) + 1 && fault == oracle(old(clock)).fault
      ensures oracle(old(clock)).added == map[] ==> nodes == old(nodes) && foreign == old(foreign)
    {
      var turn := oracle(clock);
      var created := map p | p in turn.added && p !in nodes && !(area <= p) :: turn.added[p];
      OthersActing(origin, nodes, foreign, area, staged, destination, created);
      nodes, clock := nodes + created, clock + 1;
      foreign := foreign + created;
      fault := turn.fault;
    }

    /** os.Mkdir for the counterpart of a staged directory. */
    method Mkdir(rel: Path) returns (r: Outcome)
      requires Safe() && IsDir(nodes, staged + rel)
      requires Untaken(nodes, origin, foreign, destination + rel)
      modifies this
      ensures Safe()
      ensures Extends(old(nodes), nodes)
      ensures NoneAdded(old(nodes), nodes, area)
      ensures r == Done ==> IsDir(nodes, destination + rel)
      ensures Grows(old(foreign), foreign)
      ensures forall p :: p in nodes && p !in old(nodes) ==> p in foreign || p == destination + rel
      ensures r.AlreadyExists? ==> TakenByOthers(r.destination, destination + rel, nodes, origin, foreign)
      ensures old(clock) <= clock && (NoNews(oracle, old(clock), clock) ==> foreign == old(foreign))
      ensures NoFault(oracle, old(clock), clock) && NoNews(oracle, old(clock), clock) ==>
        r == if destination + rel in old(nodes) then AlreadyExists(destination + rel)
             else if Startable(old(nodes), staged + rel, destination + rel) then Done
             else HostError
      ensures NoFault(oracle, old(clock), clock) && destination + rel in old(nodes) ==>
        r == AlreadyExists(destination + rel)
      ensures NoFault(oracle, old(clock), clock) && Startable(old(nodes), staged + rel, destination + rel) ==>
        r != HostError
    {
      hide Conserved, NoFault, NoNews, Grows;
      OneCall(oracle, clock);
      var fault := Tick();
      var target := destination + rel;
      if fault {
        return HostError;
      }
      if target in nodes {
        return AlreadyExists(target);
      }
      if target == [] || !IsDir(nodes, Parent(target)) {
        return HostError;
      }
      StagedIsOriginal(staged + rel);
      AtDestination(rel);
      CounterpartAdded(origin, nodes, foreign, area, staged, destination, rel);
      nodes := nodes[target := Dir];
      return Done;
    }

    lemma AtDestination(rel: Path)
      requires Layout()
      ensures var target := destination + rel;
        destination <= target && target[|destination|..] == rel && !(area <= target) && !(staged <= target)
    {
      PrefixesCompare(area, destination, destination + rel);
      assert area <= staged;
    }

    /** os.Link from a staged file to its counterpart. */
    method Link(rel: Path) returns (r: Outcome)
      requires Safe() && staged + rel in nodes && nodes[staged + rel].File?
      requires Untaken(nodes, origin, foreign, destination + rel)
      modifies this
      ensures Safe()
      ensures Extends(old(nodes), nodes)
      ensures NoneAdded(old(nodes), nodes, area)
      ensures r == Done ==> destination + rel in nodes && nodes[destination + rel] == nodes[staged + rel]
      ensures Grows(old(foreign), foreign)
      ensures forall p :: p in nodes && p !in old(nodes) ==> p in foreign || p == destination + rel
      ensures r.AlreadyExists? ==> TakenByOthers(r.destination, destination + rel, nodes, origin, foreign)
      ensures old(clock) <= clock && (NoNews(oracle, old(clock), clock) ==> foreign == old(foreign))
      ensures NoFault(oracle, old(clock), clock) && NoNews(oracle, old(clock), clock) ==>
        r == if destination + rel in old(nodes) then AlreadyExists(destination + rel)
             else if Startable(old(nodes), staged + rel, destination + rel) then Done
             else HostError
      ensures NoFault(oracle, old(clock), clock) && destination + rel in old(nodes) ==>
        r == AlreadyExists(destination + rel)
      ensures NoFault(oracle, old(clock), clock) && Startable(old(nodes), staged + rel, destination + rel) ==>
        r != HostError
    {
      hide Conserved, NoFault, NoNews, Grows;
      OneCall(oracle, clock);
      var fault := Tick();
      var target := destination + rel;
      if fault {
        return HostError;
      }
      if target in nodes {
        return AlreadyExists(target);
      }
      if target == [] || !IsDir(nodes, Parent(target)) {
        return HostError;
      }
      StagedIsOriginal(staged + rel);
      AtDestination(rel);
      CounterpartAdded(origin, nodes, foreign, area, staged, destination, rel);
      nodes := nodes[target := nodes[staged + rel]];
      return Done;
    }

    /** os.Remove of a staged node: refused on a directory that is not empty. */
    method Remove(rel: Path) returns (r: Outcome)
      requires Safe() && staged + rel in nodes
      requires nodes[staged + rel].File? ==>
        destination + rel in nodes && nodes[destination + rel] == nodes[staged + rel]
      modifies this
      ensures Safe()
      ensures forall p :: p in old(nodes) && p != staged + rel ==> p in nodes && nodes[p] == old(nodes)[p]
      ensures NoneAdded(old(nodes), nodes, area)
      ensures r == Done ==> staged + rel !in nodes
      ensures Grows(old(foreign), foreign)
      ensures forall p :: p in nodes && p !in old(nodes) ==> p in foreign
      ensures !r.AlreadyExists?
      ensures old(clock) <= clock && (NoNews(oracle, old(clock), clock) ==> foreign == old(foreign))
      ensures NoFault(oracle, old(clock), clock) ==>
        (r == Done <==> forall p :: p in old(nodes) ==> !(staged + rel < p))
    {
      hide Conserved, TakenByOthers, NoFault, NoNews, Grows;
      OneCall(oracle, clock);
      var fault := Tick();
      if fault || exists p :: p in nodes && staged + rel < p {
        return HostError;
      }
      StagedIsOriginal(staged + rel);
      AtDestination(rel);
      StagedRemoved(origin, nodes, foreign, area, staged, destination, rel);
      nodes := map p | p in nodes && p != staged + rel :: nodes[p];
      return Done;
    }

    /** os.ReadDir of a staged directory: its entries in some order. */
    method ReadDir(rel: Path) returns (names: Option<seq<string>>)
      requires Safe()
      modifies this
      ensures Safe()
      ensures Extends(old(nodes), nodes)
      ensures NoneAdded(old(nodes), nodes, area)
      ensures names.Some? ==> Listing(nodes, staged + rel, names.value)
      ensures Grows(old(foreign), foreign)
      ensures old(clock) <= clock && (NoNews(oracle, old(clock), clock) ==> foreign == old(foreign))
      ensures names.Some? <==> NoFault(oracle, old(clock), clock)
      ensures forall p :: p in nodes && p !in old(nodes) ==> p in foreign
    {
      hide Safe, NoFault, NoNews, Grows;
      OneCall(oracle, clock);
      var fault := Tick();
      if fault {
        return None;
      }
      var top := staged + rel;
      var left := set p | p in nodes && top < p && |p| == |top| + 1 :: p[|top|];
      ListedNames(nodes, top, left);
      ghost var all := left;
      var found: seq<string> := [];
      while left != {}
        invariant forall i, j :: 0 <= i < j < |found| ==> found[i] != found[j]
        invariant forall name :: name in all <==> name in left || name in found
        invariant forall name :: name in found ==> name !in left
        decreases left
      {
        var name :| name in left;
        left, found := left - {name}, found + [name];
      }
      return Some(found);
    }

    /** installDownloadTree for the staged node at `rel`. */
    method InstallDownloadTree(rel: Path) returns (r: Outcome)
      requires Safe() && Closed(nodes, staged + rel)
      requires Untaken(nodes, origin, foreign, destination + rel)
      modifies this
      ensures Safe()
      ensures KeptOutside(old(nodes), nodes, staged + rel)
      ensures NoneAdded(old(nodes), nodes, area)
      ensures r == Done ==> HoldsTree(nodes, destination + rel, old(nodes), staged + rel)
      ensures r == Done ==> Free(nodes, staged + rel)
      ensures Grows(old(foreign), foreign)
      ensures AddsOnlyAt(old(nodes), nodes, foreign, destination + rel)
      ensures r.AlreadyExists? ==> TakenByOthers(r.destination, destination + rel, nodes, origin, foreign)
      ensures old(clock) <= clock && (NoNews(oracle, old(clock), clock) ==> foreign == old(foreign))
      ensures AsExpected(r, old(nodes), oracle, old(clock), clock, staged + rel, destination + rel)
      ensures r == Done && Free(origin, destination + rel) ==>
        forall p :: p in nodes && destination + rel <= p ==> p in foreign || StagedCounterpart(p)
      decreases Under(nodes, staged + rel)
    {
      hide Safe, Apart, StagedCounterpart, HoldsTree, TakenByOthers, Untaken, Grows, AddsOnlyAt, Closed, KeptOutside;
      TargetIsElsewhere(rel);
      ghost var before, others := nodes, foreign;
      var fault := Tick();
      var top := staged + rel;
      TargetIsElsewhere(rel);
      StartSeen(before, nodes, origin, others, foreign, destination + rel, top);
      if fault || top !in nodes {
        return HostError;
      }
      NoneAddedInside(before, nodes, area, top);
      SameUnder(before, nodes, top);
      ghost var started, seen := nodes, foreign;
      if nodes[top].File? {
        LoneFile(nodes, top);
        r := InstallFile(rel);
      } else {
        r := InstallDirectory(rel);
      }
      SameTree(before, started, top, nodes, destination + rel);
      KeptTwice(before, started, nodes, top);
      AddsTwice(before, started, nodes, others, seen, foreign, destination + rel, destination + rel);
      NothingElse(destination + rel);
    }

    /** A staged directory: its counterpart, its entries, then its staged name is dropped. */
    method InstallDirectory(rel: Path) returns (r: Outcome)
      requires Safe() && Closed(nodes, staged + rel) && IsDir(nodes, staged + rel)
      requires Untaken(nodes, origin, foreign, destination + rel)
      modifies this
      ensures Safe()
      ensures KeptOutside(old(nodes), nodes, staged + rel)
      ensures NoneAdded(old(nodes), nodes, area)
      ensures r == Done ==> HoldsTree(nodes, destination + rel, old(nodes), staged + rel)
      ensures r == Done ==> Free(nodes, staged + rel)
      ensures Grows(old(foreign), foreign)
      ensures AddsOnlyAt(old(nodes), nodes, foreign, destination + rel)
      ensures r.AlreadyExists? ==> TakenByOthers(r.destination, destination + rel, nodes, origin, foreign)
      ensures old(clock) <= clock && (NoNews(oracle, old(clock), clock) ==> foreign == old(foreign))
      ensures AsExpected(r, old(nodes), oracle, old(clock), clock, staged + rel, destination + rel)
      decreases Under(nodes, staged + rel), 1
    {
      hide Safe, Apart, HoldsTree, TakenByOthers, OthersIn, Untaken, Grows, AddsOnlyAt, KeptOutside, Startable, Free,
        NoFault, NoNews, Listing, Closed, AsExpected, Extends, NoneAdded;
      TargetIsElsewhere(rel);
      OthersAreThere(rel);
      ghost var before, others, t0 := nodes, foreign, clock;
      var top := staged + rel;
      r := Mkdir(rel);
      ghost var made, seen, t1 := nodes, foreign, clock;
      MadeAndListed(before, made, made, others, seen, seen, destination + rel, top, area);
      if r != Done {
        NotInTheWay(r, destination + rel, before, nodes, origin, others, foreign);
        ExpectedAtOnce(r, before, oracle, t0, t1, top, destination + rel);
        return;
      }
      var names := ReadDir(rel);
      ghost var t2 := clock;
      InParts(oracle, t0, t1, t2);
      MadeAndListed(before, made, nodes, others, seen, foreign, destination + rel, top, area);
      if names.None? {
        ExpectedInside(HostError, before, oracle, t0, t1, t2, top, destination + rel);
        return HostError;
      }
      TargetIsElsewhere(rel);
      NoneAddedInside(before, nodes, area, top);
      SameUnder(before, nodes, top);
      StillClosed(before, nodes, top);
      forall name | name in names.value ensures Untaken(nodes, origin, foreign, destination + rel + [name]) {
        ChildUntaken(before, nodes, origin, others, foreign, destination + rel, name);
      }
      ghost var listed, known := nodes, foreign;
      r := InstallEntries(rel, names.value);
      ghost var t3 := clock;
      InParts(oracle, t0, t2, t3);
      AddsTwice(before, listed, nodes, others, known, foreign, destination + rel, destination + rel);
      SameTree(before, listed, top, nodes, destination + rel);
      KeptTwice(before, listed, nodes, top);
      NoneAddedTwice(before, listed, nodes, area);
      NotInTheWay(r, destination + rel, before, nodes, origin, others, foreign);
      ExpectedInside(r, before, oracle, t0, t1, t3, top, destination + rel);
      if r == Done {
        ghost var moved, late := nodes, foreign;
        r := Remove(rel);
        InParts(oracle, t0, t3, clock);
        ExpectedInside(r, before, oracle, t0, t1, clock, top, destination + rel);
        RemovedAfter(before, moved, nodes, others, late, foreign, destination + rel, top);
        NoneAddedInside(moved, nodes, area, top);
        NoneAddedTwice(before, moved, nodes, area);
        HoldsAfterRemove(before, top, moved, nodes, top, destination + rel);
        if r == Done {
          GoneAfterRemove(moved, nodes, top);
        }
      }
    }

    /** Link a staged file into place, then drop its staged name. */
    method InstallFile(rel: Path) returns (r: Outcome)
      requires Safe() && staged + rel in nodes && nodes[staged + rel].File?
      requires forall p :: p in nodes ==> !(staged + rel < p)
      requires Untaken(nodes, origin, foreign, destination + rel)
      modifies this
      ensures Safe()
      ensures KeptOutside(old(nodes), nodes, staged + rel)
      ensures NoneAdded(old(nodes), nodes, area)
      ensures r == Done ==> HoldsTree(nodes, destination + rel, old(nodes), staged + rel)
      ensures r == Done ==> Free(nodes, staged + rel)
      ensures Grows(old(foreign), foreign)
      ensures AddsOnlyAt(old(nodes), nodes, foreign, destination + rel)
      ensures r.AlreadyExists? ==> TakenByOthers(r.destination, destination + rel, nodes, origin, foreign)
      ensures old(clock) <= clock && (NoNews(oracle, old(clock), clock) ==> foreign == old(foreign))
      ensures AsExpected(r, old(nodes), oracle, old(clock), clock, staged + rel, destination + rel)
    {
      hide Safe, Apart, OthersIn, Untaken, NoNews, NoFault, HoldsTree, TakenByOthers, AsExpected, Startable, Free;
      TargetIsElsewhere(rel);
      OthersAreThere(rel);
      ghost var before, others, t0 := nodes, foreign, clock;
      var top := staged + rel;
      r := Link(rel);
      ghost var linked, seen, t1 := nodes, foreign, clock;
      NotInTheWay(r, destination + rel, before, nodes, origin, others, foreign);
      ExpectedAtOnce(r, before, oracle, t0, t1, top, destination + rel);
      if r == Done {
        FileHolds(before, nodes, top, destination + rel);
        r := Remove(rel);
        InParts(oracle, t0, t1, clock);
        ExpectedInside(r, before, oracle, t0, t1, clock, top, destination + rel);
        HoldsAfterRemove(before, top, linked, nodes, top, destination + rel);
        NoneAddedInside(before, nodes, area, top);
        if r == Done {
          GoneAfterRemove(before, nodes, top);
        }
      }
    }

    /** The loop over the entries of a staged directory whose counterpart exists. */
    method InstallEntries(rel: Path, names: seq<string>) returns (r: Outcome)
      requires Safe() && Closed(nodes, staged + rel)
      requires IsDir(nodes, staged + rel) && IsDir(nodes, destination + rel)
      requires Listing(nodes, staged + rel, names)
      requires forall name :: name in names ==> Untaken(nodes, origin, foreign, destination + rel + [name])
      modifies this
      ensures Safe()
      ensures KeptOutside(old(nodes), nodes, staged + rel)
      ensures NoneAdded(old(nodes), nodes, area)
      ensures r == Done ==> IsDir(nodes, staged + rel)
      ensures r == Done ==> HoldsTree(nodes, destination + rel, old(nodes), staged + rel)
      ensures r == Done ==> forall p :: p in nodes ==> !(staged + rel < p)
      ensures Grows(old(foreign), foreign)
      ensures AddsOnlyAt(old(nodes), nodes, foreign, destination + rel)
      ensures r.AlreadyExists? ==> TakenByOthers(r.destination, destination + rel, nodes, origin, foreign)
      ensures r.AlreadyExists? ==> destination + rel < r.destination
      ensures old(clock) <= clock && (NoNews(oracle, old(clock), clock) ==> foreign == old(foreign))
      ensures NoFault(oracle, old(clock), clock) ==> r != HostError
      ensures NoFault(oracle, old(clock), clock) && NoNews(oracle, old(clock), clock) ==>
        (forall p :: p in old(nodes) ==> !(destination + rel < p)) ==> r == Done
      decreases Under(nodes, staged + rel), 0
    {
      hide Safe, Apart, Installing, Untaken, Grows, AddsOnlyAt, TakenByOthers, OthersIn, HoldsTree, KeptOutside,
        Startable, NoFault, NoNews, Listing, Distinct, Closed, Extends, NoneAdded, Free, AsExpected;
      var top, target := staged + rel, destination + rel;
      ghost var start, others, t0 := nodes, foreign, clock;
      TargetIsElsewhere(rel);
      OthersAreThere(rel);
      LoopStarts(start, origin, others, oracle, t0, area, top, target, names);
      var i := 0;
      while i < |names|
        invariant Safe() && 0 <= i <= |names|
        invariant Installing(start, nodes, origin, others, foreign, oracle, t0, clock, area, top, target, names, i)
      {
        ghost var before, seen, t := nodes, foreign, clock;
        EntryStands(start, nodes, origin, others, seen, oracle, t0, t, area, top, target, names, i);
        ChildPaths(rel, names[i]);
        r := InstallDownloadTree(rel + [names[i]]);
        if r != Done {
          EntryStopped(start, before, nodes, origin, others, seen, foreign, oracle, t0, t, clock, area, top, target,
                       names, i, r);
          return;
        }
        EntryDone(start, before, nodes, origin, others, seen, foreign, oracle, t0, t, clock, area, top, target, names,
                  i);
        i := i + 1;
      }
      LoopEnds(start, nodes, origin, others, foreign, oracle, t0, clock, area, top, target, names);
      r := Done;
    }

    /** Where nothing of the original disk stood, only the staged tree and what other
        processes added can stand. */
    lemma NothingElse(at: Path)
      requires Safe()
      ensures Free(origin, at) ==>
        forall p :: p in nodes && at <= p ==> p in foreign || StagedCounterpart(p)
    {
    }

    lemma OthersAreThere(rel: Path)
      requires Safe()
      ensures OthersIn(nodes, origin, foreign, destination + rel)
    {
      forall p | p in origin && destination + rel <= p ensures p in nodes {
        ApartFromStaged(area, staged, destination, rel, p);
      }
    }

    lemma ChildPaths(rel: Path, name: string)
      ensures staged + (rel + [name]) == staged + rel + [name]
      ensures destination + (rel + [name]) == destination + rel + [name]
    {
    }

    lemma TargetIsElsewhere(rel: Path)
      requires Safe()
      ensures area <= staged + rel && !(staged + rel <= destination + rel)
      ensures Apart(staged + rel, destination + rel)
      ensures forall p :: p in nodes && staged + rel <= p ==> area <= p
    {
      assert area <= staged + rel;
      forall q: Path ensures !(staged + rel <= destination + rel + q) {
        PrefixesCompare(area, destination, destination + rel + q);
      }
      assert destination + rel + [] == destination + rel;
    }
  }
}
