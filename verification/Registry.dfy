/** The registry of garbage collection roots (`src/registry.rs`). */
module Registry {
  import opened Wrappers
  import opened StoreRegex
  import opened StorePaths
  import opened FileTree
  import Output

  // ---------------------------------------------------------------- sweeping

  predicate IsRemoved(nodes: Nodes, denied: set<Path>, seen: set<Path>, top: Path, p: Path)
    requires p in nodes
  {
    Under(top, p) &&
    match nodes[p]
    case Link(_) => p !in seen
    case Folder => p != [] && p !in denied && Children(nodes, p) == {}
    case File => false
  }

  /** What one sweep removes: links not seen, and directories that had no entry when it began. */
  function RemovedSet(nodes: Nodes, denied: set<Path>, seen: set<Path>, top: Path): set<Path> {
    set p | p in nodes && IsRemoved(nodes, denied, seen, top, p)
  }

  function Swept(nodes: Nodes, denied: set<Path>, seen: set<Path>, top: Path): Nodes {
    nodes - RemovedSet(nodes, denied, seen, top)
  }

  function StaleLinks(nodes: Nodes, seen: set<Path>, top: Path): set<Path> {
    set p | p in nodes && Under(top, p) && nodes[p].Link? && p !in seen
  }

  lemma SweptWellFormed(nodes: Nodes, denied: set<Path>, seen: set<Path>, top: Path, some: set<Path>)
    requires WellFormed(nodes) && some <= RemovedSet(nodes, denied, seen, top)
    ensures WellFormed(nodes - some)
  {
    var left := nodes - some;
    forall p | p in left && p != []
      ensures Parent(p) in left
    {
      assert Under(Parent(p), p);
      assert p in Children(nodes, Parent(p));
    }
  }

  /** The nodes at or below one of the paths still to be visited. */
  ghost function Waiting(nodes: Nodes, todo: set<Path>): set<Path> {
    set p | p in nodes && exists w | w in todo :: Under(w, p)
  }

  /** The paths to be visited exist, and none lies below another. */
  ghost predicate Frontier(nodes: Nodes, top: Path, todo: set<Path>) {
    && (forall w | w in todo :: w in nodes && Under(top, w))
    && (forall w, w' | w in todo && w' in todo && Under(w, w') :: w == w')
  }

  function Kids(nodes: Nodes, p: Path): set<Path> {
    if p in nodes && nodes[p].Folder? then Children(nodes, p) else {}
  }

  /** Visiting a path and queueing its children takes exactly this path out of those waiting. */
  lemma VisitStep(nodes: Nodes, top: Path, todo: set<Path>, p: Path)
    requires WellFormed(nodes) && Frontier(nodes, top, todo) && p in todo
    ensures Frontier(nodes, top, todo - {p} + Kids(nodes, p))
    ensures Waiting(nodes, todo - {p} + Kids(nodes, p)) == Waiting(nodes, todo) - {p}
    ensures p in Waiting(nodes, todo)
    ensures Children(nodes, p) <= Waiting(nodes, todo)
  {
    var todo' := todo - {p} + Kids(nodes, p);
    assert Under(p, p);
    forall w | w in todo' ensures w in nodes && Under(top, w) {
      if w in Kids(nodes, p) {
        UnderTransitive(top, p, w);
      }
    }
    forall w, w' | w in todo' && w' in todo' && Under(w, w') ensures w == w' {
      if w in Kids(nodes, p) && w' !in Kids(nodes, p) {
        UnderTransitive(p, w, w');
      } else if w !in Kids(nodes, p) && w' in Kids(nodes, p) {
        if |w| <= |p| {
          UnderLinear(w, p, w');
        } else {
          assert w == w';
        }
      }
    }
    forall q ensures q in Waiting(nodes, todo') <==> q in Waiting(nodes, todo) - {p} {
      if q in Waiting(nodes, todo) && q != p {
        var w :| w in todo && Under(w, q);
        if w == p {
          var kid := q[..|p| + 1];
          AboveAreFolders(nodes, q);
          PrefixesUnder(q, kid);
          PrefixesUnder(q, p);
          assert Under(kid, q) && kid in Kids(nodes, p);
        } else {
          assert w in todo';
        }
      }
      if q in Waiting(nodes, todo') {
        var w :| w in todo' && Under(w, q);
        if w in Kids(nodes, p) {
          UnderTransitive(p, w, q);
        }
      }
    }
    forall q | q in Children(nodes, p) ensures q in Waiting(nodes, todo) {
      assert Under(p, q);
    }
  }

  // ---------------------------------------------------------------- requested links

  function GcLinkDir(prefix: Path, cwd: Path, scanned: ScannedPath): Path {
    match scanned
    case Absolute(comps) => prefix + (if comps == [] then cwd else Parent(comps))
    case Relative(comps) => prefix + (cwd + (if comps == [] then [] else Parent(comps)))
  }

  function ExtractHash(r: Bytes): Bytes
    requires |r| >= 32
  {
    r[..32]
  }

  predicate Hashable(sp: StorePaths) {
    forall r | r in sp.refs :: |r| >= 32
  }

  function LinkName(dir: Path, r: Bytes): Path
    requires |r| >= 32
  {
    dir + [ExtractHash(r)]
  }

  /** The wanted links after one more reference: the first one with a name decides where it points. */
  function AddRef(want: map<Path, Bytes>, dir: Path, r: Bytes): map<Path, Bytes>
    requires |r| >= 32
  {
    if LinkName(dir, r) in want then want else want[LinkName(dir, r) := STORE + r]
  }

  function AddRefs(want: map<Path, Bytes>, dir: Path, refs: seq<Bytes>): map<Path, Bytes>
    requires forall r | r in refs :: |r| >= 32
  {
    if refs == [] then want else AddRef(AddRefs(want, dir, refs[..|refs| - 1]), dir, refs[|refs| - 1])
  }

  /** The links wanted by a queue of store paths. */
  function WantedBy(prefix: Path, cwd: Path, queue: seq<StorePaths>): map<Path, Bytes>
    requires forall sp | sp in queue :: Hashable(sp)
  {
    if queue == [] then map[]
    else
      var last := queue[|queue| - 1];
      assert Hashable(last);
      AddRefs(WantedBy(prefix, cwd, queue[..|queue| - 1]), GcLinkDir(prefix, cwd, last.entry.path), last.refs)
  }

  ghost function AllAbove(want: map<Path, Bytes>): set<Path> {
    set p, q | p in want && q in Above(p) :: q
  }

  /** `base` with the wanted links, and with directories above them where nothing was. */
  ghost function WithLinks(base: Nodes, want: map<Path, Bytes>): Nodes {
    map p | p in base.Keys + want.Keys + AllAbove(want) ::
      if p in want then Link(want[p]) else if p in base then base[p] else Folder
  }

  /** The link can be put in place in a given tree. */
  ghost predicate Placeable(nodes: Nodes, denied: set<Path>, name: Path, target: Bytes) {
    if name in nodes then nodes[name].Link? && (nodes[name].target == target || name !in denied)
    else name !in denied && forall q | q in Above(name) :: if q in nodes then nodes[q].Folder? else q !in denied
  }

  /** All wanted links can be put in place, and none of them stands where another needs a directory. */
  ghost predicate Feasible(base: Nodes, denied: set<Path>, want: map<Path, Bytes>) {
    && (forall p | p in want :: Placeable(base, denied, p, want[p]))
    && (forall p, q | p in want && q in want && q in Above(p) :: false)
  }

  /** The wanted links that are missing from `base` or point elsewhere. */
  ghost function Changed(base: Nodes, want: map<Path, Bytes>): set<Path> {
    set p | p in want && !(p in base && base[p] == Link(want[p]))
  }

  lemma WithLinksOne(base: Nodes, want: map<Path, Bytes>, name: Path, target: Bytes)
    requires name !in want
    ensures WithLinks(WithLinks(base, want), map[name := target]) == WithLinks(base, want[name := target])
  {
    var one, all := map[name := target], want[name := target];
    assert AllAbove(all) == AllAbove(want) + AllAbove(one) by {
      forall q ensures q in AllAbove(all) <==> q in AllAbove(want) + AllAbove(one) {
        if q in AllAbove(want) {
          var p :| p in want && q in Above(p);
          assert p in all;
        }
        if q in AllAbove(one) {
          assert name in all;
        }
        if q in AllAbove(all) {
          var p :| p in all && q in Above(p);
          assert p in want || p in one;
        }
      }
    }
    var l, r := WithLinks(WithLinks(base, want), one), WithLinks(base, all);
    assert l.Keys == r.Keys;
    forall p | p in l ensures l[p] == r[p] {
      assert p in all <==> p in want || p == name;
    }
  }

  lemma AboveLinkImpossible(base: Nodes, denied: set<Path>, want: map<Path, Bytes>, p: Path, name: Path)
    requires WellFormed(base) && Feasible(base, denied, want)
    requires p in want && name in Above(p) && name in base
    ensures base[name].Folder?
  {
    assert Placeable(base, denied, p, want[p]);
    if p in base {
      AboveAreFolders(base, p);
    }
  }

  lemma NotYetThere(base: Nodes, denied: set<Path>, want: map<Path, Bytes>, name: Path, target: Bytes)
    requires WellFormed(base) && name !in want && Feasible(base, denied, want)
    requires Placeable(WithLinks(base, want), denied, name, target)
    ensures Placeable(base, denied, name, target)
  {
    var nodes := WithLinks(base, want);
    if name in base {
      assert name in nodes && nodes[name] == base[name];
    } else {
      assert name !in nodes;
      forall q | q in Above(name) ensures if q in base then base[q].Folder? else q !in denied {
        if q in base {
          assert q in nodes;
        } else if q in AllAbove(want) {
          var p :| p in want && q in Above(p);
          assert Placeable(base, denied, p, want[p]);
          if p in base {
            AboveAreFolders(base, p);
          }
        }
      }
    }
  }

  /** One more link is possible after the others exactly when all of them together are possible from the start. */
  lemma PlaceableStep(base: Nodes, denied: set<Path>, want: map<Path, Bytes>, name: Path, target: Bytes)
    requires WellFormed(base) && name != [] && name !in want
    requires Feasible(base, denied, want)
    ensures Placeable(WithLinks(base, want), denied, name, target) <==> Feasible(base, denied, want[name := target])
  {
    var nodes, all := WithLinks(base, want), want[name := target];
    if Feasible(base, denied, all) {
      assert name in all && all[name] == target;
      assert Placeable(base, denied, name, target);
      if name in base {
        assert name in nodes;
      } else {
        assert forall p | p in want :: p in all;
        forall q | q in Above(name) ensures if q in nodes then nodes[q].Folder? else q !in denied {
          assert q in want ==> q in all;
        }
      }
    }
    if Placeable(nodes, denied, name, target) {
      forall p | p in all ensures Placeable(base, denied, p, all[p]) {
        if p == name {
          NotYetThere(base, denied, want, name, target);
        } else {
          assert p in want;
        }
      }
      forall p, q | p in all && q in all && q in Above(p) ensures false {
        if p == name {
          PrefixesUnder(name, q);
          assert q in want && nodes[q].Link?;
          if name in base {
            AboveAreFolders(base, name);
          }
        } else if q == name {
          assert name in AllAbove(want);
          if name in base {
            AboveLinkImpossible(base, denied, want, p, name);
          }
        }
      }
    }
  }

  lemma WithLinksWellFormed(base: Nodes, denied: set<Path>, want: map<Path, Bytes>)
    requires WellFormed(base) && Feasible(base, denied, want) && [] !in want
    ensures WellFormed(WithLinks(base, want))
  {
    var nodes := WithLinks(base, want);
    forall p | p in nodes && p != []
      ensures Parent(p) in nodes && nodes[Parent(p)].Folder?
    {
      PrefixesUnder(p, Parent(p));
      assert Parent(p) in Above(p);
      if p in want {
        assert Parent(p) in AllAbove(want);
        assert Placeable(base, denied, p, want[p]);
        assert Parent(p) !in want;
        if p in base { assert Parent(p) in base; }
      } else if p in base {
        assert Parent(p) in base && base[Parent(p)].Folder?;
      } else {
        var l :| l in want && p in Above(l);
        PrefixesUnder(l, p);
        UnderTransitive(Parent(p), p, l);
        PrefixesUnder(l, Parent(p));
        assert Parent(p) in AllAbove(want) && Parent(p) !in want;
        if Parent(p) in base {
          AboveLinkImpossible(base, denied, want, l, Parent(p));
        }
      }
    }
  }

  lemma WithNoLinks(base: Nodes)
    ensures WithLinks(base, map[]) == base
  {}

  /** A sweep that spares the wanted links leaves them, and the directories above them, in place. */
  lemma SweepKeepsWanted(nodes: Nodes, denied: set<Path>, want: map<Path, Bytes>, top: Path)
    requires WellFormed(nodes)
    requires forall p | p in want :: p in nodes && nodes[p] == Link(want[p])
    requires Feasible(nodes, denied, want)
    ensures var left := Swept(nodes, denied, want.Keys, top);
            WellFormed(left) && WithLinks(left, want) == left && Feasible(left, denied, want)
  {
    var left := Swept(nodes, denied, want.Keys, top);
    SweptWellFormed(nodes, denied, want.Keys, top, RemovedSet(nodes, denied, want.Keys, top));
    assert forall p | p in want :: p in left && left[p] == nodes[p];
    forall q | q in AllAbove(want) ensures q in left {
      var p :| p in want && q in Above(p);
      AboveAreFolders(left, p);
    }
  }

  lemma ParentOfLink(dir: Path, h: Bytes)
    ensures Parent(dir + [h]) == dir && Above(dir + [h]) == Prefixes(dir)
  {
    PrefixesUnder(dir + [h], dir);
  }

  lemma WithOneLink(nodes: Nodes, dir: Path, h: Bytes, target: Bytes)
    requires dir + [h] !in nodes
    ensures WithLinks(nodes, map[dir + [h] := target]) == WithFolders(nodes, dir)[dir + [h] := Link(target)]
  {
    ParentOfLink(dir, h);
    var name := dir + [h];
    var one: map<Path, Bytes> := map[name := target];
    assert AllAbove(one) == Prefixes(dir) by {
      forall q ensures q in AllAbove(one) <==> q in Prefixes(dir) {
        if q in Prefixes(dir) { assert name in one && q in Above(name); }
      }
    }
    PrefixesUnder(dir, name);
  }

  lemma ReplacedLink(nodes: Nodes, name: Path, target: Bytes)
    requires WellFormed(nodes) && name in nodes
    ensures WithLinks(nodes, map[name := target]) == nodes[name := Link(target)]
  {
    AboveAreFolders(nodes, name);
  }

  lemma ChangedStep(base: Nodes, want: map<Path, Bytes>, name: Path, target: Bytes)
    requires name !in want
    ensures |Changed(base, want[name := target])| ==
            |Changed(base, want)| + if name in base && base[name] == Link(target) then 0 else 1
  {
    var more: set<Path> := if name in base && base[name] == Link(target) then {} else {name};
    var all := want[name := target];
    forall p ensures p in Changed(base, all) <==> p in Changed(base, want) + more {
      assert p != name ==> (p in all <==> p in want);
    }
    assert Changed(base, all) == Changed(base, want) + more;
    assert name !in Changed(base, want);
  }

  lemma SweepAlgebra(before: Nodes, removed: set<Path>, waiting: set<Path>, p: Path)
    requires p in waiting
    ensures before - (removed - (waiting - {p})) ==
            (before - (removed - waiting)) - if p in removed then {p} else {}
  {}

  lemma CountAlgebra(stale: set<Path>, waiting: set<Path>, p: Path)
    requires p in waiting
    ensures |stale - (waiting - {p})| == |stale - waiting| + if p in stale then 1 else 0
  {
    assert stale - (waiting - {p}) == (stale - waiting) + if p in stale then {p} else {};
  }

  lemma RemoveLinkWellFormed(nodes: Nodes, name: Path)
    requires WellFormed(nodes) && name in nodes && nodes[name].Link?
    ensures WellFormed(nodes - {name})
  {}

  lemma RemovedThenLinked(nodes: Nodes, dir: Path, h: Bytes, target: Bytes)
    requires WellFormed(nodes) && dir + [h] in nodes
    ensures WithLinks(nodes - {dir + [h]}, map[dir + [h] := target]) == nodes[dir + [h] := Link(target)]
    ensures forall denied :: CanMake(nodes - {dir + [h]}, denied, dir)
  {
    var name := dir + [h];
    ParentOfLink(dir, h);
    AboveAreFolders(nodes, name);
    PrefixesUnder(dir, name);
    WithOneLink(nodes - {name}, dir, h, target);
  }

  /** `more` wants what `want` does, and possibly further links. */
  ghost predicate Extends(want: map<Path, Bytes>, more: map<Path, Bytes>) {
    forall p | p in want :: p in more && more[p] == want[p]
  }

  lemma MoreIsHarder(base: Nodes, denied: set<Path>, want: map<Path, Bytes>, more: map<Path, Bytes>)
    requires Extends(want, more) && Feasible(base, denied, more)
    ensures Feasible(base, denied, want)
  {}

  lemma {:induction false} AddRefsExtends(want: map<Path, Bytes>, dir: Path, refs: seq<Bytes>, n: nat)
    requires (forall r | r in refs :: |r| >= 32) && n <= |refs|
    ensures Extends(AddRefs(want, dir, refs[..n]), AddRefs(want, dir, refs))
    decreases |refs|
  {
    if n < |refs| {
      assert refs[..|refs| - 1][..n] == refs[..n];
      AddRefsExtends(want, dir, refs[..|refs| - 1], n);
    } else {
      assert refs[..n] == refs;
    }
  }

  /** Taking in the next reference; what cannot be done for some of the references cannot be done for all. */
  lemma NextRef(base: Nodes, denied: set<Path>, want: map<Path, Bytes>, dir: Path, refs: seq<Bytes>, i: nat)
    requires (forall r | r in refs :: |r| >= 32) && i < |refs|
    ensures var next := AddRefs(want, dir, refs[..i + 1]);
            && next == AddRef(AddRefs(want, dir, refs[..i]), dir, refs[i])
            && (Feasible(base, denied, AddRefs(want, dir, refs)) ==> Feasible(base, denied, next))
  {
    assert refs[..i + 1][..i] == refs[..i];
    AddRefsExtends(want, dir, refs, i + 1);
    if Feasible(base, denied, AddRefs(want, dir, refs)) {
      MoreIsHarder(base, denied, AddRefs(want, dir, refs[..i + 1]), AddRefs(want, dir, refs));
    }
  }

  /** Files and directories stay as they are; links stay links. */
  ghost predicate NothingLost(nodes: Nodes, nodes': Nodes) {
    forall q | q in nodes :: q in nodes' && (nodes'[q] == nodes[q] || (nodes[q].Link? && nodes'[q].Link?))
  }

  /** Nothing but members of `removed` has disappeared. */
  ghost predicate PartlySwept(nodes: Nodes, nodes': Nodes, removed: set<Path>) {
    && nodes'.Keys <= nodes.Keys
    && nodes.Keys - nodes'.Keys <= removed
    && forall q | q in nodes' :: nodes'[q] == nodes[q]
  }

  lemma NothingBelow(nodes: Nodes, denied: set<Path>, seen: set<Path>, top: Path)
    requires WellFormed(nodes) && top !in nodes
    ensures Swept(nodes, denied, seen, top) == nodes && StaleLinks(nodes, seen, top) == {}
    ensures forall p | p in nodes :: !Under(top, p)
  {
    forall p | p in nodes ensures !Under(top, p) {
      AboveAreFolders(nodes, p);
      PrefixesUnder(p, top);
    }
  }

  lemma SameChildren(before: Nodes, nodes: Nodes, removed: set<Path>, waiting: set<Path>, p: Path)
    requires p in before && p in waiting && Children(before, p) <= waiting
    requires nodes == before - (removed - waiting)
    ensures p in nodes && nodes[p] == before[p] && Children(nodes, p) == Children(before, p)
  {}

  /** How far a sweep has come: everything that is not waiting has been dealt with, and nothing else. */
  ghost predicate SweepProgress(before: Nodes, denied: set<Path>, seen: set<Path>, top: Path,
                                todo: set<Path>, nodes: Nodes, count: nat) {
    && Frontier(before, top, todo)
    && nodes == before - (RemovedSet(before, denied, seen, top) - Waiting(before, todo))
    && count == |StaleLinks(before, seen, top) - Waiting(before, todo)|
    && (StaleLinks(before, seen, top) - Waiting(before, todo)) !! denied
  }

  lemma SweepStarts(nodes: Nodes, denied: set<Path>, seen: set<Path>, top: Path)
    requires top in nodes
    ensures SweepProgress(nodes, denied, seen, top, {top}, nodes, 0)
  {}

  lemma SweepEnds(before: Nodes, denied: set<Path>, seen: set<Path>, top: Path, nodes: Nodes, count: nat)
    requires SweepProgress(before, denied, seen, top, {}, nodes, count)
    ensures nodes == Swept(before, denied, seen, top)
    ensures count == |StaleLinks(before, seen, top)| && StaleLinks(before, seen, top) !! denied
  {}

  /** Dealing with one more entry is progress, unless it is a link that must go but cannot. */
  lemma SweepVisit(before: Nodes, denied: set<Path>, seen: set<Path>, top: Path,
                   todo: set<Path>, nodes: Nodes, count: nat, p: Path)
    requires WellFormed(before) && SweepProgress(before, denied, seen, top, todo, nodes, count) && p in todo
    ensures p in nodes && Under(top, p)
    ensures PartlySwept(before, nodes, RemovedSet(before, denied, seen, top))
    ensures var todo' := todo - {p} + Kids(nodes, p);
            var stale := nodes[p].Link? && p !in seen;
            && (stale ==> p in StaleLinks(before, seen, top))
            && (!(stale && p in denied) ==>
                  SweepProgress(before, denied, seen, top, todo',
                                nodes - (if IsRemoved(nodes, denied, seen, top, p) then {p} else {}),
                                count + if stale then 1 else 0))
            && Waiting(before, todo') < Waiting(before, todo)
  {
    var removed, stale := RemovedSet(before, denied, seen, top), StaleLinks(before, seen, top);
    var waiting := Waiting(before, todo);
    VisitStep(before, top, todo, p);
    SameChildren(before, nodes, removed, waiting, p);
    SweepAlgebra(before, removed, waiting, p);
    CountAlgebra(stale, waiting, p);
    assert Kids(nodes, p) == Kids(before, p);
    assert IsRemoved(nodes, denied, seen, top, p) <==> p in removed;
  }

  lemma {:induction false} QueueExtends(prefix: Path, cwd: Path, queue: seq<StorePaths>, n: nat)
    requires (forall sp | sp in queue :: Hashable(sp)) && n <= |queue|
    ensures Extends(WantedBy(prefix, cwd, queue[..n]), WantedBy(prefix, cwd, queue))
    decreases |queue|
  {
    if n < |queue| {
      var init, last := queue[..|queue| - 1], queue[|queue| - 1];
      assert init[..n] == queue[..n];
      assert Hashable(last);
      QueueExtends(prefix, cwd, init, n);
      AddRefsExtends(WantedBy(prefix, cwd, init), GcLinkDir(prefix, cwd, last.entry.path), last.refs, 0);
      assert last.refs[..0] == [];
    } else {
      assert queue[..n] == queue;
    }
  }

  lemma NextQueued(base: Nodes, denied: set<Path>, prefix: Path, cwd: Path, queue: seq<StorePaths>, i: nat)
    requires (forall sp | sp in queue :: Hashable(sp)) && i < |queue|
    ensures Hashable(queue[i])
    ensures var next := WantedBy(prefix, cwd, queue[..i + 1]);
            && next == AddRefs(WantedBy(prefix, cwd, queue[..i]), GcLinkDir(prefix, cwd, queue[i].entry.path),
                               queue[i].refs)
            && (Feasible(base, denied, WantedBy(prefix, cwd, queue)) ==> Feasible(base, denied, next))
  {
    assert queue[..i + 1][..i] == queue[..i];
    QueueExtends(prefix, cwd, queue, i + 1);
    if Feasible(base, denied, WantedBy(prefix, cwd, queue)) {
      MoreIsHarder(base, denied, WantedBy(prefix, cwd, queue[..i + 1]), WantedBy(prefix, cwd, queue));
    }
  }

  // ---------------------------------------------------------------- the worker

  datatype Problem = CannotCreate(path: Path) | CannotRemove(path: Path) | CannotReadLink(path: Path)

  class RegistryWorker {
    const fs: FileSystem
    const prefix: Path
    const cwd: Path
    var seen: set<Path>
    ghost var base: Nodes              // the tree before any link was handled, or after the last sweep
    ghost var want: map<Path, Bytes>   // the links handled so far

    ghost predicate Valid()
      reads this, fs
    {
      && WellFormed(base) && [] !in want
      && Feasible(base, fs.denied, want)
      && fs.nodes == WithLinks(base, want)
      && seen == want.Keys
    }

    constructor (fs: FileSystem, prefix: Path, cwd: Path)
      requires WellFormed(fs.nodes)
      ensures Valid() && this.fs == fs && this.prefix == prefix && this.cwd == cwd
      ensures seen == {} && want == map[] && base == fs.nodes
    {
      this.fs, this.prefix, this.cwd, seen := fs, prefix, cwd, {};
      base, want := fs.nodes, map[];
      WithNoLinks(fs.nodes);
    }

    /** What the sweep does with one entry: an empty directory and a link not seen are removed. */
    method SweepEntry(topdir: Path, p: Path) returns (r: Result<nat, Problem>)
      requires p in fs.nodes && Under(topdir, p)
      modifies fs
      ensures var stale := old(fs.nodes)[p].Link? && p !in seen;
              && (r.Ok? <==> !(stale && p in fs.denied))
              && (r.Ok? ==> r.value == if stale then 1 else 0)
      ensures fs.nodes == old(fs.nodes) -
                if r.Ok? && IsRemoved(old(fs.nodes), fs.denied, seen, topdir, p) then {p} else {}
    {
      match fs.nodes[p] {
        case Folder =>
          var _ := fs.RemoveDir(p);
          return Ok(0);
        case Link(_) =>
          if p in seen {
            return Ok(0);
          }
          var ok := fs.RemoveFile(p);
          return if ok then Ok(1) else Err(CannotRemove(p));
        case File =>
          return Ok(0);
      }
    }

    /** Walks the tree below `topdir`, each directory before its entries, removing while it walks. */
    method Sweep(topdir: Path) returns (r: Result<nat, Problem>)
      requires WellFormed(fs.nodes) && topdir in fs.nodes
      modifies fs
      ensures r.Ok? <==> StaleLinks(old(fs.nodes), seen, topdir) !! fs.denied
      ensures r.Ok? ==> fs.nodes == Swept(old(fs.nodes), fs.denied, seen, topdir)
      ensures r.Ok? ==> r.value == |StaleLinks(old(fs.nodes), seen, topdir)|
      ensures PartlySwept(old(fs.nodes), fs.nodes, RemovedSet(old(fs.nodes), fs.denied, seen, topdir))
    {
      ghost var before := fs.nodes;
      var todo, count := {topdir}, 0;
      SweepStarts(before, fs.denied, seen, topdir);
      while todo != {}
        invariant SweepProgress(before, fs.denied, seen, topdir, todo, fs.nodes, count)
        decreases Waiting(before, todo)
      {
        var p :| p in todo;
        SweepVisit(before, fs.denied, seen, topdir, todo, fs.nodes, count, p);
        todo := todo - {p} + Kids(fs.nodes, p);
        var one := SweepEntry(topdir, p);
        if one.Err? {
          return one;
        }
        count := count + one.value;
      }
      SweepEnds(before, fs.denied, seen, topdir, fs.nodes, count);
      return Ok(count);
    }

    /** Removes the links below `topdir` that were not seen, and the directories that were empty. */
    method Cleanup(topdir: Path) returns (r: Result<nat, Problem>)
      requires Valid()
      modifies fs, this`base
      ensures r.Ok? <==> StaleLinks(old(fs.nodes), seen, topdir) !! fs.denied
      ensures r.Ok? ==> Valid() && base == fs.nodes == Swept(old(fs.nodes), fs.denied, seen, topdir)
      ensures r.Ok? ==> r.value == |StaleLinks(old(fs.nodes), seen, topdir)|
      ensures PartlySwept(old(fs.nodes), fs.nodes, RemovedSet(old(fs.nodes), fs.denied, seen, topdir))
    {
      ghost var before := fs.nodes;
      WithLinksWellFormed(base, fs.denied, want);
      SweepKeepsWanted(before, fs.denied, want, topdir);
      if topdir !in fs.nodes {
        NothingBelow(before, fs.denied, seen, topdir);
        base := fs.nodes;
        return Ok(0);
      }
      r := Sweep(topdir);
      if r.Ok? {
        base := fs.nodes;
      }
    }

    method CreateLink(dir: Path, linkname: Path, target: Bytes) returns (r: Result<nat, Problem>)
      requires WellFormed(fs.nodes) && linkname != [] && dir == Parent(linkname)
      modifies fs, this`seen
      ensures r.Ok? <==> linkname !in old(fs.nodes) && linkname !in fs.denied && CanMake(old(fs.nodes), fs.denied, dir)
      ensures r.Ok? ==> r.value == 1 && fs.nodes == WithLinks(old(fs.nodes), map[linkname := target])
      ensures r.Ok? ==> seen == old(seen) + {linkname}
      ensures r.Err? ==> seen == old(seen) && OnlyFoldersAdded(old(fs.nodes), fs.nodes)
    {
      assert linkname == dir + [linkname[|dir|]];
      var made := fs.CreateDirAll(dir);
      if !made {
        return Err(CannotCreate(dir));
      }
      PrefixesUnder(dir, dir);
      PrefixesUnder(dir, linkname);
      var linked := fs.Symlink(target, linkname);
      if !linked {
        return Err(CannotCreate(linkname));
      }
      WithOneLink(old(fs.nodes), dir, linkname[|dir|], target);
      seen := seen + {linkname};
      return Ok(1);
    }

    /** What `Link` does with a name it has not seen: keep, create or replace the link. */
    method Place(dir: Path, linkname: Path, target: Bytes) returns (r: Result<nat, Problem>)
      requires WellFormed(fs.nodes) && linkname != [] && dir == Parent(linkname)
      modifies fs, this`seen
      ensures r.Ok? <==> Placeable(old(fs.nodes), fs.denied, linkname, target)
      ensures r.Ok? ==> fs.nodes == WithLinks(old(fs.nodes), map[linkname := target])
      ensures r.Ok? ==> seen == old(seen) + {linkname}
      ensures r.Ok? ==>
                r.value == if linkname in old(fs.nodes) && old(fs.nodes)[linkname].target == target then 0 else 1
      ensures r.Err? ==> seen == old(seen) && OnlyFoldersAdded(old(fs.nodes), fs.nodes)
    {
      ghost var before, h := fs.nodes, linkname[|dir|];
      assert linkname == dir + [h];
      ParentOfLink(dir, h);
      var found := fs.ReadLink(linkname);
      match found {
        case Target(p) =>
          ReplacedLink(before, linkname, target);
          if p == target {
            assert before == before[linkname := FileTree.Link(target)];
            seen := seen + {linkname};
            return Ok(0);
          }
          var removed := fs.RemoveFile(linkname);
          if !removed {
            return Err(CannotRemove(linkname));
          }
          RemovedThenLinked(before, dir, h, target);
          RemoveLinkWellFormed(before, linkname);
          r := CreateLink(dir, linkname, target);
        case NothingThere =>
          r := CreateLink(dir, linkname, target);
        case NotALink =>
          return Err(CannotReadLink(linkname));
      }
    }

    /** Creates, keeps or replaces a single link, unless its name was handled before. */
    method Link(dir: Path, ref: Bytes) returns (r: Result<nat, Problem>)
      requires Valid() && |ref| >= 32
      modifies fs, this`seen, this`want
      ensures r.Ok? <==> Feasible(base, fs.denied, AddRef(old(want), dir, ref))
      ensures r.Ok? ==> Valid() && want == AddRef(old(want), dir, ref)
      ensures r.Ok? ==> r.value == |Changed(base, want)| - |Changed(base, old(want))|
      ensures NothingLost(old(fs.nodes), fs.nodes)
    {
      var linkname := LinkName(dir, ref);
      var target := STORE + ref;
      if linkname in seen {
        return Ok(0);
      }
      WithLinksWellFormed(base, fs.denied, want);
      PlaceableStep(base, fs.denied, want, linkname, target);
      WithLinksOne(base, want, linkname, target);
      ChangedStep(base, want, linkname, target);
      ParentOfLink(dir, ExtractHash(ref));
      r := Place(dir, linkname, target);
      if r.Ok? {
        want := AddRef(want, dir, ref);
      }
    }

    /** Registers all references of one scanned path. */
    method Register(sp: StorePaths) returns (r: Result<nat, Problem>)
      requires Valid() && Hashable(sp)
      modifies fs, this`seen, this`want
      ensures var all := AddRefs(old(want), GcLinkDir(prefix, cwd, sp.entry.path), sp.refs);
              && (r.Ok? <==> Feasible(base, fs.denied, all))
              && (r.Ok? ==> Valid() && want == all)
      ensures r.Ok? ==> r.value == |Changed(base, want)| - |Changed(base, old(want))|
      ensures NothingLost(old(fs.nodes), fs.nodes)
    {
      var dir := GcLinkDir(prefix, cwd, sp.entry.path);
      ghost var first := want;
      var sum := 0;
      for i := 0 to |sp.refs|
        invariant Valid() && want == AddRefs(first, dir, sp.refs[..i])
        invariant sum == |Changed(base, want)| - |Changed(base, first)|
        invariant NothingLost(old(fs.nodes), fs.nodes)
      {
        NextRef(base, fs.denied, first, dir, sp.refs, i);
        var one := Link(dir, sp.refs[i]);
        if one.Err? {
          return Err(one.error);
        }
        sum := sum + one.value;
      }
      assert sp.refs[..|sp.refs|] == sp.refs;
      return Ok(sum);
    }

    /** Registers a whole queue, up to the first failure. */
    method RegisterAll(queue: seq<StorePaths>) returns (r: Result<nat, Problem>)
      requires Valid() && want == map[] && forall sp | sp in queue :: Hashable(sp)
      modifies fs, this`seen, this`want
      ensures r.Ok? <==> Feasible(base, fs.denied, WantedBy(prefix, cwd, queue))
      ensures r.Ok? ==> Valid() && want == WantedBy(prefix, cwd, queue)
      ensures r.Ok? ==> r.value == |Changed(base, want)|
      ensures NothingLost(old(fs.nodes), fs.nodes)
    {
      ghost var before := fs.nodes;
      var sum := 0;
      for i := 0 to |queue|
        invariant Valid() && want == WantedBy(prefix, cwd, queue[..i])
        invariant sum == |Changed(base, want)|
        invariant NothingLost(before, fs.nodes)
      {
        NextQueued(base, fs.denied, prefix, cwd, queue, i);
        var one := Register(queue[i]);
        if one.Err? {
          return Err(one.error);
        }
        sum := sum + one.value;
      }
      assert queue[..|queue|] == queue;
      return Ok(sum);
    }
  }

  // ---------------------------------------------------------------- committing a whole run

  /** Creating the user's own directory is tried once and never insisted on. */
  function WithPrefix(nodes: Nodes, denied: set<Path>, prefix: Path): Nodes {
    if prefix != [] && prefix !in nodes && Parent(prefix) in nodes && nodes[Parent(prefix)].Folder? && prefix !in denied
    then nodes[prefix := Folder]
    else nodes
  }

  /** The directory is there or can be made in its parent. */
  predicate CanCreate(nodes: Nodes, denied: set<Path>, p: Path) {
    p in nodes || (p != [] && p !in denied && Parent(p) in nodes && nodes[Parent(p)].Folder?)
  }

  /** Where links are to live: the user's directory, the directory for this scan, and where the scan was started. */
  datatype Place = Place(prefix: Path, topdir: Path, cwd: Path)

  function SweptTree(nodes: Nodes, denied: set<Path>, at: Place): Nodes {
    Swept(WithPrefix(nodes, denied, at.prefix), denied, {}, at.topdir)
  }

  function Wanted(at: Place, queue: seq<StorePaths>): map<Path, Bytes>
    requires forall sp | sp in queue :: Hashable(sp)
  {
    WantedBy(at.prefix, at.cwd, queue)
  }

  ghost predicate CommitSucceeds(nodes: Nodes, denied: set<Path>, at: Place, queue: seq<StorePaths>)
    requires forall sp | sp in queue :: Hashable(sp)
  {
    && StaleLinks(WithPrefix(nodes, denied, at.prefix), {}, at.topdir) !! denied
    && Feasible(SweptTree(nodes, denied, at), denied, Wanted(at, queue))
  }

  ghost function ReconciledTo(nodes: Nodes, denied: set<Path>, at: Place, want: map<Path, Bytes>): Nodes {
    WithLinks(SweptTree(nodes, denied, at), want)
  }

  /** The tree a successful commit leaves: swept, then linked. */
  ghost function Reconciled(nodes: Nodes, denied: set<Path>, at: Place, queue: seq<StorePaths>): Nodes
    requires forall sp | sp in queue :: Hashable(sp)
  {
    ReconciledTo(nodes, denied, at, Wanted(at, queue))
  }

  /** What even a failed commit leaves alone: files, and everything outside `topdir` but the targets of links.
      Here a link that is to point elsewhere can be created again once the old one is removed, since both need
      the same permission; where that fails for another reason, say on a full disk, the old link is lost. */
  ghost predicate Spared(nodes: Nodes, nodes': Nodes, topdir: Path) {
    forall q | q in nodes && (nodes[q].File? || !Under(topdir, q)) ::
      q in nodes' && (nodes'[q] == nodes[q] || (nodes[q].Link? && nodes'[q].Link?))
  }

  lemma PartSweepSpares(nodes: Nodes, started: Nodes, swept: Nodes, denied: set<Path>, seen: set<Path>, topdir: Path)
    requires forall q | q in nodes :: q in started && started[q] == nodes[q]
    requires PartlySwept(started, swept, RemovedSet(started, denied, seen, topdir))
    ensures Spared(nodes, swept, topdir)
  {
    forall q | q in nodes && (nodes[q].File? || !Under(topdir, q)) ensures q in swept {
      assert q !in RemovedSet(started, denied, seen, topdir);
      assert q in started.Keys;
    }
  }

  lemma SparedThenLinked(nodes: Nodes, swept: Nodes, linked: Nodes, topdir: Path)
    requires Spared(nodes, swept, topdir) && NothingLost(swept, linked)
    ensures Spared(nodes, linked, topdir)
  {}

  datatype Tally = Tally(cleaned: nat, registered: nat)

  /** What of the received store paths is printed, and how. */
  datatype ListMode = ListMode(list: bool, oneline: bool)

  function Printed(listing: ListMode, sps: seq<StorePaths>): Bytes {
    if listing.list then Output.Listings(listing.oneline, sps) else []
  }

  lemma PrintedSnoc(listing: ListMode, todo: seq<StorePaths>, written: Bytes, rx: seq<StorePaths>, i: nat)
    requires i < |rx|
    ensures todo + rx[..i + 1] == todo + rx[..i] + [rx[i]]
    ensures written + Printed(listing, rx[..i + 1]) == written + Printed(listing, rx[..i]) + Printed(listing, [rx[i]])
  {
    assert rx[..i + 1] == rx[..i] + [rx[i]];
    if listing.list {
      Output.ListingsSnoc(listing.oneline, rx[..i], rx[i]);
    }
  }

  class GCRoots {
    const fs: FileSystem
    const at: Place
    const out: Output.Writer
    const listing: ListMode
    var todo: seq<StorePaths>

    constructor (fs: FileSystem, at: Place, out: Output.Writer, listing: ListMode)
      ensures this.fs == fs && this.at == at && this.out == out && this.listing == listing && todo == []
    {
      this.fs, this.at, this.out, this.listing, todo := fs, at, out, listing, [];
    }

    /** Lists, if asked to, and queues what arrives on the channel. */
    method Receive(sp: StorePaths)
      modifies this, out
      ensures todo == old(todo) + [sp] && out.written == old(out.written) + Printed(listing, [sp])
    {
      if listing.list {
        Output.ListingsSnoc(listing.oneline, [], sp);
        Output.WriteStorePaths(out, listing.oneline, Output.AsListed(sp));
      }
      todo := todo + [sp];
    }

    /** That goes on until the channel is closed. */
    method RegisterLoop(rx: seq<StorePaths>)
      modifies this, out
      ensures todo == old(todo) + rx
      ensures out.written == old(out.written) + Printed(listing, rx)
      ensures !listing.list ==> out.written == old(out.written)
      ensures listing.list ==> out.written == old(out.written) + Output.Listings(listing.oneline, rx)
    {
      for i := 0 to |rx|
        invariant todo == old(todo) + rx[..i]
        invariant out.written == old(out.written) + Printed(listing, rx[..i])
      {
        PrintedSnoc(listing, old(todo), old(out.written), rx, i);
        Receive(rx[i]);
      }
      assert rx[..|rx|] == rx;
    }

    /** Creates the user's directory if that is possible, and sweeps the directory of this scan. */
    method Prepare() returns (worker: RegistryWorker, r: Result<nat, Problem>)
      requires WellFormed(fs.nodes)
      modifies fs
      ensures fresh(worker) && worker.fs == fs && worker.prefix == at.prefix && worker.cwd == at.cwd
      ensures r.Ok? <==> StaleLinks(WithPrefix(old(fs.nodes), fs.denied, at.prefix), {}, at.topdir) !! fs.denied
      ensures r.Ok? ==> worker.Valid() && worker.want == map[] && worker.seen == {}
      ensures r.Ok? ==> worker.base == fs.nodes == SweptTree(old(fs.nodes), fs.denied, at)
      ensures r.Ok? ==> r.value == |StaleLinks(WithPrefix(old(fs.nodes), fs.denied, at.prefix), {}, at.topdir)|
      ensures Spared(old(fs.nodes), fs.nodes, at.topdir)
      ensures CanCreate(old(fs.nodes), fs.denied, at.prefix) && !Under(at.topdir, at.prefix) ==> at.prefix in fs.nodes
    {
      var _ := fs.CreateDir(at.prefix);
      ghost var started := fs.nodes;
      worker := new RegistryWorker(fs, at.prefix, at.cwd);
      r := worker.Cleanup(at.topdir);
      PartSweepSpares(old(fs.nodes), started, fs.nodes, fs.denied, {}, at.topdir);
      assert !Under(at.topdir, at.prefix) ==> at.prefix !in RemovedSet(started, fs.denied, {}, at.topdir);
      assert CanCreate(old(fs.nodes), fs.denied, at.prefix) ==> at.prefix in started.Keys;
    }

    /** Sweeps the directory of this scan, then registers everything queued. */
    method Commit() returns (r: Result<Tally, Problem>)
      requires WellFormed(fs.nodes)
      requires forall sp | sp in todo :: Hashable(sp)
      modifies fs
      ensures r.Ok? <==> CommitSucceeds(old(fs.nodes), fs.denied, at, todo)
      ensures r.Ok? ==> fs.nodes == Reconciled(old(fs.nodes), fs.denied, at, todo)
      ensures r.Ok? ==> r.value.cleaned == |StaleLinks(WithPrefix(old(fs.nodes), fs.denied, at.prefix), {}, at.topdir)|
      ensures r.Ok? ==> r.value.registered == |Changed(SweptTree(old(fs.nodes), fs.denied, at), Wanted(at, todo))|
      ensures Spared(old(fs.nodes), fs.nodes, at.topdir)
      ensures CanCreate(old(fs.nodes), fs.denied, at.prefix) && !Under(at.topdir, at.prefix) ==> at.prefix in fs.nodes
    {
      var worker, cleaned := Prepare();
      if cleaned.Err? {
        return Err(cleaned.error);
      }
      ghost var swept := fs.nodes;
      var registered := worker.RegisterAll(todo);
      SparedThenLinked(old(fs.nodes), swept, fs.nodes, at.topdir);
      if registered.Err? {
        return Err(registered.error);
      }
      return Ok(Tally(cleaned.value, registered.value));
    }
  }

  datatype SetupError = WhoAmI | NoCurrentDir | RelativeStart

  /** The links of a user live in a directory of their own, those of a scan below it under the name of the
      directory scanned, which must be absolute. */
  method NewGCRoots(fs: FileSystem, peruser: Path, user: Option<Name>, startdir: ScannedPath, cwd: Option<Path>,
                    out: Output.Writer, listing: ListMode)
    returns (r: Result<GCRoots, SetupError>)
    ensures r.Err? <==> user.None? || cwd.None? || startdir.Relative?
    ensures r.Err? ==> r.error == if user.None? then WhoAmI else if cwd.None? then NoCurrentDir else RelativeStart
    ensures r.Ok? ==> r.value.fs == fs && r.value.out == out && r.value.listing == listing && r.value.todo == []
    ensures r.Ok? ==> r.value.at == Place(peruser + [user.value], peruser + [user.value] + startdir.comps, cwd.value)
  {
    if user.None? {
      return Err(WhoAmI);
    }
    var prefix := peruser + [user.value];
    if cwd.None? {
      return Err(NoCurrentDir);
    }
    if startdir.Relative? {
      return Err(RelativeStart);
    }
    var gc := new GCRoots(fs, Place(prefix, prefix + startdir.comps, cwd.value), out, listing);
    return Ok(gc);
  }
}
