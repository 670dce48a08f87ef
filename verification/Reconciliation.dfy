/** What committing the registry achieves: exact links, order independence, counts, repeated sweeps. */
module Reconciliation {
  import opened StoreRegex
  import opened StorePaths
  import opened FileTree
  import opened Registry

  // ---------------------------------------------------------------- which links are wanted

  /** The links that one scanned path asks for. */
  function Own(at: Place, sp: StorePaths): map<Path, Bytes>
    requires Hashable(sp)
  {
    AddRefs(map[], GcLinkDir(at.prefix, at.cwd, sp.entry.path), sp.refs)
  }

  ghost predicate AllHashable(queue: seq<StorePaths>) {
    forall sp | sp in queue :: Hashable(sp)
  }

  lemma {:induction false} AddRefsMerge(want: map<Path, Bytes>, dir: Path, refs: seq<Bytes>)
    requires forall r | r in refs :: |r| >= 32
    ensures AddRefs(want, dir, refs) == AddRefs(map[], dir, refs) + want
  {
    if refs != [] {
      AddRefsMerge(want, dir, refs[..|refs| - 1]);
    }
  }

  function Merge(ms: seq<map<Path, Bytes>>): map<Path, Bytes> {
    if ms == [] then map[] else ms[|ms| - 1] + Merge(ms[..|ms| - 1])
  }

  lemma {:induction false} MergeHas(ms: seq<map<Path, Bytes>>, i: nat, p: Path)
    requires i < |ms| && p in ms[i]
    ensures p in Merge(ms)
    decreases |ms|
  {
    if i < |ms| - 1 {
      MergeHas(ms[..|ms| - 1], i, p);
    }
  }

  lemma {:induction false} MergeFirst(ms: seq<map<Path, Bytes>>, p: Path) returns (i: nat)
    requires p in Merge(ms)
    ensures i < |ms| && p in ms[i] && Merge(ms)[p] == ms[i][p]
    ensures forall j | 0 <= j < i :: p !in ms[j]
    decreases |ms|
  {
    var init := ms[..|ms| - 1];
    if p in Merge(init) {
      i := MergeFirst(init, p);
    } else {
      i := |ms| - 1;
      forall j | 0 <= j < i ensures p !in ms[j] {
        if p in init[j] {
          MergeHas(init, j, p);
        }
      }
    }
  }

  function Owns(at: Place, queue: seq<StorePaths>): (ms: seq<map<Path, Bytes>>)
    requires forall sp | sp in queue :: Hashable(sp)
    ensures |ms| == |queue| && forall i | 0 <= i < |queue| :: ms[i] == Own(at, queue[i])
  {
    seq(|queue|, i requires 0 <= i < |queue| => Own(at, queue[i]))
  }

  lemma {:induction false} WantedIsMerge(at: Place, queue: seq<StorePaths>)
    requires AllHashable(queue)
    ensures Wanted(at, queue) == Merge(Owns(at, queue))
    decreases |queue|
  {
    if queue != [] {
      var init, last := queue[..|queue| - 1], queue[|queue| - 1];
      assert Hashable(last);
      AddRefsMerge(Wanted(at, init), GcLinkDir(at.prefix, at.cwd, last.entry.path), last.refs);
      WantedIsMerge(at, init);
      assert Owns(at, queue)[..|queue| - 1] == Owns(at, init);
    }
  }

  /** A queued path that asks for a name makes it wanted. */
  lemma AskedIsWanted(at: Place, queue: seq<StorePaths>, i: nat, p: Path)
    requires AllHashable(queue) && i < |queue| && p in Own(at, queue[i])
    ensures p in Wanted(at, queue)
  {
    WantedIsMerge(at, queue);
    MergeHas(Owns(at, queue), i, p);
  }

  /** The first queued path that asks for a wanted name decides its target. */
  lemma FirstAsker(at: Place, queue: seq<StorePaths>, p: Path) returns (i: nat)
    requires AllHashable(queue) && p in Wanted(at, queue)
    ensures i < |queue| && p in Own(at, queue[i]) && Wanted(at, queue)[p] == Own(at, queue[i])[p]
    ensures forall j | 0 <= j < i :: p !in Own(at, queue[j])
  {
    WantedIsMerge(at, queue);
    i := MergeFirst(Owns(at, queue), p);
  }

  /** A link is named by the first 32 bytes of the reference, directly inside its directory. */
  lemma LinkNameExact(dir: Path, r: Bytes)
    requires |r| >= 32
    ensures var p := LinkName(dir, r);
            && |p| == |dir| + 1 && p[..|dir|] == dir && |p[|dir|]| == 32
            && forall k | 0 <= k < 32 :: p[|dir|][k] == r[k]
    ensures LinkName(dir, r) == dir + [r[..32]]
    ensures WellFormedRef(r) ==> (forall k | 0 <= k < 32 :: HashByte(LinkName(dir, r)[|dir|][k])) && r[32] == DASH
  {}

  /** Two references share a link exactly if they share the directory and the hash. */
  lemma SameNameIff(dir: Path, r: Bytes, dir': Path, r': Bytes)
    requires |r| >= 32 && |r'| >= 32
    ensures LinkName(dir, r) == LinkName(dir', r') <==> dir == dir' && r[..32] == r'[..32]
  {
    LinkNameExact(dir, r);
    LinkNameExact(dir', r');
  }

  lemma {:induction false} RefIsWanted(dir: Path, refs: seq<Bytes>, i: nat)
    requires (forall r | r in refs :: |r| >= 32) && i < |refs|
    ensures dir + [refs[i][..32]] in AddRefs(map[], dir, refs)
    decreases |refs|
  {
    var init := refs[..|refs| - 1];
    LinkNameExact(dir, refs[i]);
    if i < |init| {
      RefIsWanted(dir, init, i);
      assert init[i] == refs[i];
    }
  }

  /** A path asks for links named by the hashes of its references, which are their first 32 bytes; each is to point
      to the first reference with that hash. */
  lemma {:induction false} FirstRef(dir: Path, refs: seq<Bytes>, p: Path) returns (i: nat)
    requires (forall r | r in refs :: |r| >= 32) && p in AddRefs(map[], dir, refs)
    ensures i < |refs| && p == dir + [refs[i][..32]] && |p[|dir|]| == 32
    ensures AddRefs(map[], dir, refs)[p] == STORE + refs[i]
    ensures forall j | 0 <= j < i :: p != dir + [refs[j][..32]]
    decreases |refs|
  {
    var init := refs[..|refs| - 1];
    if p in AddRefs(map[], dir, init) {
      i := FirstRef(dir, init, p);
    } else {
      i := |refs| - 1;
      LinkNameExact(dir, refs[i]);
      forall j | 0 <= j < i ensures p != dir + [refs[j][..32]] {
        RefIsWanted(dir, init, j);
        assert init[j] == refs[j];
      }
    }
  }

  // ---------------------------------------------------------------- exactness

  function LinksBelow(nodes: Nodes, top: Path): map<Path, Bytes> {
    map p | p in nodes && Under(top, p) && nodes[p].Link? :: nodes[p].target
  }

  /** For any wanted links: below the scan directory the links are the wanted ones; elsewhere links, files and
      directories stay, and what is new is wanted links and directories above them, or the user's directory. */
  lemma ReconciledExact(nodes: Nodes, denied: set<Path>, at: Place, want: map<Path, Bytes>)
    ensures var after := ReconciledTo(nodes, denied, at, want);
            && (forall p | p in want :: p in after && after[p] == Link(want[p]))
            && (forall p | p in after && p !in want && Under(at.topdir, p) :: !after[p].Link?)
            && (forall p | p in nodes && p !in want && (!Under(at.topdir, p) || nodes[p].File?) ::
                  p in after && after[p] == nodes[p])
            && (forall p | p in after && p !in nodes && p !in want ::
                  after[p].Folder? && (p in AllAbove(want) || p == at.prefix))
  {}

  /** The scanned path lies strictly below the directory where the scan started. */
  predicate StrictlyBelow(startdir: Path, scanned: ScannedPath) {
    scanned.Absolute? && scanned.comps != [] && Under(startdir, Parent(scanned.comps))
  }

  /** The links of a path below the start directory are in a directory at or below `topdir`, under the absolute path of
      the directory scanned; different directories have different link directories. */
  lemma LinkDirInside(at: Place, startdir: Path, a: ScannedPath, b: ScannedPath)
    requires at.topdir == at.prefix + startdir && StrictlyBelow(startdir, a) && StrictlyBelow(startdir, b)
    ensures Under(at.topdir, GcLinkDir(at.prefix, at.cwd, a))
    ensures GcLinkDir(at.prefix, at.cwd, a) + [a.comps[|a.comps| - 1]] == at.prefix + a.comps
    ensures GcLinkDir(at.prefix, at.cwd, a) == GcLinkDir(at.prefix, at.cwd, b) <==> Parent(a.comps) == Parent(b.comps)
  {
    var dir := GcLinkDir(at.prefix, at.cwd, a);
    assert a.comps == Parent(a.comps) + [a.comps[|a.comps| - 1]];
    assert dir[..|at.topdir|] == at.prefix + Parent(a.comps)[..|startdir|];
    assert dir[|at.prefix|..] == Parent(a.comps);
    assert GcLinkDir(at.prefix, at.cwd, b)[|at.prefix|..] == Parent(b.comps);
  }

  /** A relative path is registered where the absolute path it stands for is; one without a parent, under the current
      directory. */
  lemma RelativeAsAbsolute(prefix: Path, cwd: Path, comps: Path)
    requires comps != []
    ensures GcLinkDir(prefix, cwd, Relative(comps)) == GcLinkDir(prefix, cwd, Absolute(cwd + comps))
    ensures GcLinkDir(prefix, cwd, Relative(comps)) + [comps[|comps| - 1]] == prefix + (cwd + comps)
    ensures GcLinkDir(prefix, cwd, Absolute([])) == GcLinkDir(prefix, cwd, Relative([])) == prefix + cwd
  {
    assert Parent(cwd + comps) == cwd + Parent(comps);
    assert comps == Parent(comps) + [comps[|comps| - 1]];
  }

  lemma OwnInside(at: Place, startdir: Path, sp: StorePaths, p: Path)
    requires Hashable(sp) && at.topdir == at.prefix + startdir
    requires StrictlyBelow(startdir, sp.entry.path) && p in Own(at, sp)
    ensures Under(at.topdir, p) && p != at.topdir
  {
    var dir := GcLinkDir(at.prefix, at.cwd, sp.entry.path);
    var i := FirstRef(dir, sp.refs, p);
    LinkDirInside(at, startdir, sp.entry.path, sp.entry.path);
    assert p[..|at.topdir|] == dir[..|at.topdir|];
  }

  lemma WantedInside(at: Place, startdir: Path, queue: seq<StorePaths>)
    requires AllHashable(queue) && at.topdir == at.prefix + startdir
    requires forall sp | sp in queue :: StrictlyBelow(startdir, sp.entry.path)
    ensures forall p | p in Wanted(at, queue) :: Under(at.topdir, p) && p != at.topdir
  {
    forall p | p in Wanted(at, queue) ensures Under(at.topdir, p) && p != at.topdir {
      var i := FirstAsker(at, queue, p);
      assert queue[i] in queue;
      OwnInside(at, startdir, queue[i], p);
    }
  }

  ghost predicate ExactBelow(nodes: Nodes, denied: set<Path>, at: Place, want: map<Path, Bytes>, after: Nodes) {
    && LinksBelow(after, at.topdir) == want
    && (forall p | p in nodes && !Under(at.topdir, p) :: p in after && after[p] == nodes[p])
    && (forall p | p in after && p !in nodes && !Under(at.topdir, p) :: after[p].Folder? && Under(p, at.topdir))
    && |Changed(SweptTree(nodes, denied, at), want)| == |want|
  }

  lemma LinksAreWanted(nodes: Nodes, denied: set<Path>, at: Place, want: map<Path, Bytes>)
    requires forall p | p in want :: Under(at.topdir, p)
    ensures LinksBelow(ReconciledTo(nodes, denied, at, want), at.topdir) == want
  {
    ReconciledExact(nodes, denied, at, want);
  }

  lemma AboveWantedAboveTop(want: map<Path, Bytes>, top: Path, p: Path)
    requires forall l | l in want :: Under(top, l)
    requires p in AllAbove(want) && !Under(top, p)
    ensures Under(p, top)
  {}

  lemma OutsideUntouched(nodes: Nodes, denied: set<Path>, at: Place, want: map<Path, Bytes>)
    requires Under(at.prefix, at.topdir) && forall p | p in want :: Under(at.topdir, p)
    ensures var after := ReconciledTo(nodes, denied, at, want);
            && (forall p | p in nodes && !Under(at.topdir, p) :: p in after && after[p] == nodes[p])
            && (forall p | p in after && p !in nodes && !Under(at.topdir, p) :: after[p].Folder? && Under(p, at.topdir))
  {
    var after := ReconciledTo(nodes, denied, at, want);
    ReconciledExact(nodes, denied, at, want);
    forall p | p in after && p !in nodes && !Under(at.topdir, p) ensures Under(p, at.topdir) {
      if p != at.prefix {
        AboveWantedAboveTop(want, at.topdir, p);
      }
    }
  }

  /** A full sweep leaves no link below the scan directory, so every wanted link there counts as new. */
  lemma AllNewAfterSweep(nodes: Nodes, denied: set<Path>, want: map<Path, Bytes>, top: Path)
    requires forall l | l in want :: Under(top, l)
    ensures |Changed(Swept(nodes, denied, {}, top), want)| == |want|
  {
    var base := Swept(nodes, denied, {}, top);
    forall p | p in want && p in base ensures !base[p].Link? {
      assert p !in RemovedSet(nodes, denied, {}, top);
    }
    assert Changed(base, want) == want.Keys;
    assert |want| == |want.Keys|;
  }

  lemma ExactForInside(nodes: Nodes, denied: set<Path>, at: Place, want: map<Path, Bytes>)
    requires Under(at.prefix, at.topdir) && forall p | p in want :: Under(at.topdir, p)
    ensures ExactBelow(nodes, denied, at, want, ReconciledTo(nodes, denied, at, want))
  {
    LinksAreWanted(nodes, denied, at, want);
    OutsideUntouched(nodes, denied, at, want);
    AllNewAfterSweep(WithPrefix(nodes, denied, at.prefix), denied, want, at.topdir);
  }

  /** A commit for paths below the start directory: the links below `topdir` are exactly the wanted ones, and
      outside `topdir` nothing changes but for directories that were missing above it. The number of links
      reported as new is then the number of names. */
  lemma CommitExact(nodes: Nodes, denied: set<Path>, at: Place, startdir: Path, queue: seq<StorePaths>)
    requires AllHashable(queue) && at.topdir == at.prefix + startdir
    requires forall sp | sp in queue :: StrictlyBelow(startdir, sp.entry.path)
    ensures ExactBelow(nodes, denied, at, Wanted(at, queue), Reconciled(nodes, denied, at, queue))
  {
    WantedInside(at, startdir, queue);
    assert at.topdir[..|at.prefix|] == at.prefix;
    ExactForInside(nodes, denied, at, Wanted(at, queue));
  }

  // ---------------------------------------------------------------- arrival order

  ghost predicate Permutation(a: seq<StorePaths>, b: seq<StorePaths>) {
    multiset(a) == multiset(b)
  }

  lemma SameMembers(a: seq<StorePaths>, b: seq<StorePaths>)
    requires Permutation(a, b)
    ensures forall sp :: sp in a <==> sp in b
  {
    forall sp ensures sp in a <==> sp in b {
      assert sp in a <==> sp in multiset(a);
      assert sp in b <==> sp in multiset(b);
    }
  }

  lemma NamesWithin(at: Place, queue: seq<StorePaths>, queue': seq<StorePaths>, p: Path)
    requires AllHashable(queue) && AllHashable(queue') && forall sp | sp in queue :: sp in queue'
    requires p in Wanted(at, queue)
    ensures p in Wanted(at, queue')
  {
    var i := FirstAsker(at, queue, p);
    assert queue[i] in queue';
    var j :| 0 <= j < |queue'| && queue'[j] == queue[i];
    AskedIsWanted(at, queue', j, p);
  }

  lemma SameNames(at: Place, queue: seq<StorePaths>, queue': seq<StorePaths>)
    requires AllHashable(queue) && AllHashable(queue') && Permutation(queue, queue')
    ensures Wanted(at, queue).Keys == Wanted(at, queue').Keys
  {
    SameMembers(queue, queue');
    forall p ensures p in Wanted(at, queue) <==> p in Wanted(at, queue') {
      if p in Wanted(at, queue) { NamesWithin(at, queue, queue', p); }
      if p in Wanted(at, queue') { NamesWithin(at, queue', queue, p); }
    }
  }

  lemma SameNamesSameTree(base: Nodes, want: map<Path, Bytes>, want': map<Path, Bytes>, top: Path)
    requires want.Keys == want'.Keys
    ensures WithLinks(base, want).Keys == WithLinks(base, want').Keys
    ensures LinksBelow(WithLinks(base, want), top).Keys == LinksBelow(WithLinks(base, want'), top).Keys
  {}

  /** The order in which store paths arrive never matters for the names of the links. */
  lemma NamesIgnoreOrder(nodes: Nodes, denied: set<Path>, at: Place, queue: seq<StorePaths>, queue': seq<StorePaths>)
    requires AllHashable(queue) && Permutation(queue, queue')
    ensures AllHashable(queue')
    ensures Reconciled(nodes, denied, at, queue).Keys == Reconciled(nodes, denied, at, queue').Keys
    ensures LinksBelow(Reconciled(nodes, denied, at, queue), at.topdir).Keys ==
            LinksBelow(Reconciled(nodes, denied, at, queue'), at.topdir).Keys
  {
    SameMembers(queue, queue');
    SameNames(at, queue, queue');
    SameNamesSameTree(SweptTree(nodes, denied, at), Wanted(at, queue), Wanted(at, queue'), at.topdir);
  }

  lemma PlaceableBySweep(nodes: Nodes, denied: set<Path>, top: Path, want: map<Path, Bytes>, want': map<Path, Bytes>)
    requires want.Keys == want'.Keys && forall p | p in want :: Under(top, p)
    requires Feasible(Swept(nodes, denied, {}, top), denied, want)
    ensures Feasible(Swept(nodes, denied, {}, top), denied, want')
  {
    var base := Swept(nodes, denied, {}, top);
    forall p | p in want' ensures Placeable(base, denied, p, want'[p]) {
      assert p in want && Placeable(base, denied, p, want[p]);
      assert p in base ==> p !in RemovedSet(nodes, denied, {}, top);
    }
  }

  /** Nor for success, if the paths are below the start directory: whatever the wanted links point to, the sweep
      has cleared their places. */
  lemma SuccessIgnoresOrder(nodes: Nodes, denied: set<Path>, at: Place, startdir: Path,
                            queue: seq<StorePaths>, queue': seq<StorePaths>)
    requires AllHashable(queue) && AllHashable(queue') && Permutation(queue, queue')
    requires at.topdir == at.prefix + startdir
    requires forall sp | sp in queue :: StrictlyBelow(startdir, sp.entry.path)
    ensures CommitSucceeds(nodes, denied, at, queue) <==> CommitSucceeds(nodes, denied, at, queue')
  {
    WantedInside(at, startdir, queue);
    SameNames(at, queue, queue');
    var swept, want, want' := WithPrefix(nodes, denied, at.prefix), Wanted(at, queue), Wanted(at, queue');
    if CommitSucceeds(nodes, denied, at, queue) {
      PlaceableBySweep(swept, denied, at.topdir, want, want');
    }
    if CommitSucceeds(nodes, denied, at, queue') {
      PlaceableBySweep(swept, denied, at.topdir, want', want);
    }
  }

  /** Paths that ask for the same name want it to point to the same store path. */
  ghost predicate Agree(at: Place, queue: seq<StorePaths>)
    requires AllHashable(queue)
  {
    forall i, j, p | 0 <= i < |queue| && 0 <= j < |queue| && p in Own(at, queue[i]) && p in Own(at, queue[j]) ::
      Own(at, queue[i])[p] == Own(at, queue[j])[p]
  }

  lemma AgreedTargets(at: Place, queue: seq<StorePaths>, queue': seq<StorePaths>)
    requires AllHashable(queue) && AllHashable(queue') && Permutation(queue, queue') && Agree(at, queue)
    ensures Wanted(at, queue) == Wanted(at, queue')
  {
    SameMembers(queue, queue');
    SameNames(at, queue, queue');
    forall p | p in Wanted(at, queue) ensures Wanted(at, queue')[p] == Wanted(at, queue)[p] {
      var i := FirstAsker(at, queue, p);
      var j := FirstAsker(at, queue', p);
      assert queue'[j] in queue;
      var k :| 0 <= k < |queue| && queue[k] == queue'[j];
    }
  }

  function ToFront(queue: seq<StorePaths>, i: nat): seq<StorePaths>
    requires i < |queue|
  {
    [queue[i]] + (queue[..i] + queue[i + 1..])
  }

  lemma ToFrontDecides(at: Place, queue: seq<StorePaths>, i: nat, p: Path)
    requires AllHashable(queue) && i < |queue| && p in Own(at, queue[i])
    ensures var front := ToFront(queue, i);
            && Permutation(front, queue) && AllHashable(front)
            && p in Wanted(at, front) && Wanted(at, front)[p] == Own(at, queue[i])[p]
  {
    var front := ToFront(queue, i);
    assert queue == queue[..i] + [queue[i]] + queue[i + 1..];
    SameMembers(front, queue);
    assert front[0] == queue[i];
    AskedIsWanted(at, front, 0, p);
    var k := FirstAsker(at, front, p);
  }

  /** The order never matters for the targets either, exactly when no two queued paths disagree about a name. */
  lemma OrderIrrelevantIff(at: Place, queue: seq<StorePaths>)
    requires AllHashable(queue)
    ensures (forall q :: Permutation(q, queue) ==> AllHashable(q) && Wanted(at, q) == Wanted(at, queue)) <==>
            Agree(at, queue)
  {
    if Agree(at, queue) {
      forall q | Permutation(q, queue) ensures AllHashable(q) && Wanted(at, q) == Wanted(at, queue) {
        SameMembers(q, queue);
        AgreedTargets(at, queue, q);
      }
    } else {
      var i, j, p :| 0 <= i < |queue| && 0 <= j < |queue| && p in Own(at, queue[i]) && p in Own(at, queue[j]) &&
        Own(at, queue[i])[p] != Own(at, queue[j])[p];
      ToFrontDecides(at, queue, i, p);
      ToFrontDecides(at, queue, j, p);
    }
  }

  /** Without disagreement, success and the resulting tree are the same for every arrival order. */
  lemma Confluence(nodes: Nodes, denied: set<Path>, at: Place, queue: seq<StorePaths>, queue': seq<StorePaths>)
    requires AllHashable(queue) && Agree(at, queue) && Permutation(queue, queue')
    ensures AllHashable(queue')
    ensures CommitSucceeds(nodes, denied, at, queue) <==> CommitSucceeds(nodes, denied, at, queue')
    ensures Reconciled(nodes, denied, at, queue) == Reconciled(nodes, denied, at, queue')
  {
    SameMembers(queue, queue');
    AgreedTargets(at, queue, queue');
  }

  // ---------------------------------------------------------------- sweeping before or after linking

  /** Sweeping and then linking leaves the same links as linking and then sweeping what was not handled. */
  lemma SweepAndLinkCommute(nodes: Nodes, denied: set<Path>, want: map<Path, Bytes>, top: Path)
    ensures LinksBelow(WithLinks(Swept(nodes, denied, {}, top), want), top) ==
            LinksBelow(Swept(WithLinks(nodes, want), denied, want.Keys, top), top)
  {
    var a := WithLinks(Swept(nodes, denied, {}, top), want);
    var linked := WithLinks(nodes, want);
    var b := Swept(linked, denied, want.Keys, top);
    forall p ensures p in LinksBelow(a, top) <==> p in want && Under(top, p) {
      if p in Swept(nodes, denied, {}, top) && p !in want {
        assert p !in RemovedSet(nodes, denied, {}, top);
      }
    }
    forall p ensures p in LinksBelow(b, top) <==> p in want && Under(top, p) {
      if p in b {
        assert p !in RemovedSet(linked, denied, want.Keys, top);
      }
      if p in want {
        assert p in linked && p !in RemovedSet(linked, denied, want.Keys, top);
      }
    }
  }

  /** Sweeping first makes linking easier: whatever could be linked before can be linked after it. */
  lemma SweepHelpsLinking(nodes: Nodes, denied: set<Path>, want: map<Path, Bytes>, top: Path)
    requires WellFormed(nodes) && StaleLinks(nodes, {}, top) !! denied
    requires Feasible(nodes, denied, want)
    ensures Feasible(Swept(nodes, denied, {}, top), denied, want)
  {
    var left := Swept(nodes, denied, {}, top);
    forall p | p in want ensures Placeable(left, denied, p, want[p]) {
      assert Placeable(nodes, denied, p, want[p]);
      if p !in left {
        if p in nodes {
          assert p in RemovedSet(nodes, denied, {}, top) && p in StaleLinks(nodes, {}, top);
          AboveAreFolders(nodes, p);
        }
        forall q | q in Above(p) && q in nodes && q !in left ensures q !in denied {
          assert q in RemovedSet(nodes, denied, {}, top);
        }
      }
    }
  }

  // ---------------------------------------------------------------- repeated sweeps

  function SweepTimes(nodes: Nodes, denied: set<Path>, seen: set<Path>, top: Path, n: nat): Nodes {
    if n == 0 then nodes else Swept(SweepTimes(nodes, denied, seen, top, n - 1), denied, seen, top)
  }

  /** No number of sweeps removes such a node. */
  predicate Keeper(nodes: Nodes, denied: set<Path>, seen: set<Path>, top: Path, p: Path)
    requires p in nodes
  {
    || !Under(top, p)
    || match nodes[p]
       case File => true
       case Link(_) => p in seen
       case Folder => p == [] || p in denied
  }

  /** Something at or below `p` is kept for good, or lies at least `n` levels deeper. */
  ghost predicate Outlasts(nodes: Nodes, denied: set<Path>, seen: set<Path>, top: Path, p: Path, n: nat) {
    exists q | q in nodes :: Under(p, q) && (Keeper(nodes, denied, seen, top, q) || |q| >= |p| + n)
  }

  ghost predicate Survivors(nodes: Nodes, denied: set<Path>, seen: set<Path>, top: Path, n: nat, left: Nodes) {
    && (forall p :: p in left <==> p in nodes && Outlasts(nodes, denied, seen, top, p, n))
    && (forall p | p in left :: left[p] == nodes[p])
  }

  lemma AllSurvive(nodes: Nodes, denied: set<Path>, seen: set<Path>, top: Path)
    ensures Survivors(nodes, denied, seen, top, 0, nodes)
  {}

  lemma SurvivorOutlasts(nodes: Nodes, denied: set<Path>, seen: set<Path>, top: Path, p: Path, n: nat, before: Nodes)
    requires WellFormed(nodes) && Survivors(nodes, denied, seen, top, n, before)
    requires p in before && !IsRemoved(before, denied, seen, top, p)
    ensures Outlasts(nodes, denied, seen, top, p, n + 1)
  {
    if Keeper(nodes, denied, seen, top, p) {
      assert Under(p, p);
    } else {
      assert Children(before, p) != {};
      var c :| c in Children(before, p);
      var q :| q in nodes && Under(c, q) && (Keeper(nodes, denied, seen, top, q) || |q| >= |c| + n);
      UnderTransitive(p, c, q);
    }
  }

  lemma OutlastingSurvives(nodes: Nodes, denied: set<Path>, seen: set<Path>, top: Path, p: Path, n: nat, before: Nodes)
    requires WellFormed(nodes) && Survivors(nodes, denied, seen, top, n, before)
    requires p in nodes && Outlasts(nodes, denied, seen, top, p, n + 1)
    ensures p in before && !IsRemoved(before, denied, seen, top, p)
  {
    var q :| q in nodes && Under(p, q) && (Keeper(nodes, denied, seen, top, q) || |q| >= |p| + n + 1);
    assert Outlasts(nodes, denied, seen, top, p, n);
    if q != p {
      var c := q[..|p| + 1];
      AboveAreFolders(nodes, q);
      PrefixesUnder(q, c);
      PrefixesUnder(q, p);
      assert Under(c, q) && c in nodes;
      assert Outlasts(nodes, denied, seen, top, c, n);
      assert c in Children(before, p);
    }
  }

  lemma OneMoreSweep(nodes: Nodes, denied: set<Path>, seen: set<Path>, top: Path, p: Path, n: nat, before: Nodes)
    requires WellFormed(nodes) && Survivors(nodes, denied, seen, top, n, before)
    ensures p in Swept(before, denied, seen, top) <==> p in nodes && Outlasts(nodes, denied, seen, top, p, n + 1)
    ensures p in Swept(before, denied, seen, top) ==> Swept(before, denied, seen, top)[p] == nodes[p]
  {
    assert p in Swept(before, denied, seen, top) <==> p in before && !IsRemoved(before, denied, seen, top, p);
    if p in before && !IsRemoved(before, denied, seen, top, p) {
      SurvivorOutlasts(nodes, denied, seen, top, p, n, before);
    }
    if p in nodes && Outlasts(nodes, denied, seen, top, p, n + 1) {
      OutlastingSurvives(nodes, denied, seen, top, p, n, before);
    }
  }

  lemma SurvivorsNext(nodes: Nodes, denied: set<Path>, seen: set<Path>, top: Path, n: nat, before: Nodes)
    requires WellFormed(nodes) && Survivors(nodes, denied, seen, top, n, before)
    ensures Survivors(nodes, denied, seen, top, n + 1, Swept(before, denied, seen, top))
  {
    var left := Swept(before, denied, seen, top);
    forall p
      ensures p in left <==> p in nodes && Outlasts(nodes, denied, seen, top, p, n + 1)
      ensures p in left ==> left[p] == nodes[p]
    {
      OneMoreSweep(nodes, denied, seen, top, p, n, before);
    }
  }

  /** The nodes that survive `n` sweeps. */
  lemma {:induction false} SurvivorsExact(nodes: Nodes, denied: set<Path>, seen: set<Path>, top: Path,
                                          n: nat, left: Nodes)
    requires WellFormed(nodes) && left == SweepTimes(nodes, denied, seen, top, n)
    ensures Survivors(nodes, denied, seen, top, n, left)
  {
    if n == 0 {
      AllSurvive(nodes, denied, seen, top);
    } else {
      var before := SweepTimes(nodes, denied, seen, top, n - 1);
      SurvivorsExact(nodes, denied, seen, top, n - 1, before);
      SurvivorsNext(nodes, denied, seen, top, n - 1, before);
    }
  }

  ghost predicate Reaches(nodes: Nodes, top: Path, depth: nat) {
    exists q | q in nodes :: Under(top, q) && |q| >= |top| + depth
  }

  /** Below `top`, nothing is kept for good. */
  ghost predicate AllSweepable(nodes: Nodes, denied: set<Path>, seen: set<Path>, top: Path) {
    forall p | p in nodes && Under(top, p) :: !Keeper(nodes, denied, seen, top, p)
  }

  lemma DeepestBelow(nodes: Nodes, denied: set<Path>, seen: set<Path>, top: Path, p: Path, k: nat) returns (q: Path)
    requires AllSweepable(nodes, denied, seen, top)
    requires Under(top, p) && Outlasts(nodes, denied, seen, top, p, k)
    ensures q in nodes && Under(top, q) && |q| >= |p| + k
  {
    q :| q in nodes && Under(p, q) && (Keeper(nodes, denied, seen, top, q) || |q| >= |p| + k);
    UnderTransitive(top, p, q);
  }

  lemma OneSweep(nodes: Nodes, denied: set<Path>, seen: set<Path>, top: Path, p: Path)
    requires WellFormed(nodes)
    ensures p in Swept(nodes, denied, seen, top) <==> p in nodes && Outlasts(nodes, denied, seen, top, p, 1)
  {
    AllSurvive(nodes, denied, seen, top);
    OneMoreSweep(nodes, denied, seen, top, p, 0, nodes);
  }

  /** Where nothing is kept for good, a sweep removes every link and takes exactly one level off the height
      of the tree. */
  lemma SweepLowersByOne(nodes: Nodes, denied: set<Path>, seen: set<Path>, top: Path, depth: nat)
    requires WellFormed(nodes) && AllSweepable(nodes, denied, seen, top)
    ensures Reaches(Swept(nodes, denied, seen, top), top, depth) <==> Reaches(nodes, top, depth + 1)
    ensures LinksBelow(Swept(nodes, denied, seen, top), top) == map[]
  {
    var one := Swept(nodes, denied, seen, top);
    if p :| p in one && Under(top, p) && |p| >= |top| + depth {
      OneSweep(nodes, denied, seen, top, p);
      var q := DeepestBelow(nodes, denied, seen, top, p, 1);
    }
    if q :| q in nodes && Under(top, q) && |q| >= |top| + depth + 1 {
      var p := Parent(q);
      assert Under(top, p) && Under(p, q);
      assert Outlasts(nodes, denied, seen, top, p, 1);
      OneSweep(nodes, denied, seen, top, p);
      assert p in one;
    }
    forall p | p in one && Under(top, p) ensures !one[p].Link? {
      assert p !in RemovedSet(nodes, denied, seen, top);
    }
  }

  /** As many sweeps as the tree has levels erase it, and no fewer do. */
  lemma SweepsErase(nodes: Nodes, denied: set<Path>, seen: set<Path>, top: Path, n: nat)
    requires WellFormed(nodes) && AllSweepable(nodes, denied, seen, top)
    ensures (exists p | p in SweepTimes(nodes, denied, seen, top, n) :: Under(top, p)) <==> Reaches(nodes, top, n)
  {
    var many := SweepTimes(nodes, denied, seen, top, n);
    SurvivorsExact(nodes, denied, seen, top, n, many);
    if p :| p in many && Under(top, p) {
      var q := DeepestBelow(nodes, denied, seen, top, p, n);
    }
    if Reaches(nodes, top, n) {
      var q :| q in nodes && Under(top, q) && |q| >= |top| + n;
      AboveAreFolders(nodes, q);
      PrefixesUnder(q, top);
      assert top in nodes && Outlasts(nodes, denied, seen, top, top, n);
      assert top in many && Under(top, top);
    }
  }

  /** In the end exactly the nodes kept for good remain, with the directories above them. */
  lemma SweepsLeaveKeepers(nodes: Nodes, denied: set<Path>, seen: set<Path>, top: Path, n: nat)
    requires WellFormed(nodes)
    requires forall q | q in nodes && Under(top, q) :: |q| < |top| + n
    ensures forall p :: p in SweepTimes(nodes, denied, seen, top, n) <==>
              p in nodes && exists q | q in nodes :: Under(p, q) && Keeper(nodes, denied, seen, top, q)
  {
    SurvivorsExact(nodes, denied, seen, top, n, SweepTimes(nodes, denied, seen, top, n));
    forall p | p in nodes
      ensures Outlasts(nodes, denied, seen, top, p, n) <==>
              exists q | q in nodes :: Under(p, q) && Keeper(nodes, denied, seen, top, q)
    {
      if q :| q in nodes && Under(p, q) && (Keeper(nodes, denied, seen, top, q) || |q| >= |p| + n) {
        if !Keeper(nodes, denied, seen, top, q) && !Under(top, p) {
          assert Under(p, p) && Keeper(nodes, denied, seen, top, p);
        }
      }
    }
  }
}
