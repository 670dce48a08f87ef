/** Where links point to when findings disagree: the order in which the workers deliver them decides
    (`src/registry.rs:87-91`, `src/registry.rs:188-190`). */
module LinkTargets {
  import opened Wrappers
  import opened StoreRegex
  import opened StorePaths
  import opened Scanner
  import opened Cache
  import opened Registry
  import opened Reconciliation
  import opened Walk
  import opened PlainScan
  import opened WalkTheorems
  import opened CacheLimits
  import opened Schedules
  import opened RunOutcome

  // ---------------------------------------------------------------- what arrives first

  /** Received and under way. */
  function Deliveries(s: State): seq<StorePaths> {
    s.todo + s.channel
  }

  predicate First(s: State, sp: StorePaths) {
    Deliveries(s) != [] && Deliveries(s)[0] == sp
  }

  lemma FirstStep(cfg: Config, s: State, a: Action, sp: StorePaths)
    requires Enabled(cfg, s, a) && First(s, sp)
    ensures First(Next(cfg, s, a), sp)
  {
    if a.Receive? {
      assert Deliveries(Next(cfg, s, a)) == Deliveries(s);
    }
  }

  /** What is first stays first. */
  lemma {:induction false} FirstStays(cfg: Config, root: Tree, states: seq<State>, actions: seq<Action>,
                                      i: nat, j: nat, sp: StorePaths)
    requires IsRun(cfg, root, states, actions) && i <= j < |states| && First(states[i], sp)
    ensures First(states[j], sp)
  {
    if i < j {
      var s, a := states[j - 1], actions[j - 1];
      FirstStays(cfg, root, states, actions, i, j - 1, sp);
      assert First(s, sp);
      assert Enabled(cfg, s, a) && states[j] == Next(cfg, s, a);
      FirstStep(cfg, s, a, sp);
    }
  }

  /** Everything but directories. */
  function Files(world: set<Entry>): set<Entry> {
    set e | e in world && !e.body.Directory?
  }

  lemma Member(sps: seq<StorePaths>, x: StorePaths)
    requires Plain(sps) == sps
    ensures x in sps <==> Copies(sps, x) > 0
  {
    CopiesAreMultiplicity(sps, x);
  }

  /** Nothing has been delivered, and only files are left to visit. */
  ghost predicate OnlyFilesLeft(world: set<Entry>, s: State) {
    Resting(s) && Deliveries(s) == [] && AllFolders(s.pending) && forall t | t in s.pending :: Held(t, Files(world))
  }

  lemma StillToFind(cfg: Config, world: set<Entry>, root: Tree, start: State, s: State, x: StorePaths)
    requires Invariant(cfg, world, root, start, s) && Resting(s) && Deliveries(s) == []
    requires x in ScanTree(cfg, root)
    ensures x in ScanTrees(cfg, s.pending)
  {
    assert Balanced(cfg, root, s, x);
    SumZero(s.workers, FindsOf(cfg, x));
    ScanOne(cfg, root);
    ScansArePlain(cfg, [root]);
    ScansArePlain(cfg, s.pending);
    Member(ScanTrees(cfg, [root]), x);
    Member(ScanTrees(cfg, s.pending), x);
  }

  /** The finding is still to be delivered from one of the pending files. */
  lemma PendingFinding(cfg: Config, world: set<Entry>, root: Tree, states: seq<State>, actions: seq<Action>,
                       x: StorePaths) returns (k: nat)
    requires IsRun(cfg, root, states, actions) && Setup(cfg, world, root, states[0])
    requires OnlyFilesLeft(world, states[|actions|]) && x in ScanTree(cfg, root)
    ensures k < |states[|actions|].pending| && states[|actions|].pending[k].Item?
    ensures var e := states[|actions|].pending[k].entry;
            GoesOn(cfg, e) && VisitEntry(cfg, e).found == [x]
  {
    var s := states[|actions|];
    RunInvariant(cfg, world, root, states, actions, |actions|);
    StillToFind(cfg, world, root, states[0], s, x);
    ScanMember(cfg, s.pending, x);
    k :| 0 <= k < |s.pending| && x in ScanTree(cfg, s.pending[k]);
    assert FoldersOnly(s.pending[k]) && Held(s.pending[k], Files(world));
  }

  /** Where the plain scan does not give up and the limit suffices, no run ever aborts. */
  lemma NoAbort(cfg: Config, world: set<Entry>, root: Tree, states: seq<State>, actions: seq<Action>)
    requires IsRun(cfg, root, states, actions) && Setup(cfg, world, root, states[0])
    requires LimitSuffices(cfg, root, states[0]) && !GivesUp(cfg, root)
    ensures !states[|actions|].abort
  {
    if states[|actions|].abort {
      var states', actions' := FinishAborted(cfg, world, root, states, actions);
      RunAbortsExactly(cfg, world, root, states', actions');
    }
  }

  lemma FilesSilent(cfg: Config, world: set<Entry>)
    ensures Silent(cfg, world, Files(world))
  {}

  /** Directories first: they deliver nothing. */
  lemma LeaveFiles(cfg: Config, world: set<Entry>, root: Tree, start: State)
    returns (states: seq<State>, actions: seq<Action>)
    requires Initial(root, start) && Setup(cfg, world, root, start) && FoldersOnly(root)
    requires LimitSuffices(cfg, root, start) && !GivesUp(cfg, root)
    ensures IsRun(cfg, root, states, actions) && states[0] == start && OnlyFilesLeft(world, states[|actions|])
  {
    var keep := (c: CacheState) => true;
    FilesSilent(cfg, world);
    states, actions := VisitOthers(cfg, world, root, [start], [], Files(world), keep);
    NoAbort(cfg, world, root, states, actions);
    assert AllFolders(start.pending);
    assert Plain(states[|actions|].channel) == Plain(start.channel);
  }

  /** Then the file that holds the finding. */
  lemma DeliverNext(cfg: Config, world: set<Entry>, root: Tree, start: State, x: StorePaths)
    returns (states: seq<State>, actions: seq<Action>, sp: StorePaths)
    requires Initial(root, start) && Setup(cfg, world, root, start) && FoldersOnly(root)
    requires LimitSuffices(cfg, root, start) && !GivesUp(cfg, root) && x in ScanTree(cfg, root)
    ensures IsRun(cfg, root, states, actions) && states[0] == start
    ensures First(states[|actions|], sp) && sp.(cached := false) == x
  {
    states, actions := LeaveFiles(cfg, world, root, start);
    var s := states[|actions|];
    var k := PendingFinding(cfg, world, root, states, actions, x);
    states, actions := VisitOne(cfg, world, root, states, actions, k);
    NoAbort(cfg, world, root, states, actions);
    var s' := states[|actions|];
    assert Plain(s'.channel) == [x] && s'.todo == [];
    sp := s'.channel[0];
  }

  /** A run in which a given finding arrives first. */
  lemma DeliverFirst(cfg: Config, world: set<Entry>, root: Tree, start: State, x: StorePaths)
    returns (states: seq<State>, actions: seq<Action>)
    requires Initial(root, start) && Setup(cfg, world, root, start) && FoldersOnly(root)
    requires LimitSuffices(cfg, root, start) && !GivesUp(cfg, root) && x in ScanTree(cfg, root)
    ensures IsRun(cfg, root, states, actions) && states[0] == start && Final(states[|actions|])
    ensures !states[|actions|].phase.Aborted?
    ensures states[|actions|].todo != [] && states[|actions|].todo[0].(cached := false) == x
  {
    var before, done, sp := DeliverNext(cfg, world, root, start, x);
    states, actions := RunsFinish(cfg, root, before, done);
    assert states[|done|] == before[|done|] && states[0] == start;
    FirstStays(cfg, root, states, actions, |done|, |actions|, sp);
    RunAbortsExactly(cfg, world, root, states, actions);
    RunInvariant(cfg, world, root, states, actions, |actions|);
  }

  // ---------------------------------------------------------------- where the links point

  lemma FirstDecides(at: Place, queue: seq<StorePaths>, x: StorePaths, p: Path)
    requires AllHashable(queue) && Hashable(x) && queue != [] && queue[0].(cached := false) == x
    requires p in Own(at, x)
    ensures p in Wanted(at, queue) && Wanted(at, queue)[p] == Own(at, x)[p]
  {
    assert Own(at, queue[0]) == Own(at, x);
    AskedIsWanted(at, queue, 0, p);
    var i := FirstAsker(at, queue, p);
    assert i == 0;
  }

  lemma RunTargets(cfg: Config, world: set<Entry>, root: Tree, states: seq<State>, actions: seq<Action>, startdir: Path)
    requires IsRun(cfg, root, states, actions) && Setup(cfg, world, root, states[0])
    requires Inside(cfg, world, startdir) && Linked(states[|actions|].phase)
    ensures AllHashable(states[|actions|].todo)
    ensures LinksBelow(states[|actions|].nodes, cfg.at.topdir) == Wanted(cfg.at, states[|actions|].todo)
  {
    var s := states[|actions|];
    RunInvariant(cfg, world, root, states, actions, |actions|);
    forall sp | sp in s.todo ensures StrictlyBelow(startdir, sp.entry.path) {
      assert Fetch(cfg, sp.entry) == Ok(sp.refs);
    }
    CommitExact(states[0].nodes, cfg.denied, cfg.at, startdir, s.todo);
  }

  /** Some registering run from here ends with these links. */
  ghost predicate CanLink(cfg: Config, root: Tree, start: State, links: map<Path, Bytes>) {
    exists states: seq<State>, actions: seq<Action> ::
      && IsRun(cfg, root, states, actions) && states[0] == start
      && Final(states[|actions|]) && Linked(states[|actions|].phase)
      && LinksBelow(states[|actions|].nodes, cfg.at.topdir) == links
  }

  /** A registering run in which a given finding decides where its links point. */
  lemma LinkFirst(cfg: Config, world: set<Entry>, root: Tree, start: State, startdir: Path, quickcheck: nat,
                  x: StorePaths, p: Path)
    returns (links: map<Path, Bytes>)
    requires Initial(root, start) && Setup(cfg, world, root, start) && FoldersOnly(root)
    requires LimitSuffices(cfg, root, start) && Inside(cfg, world, startdir)
    requires cfg.register && cfg.scan == ScannerWith(quickcheck) && AllHashable(ScanTree(cfg, root))
    requires !GivesUp(cfg, root) && CommitSucceeds(start.nodes, cfg.denied, cfg.at, ScanTree(cfg, root))
    requires x in ScanTree(cfg, root) && p in Own(cfg.at, x)
    ensures CanLink(cfg, root, start, links) && p in links && links[p] == Own(cfg.at, x)[p]
  {
    var states, actions := DeliverFirst(cfg, world, root, start, x);
    RunRegistersIff(cfg, world, root, states, actions, startdir, quickcheck);
    RunTargets(cfg, world, root, states, actions, startdir);
    FirstDecides(cfg.at, states[|actions|].todo, x, p);
    links := LinksBelow(states[|actions|].nodes, cfg.at.topdir);
  }

  lemma AgreedLinks(cfg: Config, world: set<Entry>, root: Tree, start: State, startdir: Path, quickcheck: nat,
                    links: map<Path, Bytes>)
    requires Setup(cfg, world, root, start) && Inside(cfg, world, startdir)
    requires cfg.register && cfg.scan == ScannerWith(quickcheck) && AllHashable(ScanTree(cfg, root))
    requires Agree(cfg.at, ScanTree(cfg, root)) && CanLink(cfg, root, start, links)
    ensures links == Wanted(cfg.at, ScanTree(cfg, root))
  {
    var states: seq<State>, actions: seq<Action> :|
      && IsRun(cfg, root, states, actions) && states[0] == start
      && Final(states[|actions|]) && Linked(states[|actions|].phase)
      && LinksBelow(states[|actions|].nodes, cfg.at.topdir) == links;
    RunLeavesPlainLinks(cfg, world, root, states, actions, startdir, quickcheck);
  }

  /** All registering runs from here end with the same links. */
  ghost predicate SameTargets(cfg: Config, root: Tree, start: State) {
    forall links, links' | CanLink(cfg, root, start, links) && CanLink(cfg, root, start, links') :: links == links'
  }

  /** Where registering runs succeed at all, they end with the same links, in every interleaving, exactly if the
      findings of the plain scan agree about the target of each name. */
  lemma SameTargetsIff(cfg: Config, world: set<Entry>, root: Tree, start: State, startdir: Path, quickcheck: nat)
    requires Initial(root, start) && Setup(cfg, world, root, start) && FoldersOnly(root)
    requires LimitSuffices(cfg, root, start) && Inside(cfg, world, startdir)
    requires cfg.register && cfg.scan == ScannerWith(quickcheck)
    ensures AllHashable(ScanTree(cfg, root))
    ensures !GivesUp(cfg, root) && CommitSucceeds(start.nodes, cfg.denied, cfg.at, ScanTree(cfg, root)) ==>
              (SameTargets(cfg, root, start) <==> Agree(cfg.at, ScanTree(cfg, root)))
  {
    var plain := ScanTree(cfg, root);
    PlainHashable(cfg, root, quickcheck);
    if Agree(cfg.at, plain) {
      forall links | CanLink(cfg, root, start, links) ensures links == Wanted(cfg.at, plain) {
        AgreedLinks(cfg, world, root, start, startdir, quickcheck, links);
      }
    } else if !GivesUp(cfg, root) && CommitSucceeds(start.nodes, cfg.denied, cfg.at, plain) {
      var i, j, p :| 0 <= i < |plain| && 0 <= j < |plain| && p in Own(cfg.at, plain[i]) && p in Own(cfg.at, plain[j])
                     && Own(cfg.at, plain[i])[p] != Own(cfg.at, plain[j])[p];
      var links := LinkFirst(cfg, world, root, start, startdir, quickcheck, plain[i], p);
      var links' := LinkFirst(cfg, world, root, start, startdir, quickcheck, plain[j], p);
    }
  }

  // ---------------------------------------------------------------- the links of a run, in terms of the tree

  /** The entry is scanned, on the start device with everything above it, and holds this reference. */
  ghost predicate Holds(cfg: Config, root: Tree, e: Entry, r: Bytes) {
    OnStartDevice(cfg, root, e) && !e.body.Directory? && cfg.scan(e).Ok? && r in cfg.scan(e).value && |r| >= 32
  }

  /** The place of a link: under the user's directory, the absolute path of the directory the entry is in; and there
      the first 32 bytes of the reference. */
  function LinkPlace(cfg: Config, e: Entry, r: Bytes): Path
    requires |r| >= 32 && e.path.comps != []
  {
    cfg.at.prefix + e.path.comps[..|e.path.comps| - 1] + [r[..32]]
  }

  lemma LinkedIsHeld(cfg: Config, world: set<Entry>, root: Tree, states: seq<State>, actions: seq<Action>,
                     startdir: Path, p: Path) returns (e: Entry, r: Bytes)
    requires IsRun(cfg, root, states, actions) && Setup(cfg, world, root, states[0]) && RealTree(root)
    requires Inside(cfg, world, startdir) && AfterJoin(states[|actions|].phase) && AllHashable(states[|actions|].todo)
    requires p in Wanted(cfg.at, states[|actions|].todo)
    ensures Holds(cfg, root, e, r) && e.path.comps != [] && p == LinkPlace(cfg, e, r)
    ensures Wanted(cfg.at, states[|actions|].todo)[p] == STORE + r
  {
    var s := states[|actions|];
    var i := FirstAsker(cfg.at, s.todo, p);
    var sp := s.todo[i];
    assert Hashable(sp);
    var j := FirstRef(GcLinkDir(cfg.at.prefix, cfg.at.cwd, sp.entry.path), sp.refs, p);
    e, r := sp.entry, sp.refs[j];
    var x := sp.(cached := false);
    assert Plain(s.todo)[i] == x;
    RunDeliversExactly(cfg, world, root, states, actions, |actions|, x);
    RunInvariant(cfg, world, root, states, actions, |actions|);
    assert Genuine(cfg, world, sp);
    LinkDirInside(cfg.at, startdir, e.path, e.path);
  }

  lemma HeldIsLinked(cfg: Config, world: set<Entry>, root: Tree, states: seq<State>, actions: seq<Action>,
                     startdir: Path, e: Entry, r: Bytes)
    requires IsRun(cfg, root, states, actions) && Setup(cfg, world, root, states[0]) && RealTree(root)
    requires Inside(cfg, world, startdir) && AfterJoin(states[|actions|].phase) && AllHashable(states[|actions|].todo)
    requires Holds(cfg, root, e, r)
    ensures e.path.comps != [] && LinkPlace(cfg, e, r) in Wanted(cfg.at, states[|actions|].todo)
  {
    var s := states[|actions|];
    var x := StorePaths(e, cfg.scan(e).value, false);
    RunDeliversExactly(cfg, world, root, states, actions, |actions|, x);
    var i :| 0 <= i < |s.todo| && Plain(s.todo)[i] == x;
    RunInvariant(cfg, world, root, states, actions, |actions|);
    assert s.todo[i] in s.todo && Genuine(cfg, world, s.todo[i]) && Hashable(s.todo[i]);
    var j :| 0 <= j < |x.refs| && x.refs[j] == r;
    RefIsWanted(GcLinkDir(cfg.at.prefix, cfg.at.cwd, e.path), x.refs, j);
    LinkDirInside(cfg.at, startdir, e.path, e.path);
    AskedIsWanted(cfg.at, s.todo, i, LinkPlace(cfg, e, r));
  }

  /** After a registering run, the links below the directory of the scan are exactly these: for each reference held by
      an entry that is, with everything above it, on the start device, one that is named by its hash and points to a
      reference with that hash. */
  lemma RunLinksExactly(cfg: Config, world: set<Entry>, root: Tree, states: seq<State>, actions: seq<Action>,
                        startdir: Path)
    requires IsRun(cfg, root, states, actions) && Setup(cfg, world, root, states[0]) && RealTree(root)
    requires Inside(cfg, world, startdir) && Linked(states[|actions|].phase)
    ensures var links := LinksBelow(states[|actions|].nodes, cfg.at.topdir);
            && (forall e, r | Holds(cfg, root, e, r) :: e.path.comps != [] && LinkPlace(cfg, e, r) in links)
            && (forall p | p in links ::
                  exists e, r :: Holds(cfg, root, e, r) && e.path.comps != [] && p == LinkPlace(cfg, e, r)
                                 && links[p] == STORE + r)
  {
    RunTargets(cfg, world, root, states, actions, startdir);
    var links := Wanted(cfg.at, states[|actions|].todo);
    forall e, r | Holds(cfg, root, e, r) ensures e.path.comps != [] && LinkPlace(cfg, e, r) in links {
      HeldIsLinked(cfg, world, root, states, actions, startdir, e, r);
    }
    forall p | p in links
      ensures exists e, r :: Holds(cfg, root, e, r) && e.path.comps != [] && p == LinkPlace(cfg, e, r)
                             && links[p] == STORE + r
    {
      var e, r := LinkedIsHeld(cfg, world, root, states, actions, startdir, p);
    }
  }
}
