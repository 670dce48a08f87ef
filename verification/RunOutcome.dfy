/** How a run ends, as a function of the tree, the cache and the link directory
    (`src/walk.rs:109-135`, `src/main.rs:150-155`). */
module RunOutcome {
  import opened Wrappers
  import opened StorePaths
  import opened Scanner
  import opened Cache
  import opened Registry
  import opened Reconciliation
  import opened Walk
  import opened PlainScan
  import opened WalkTheorems
  import opened CacheLimits

  // ---------------------------------------------------------------- what is delivered, in terms of the tree

  /** Without an abort, the registry receives the references of exactly those entries that are, with everything
      above them, on the start device and can be read; however the workers interleave. */
  lemma RunDeliversExactly(cfg: Config, world: set<Entry>, root: Tree, states: seq<State>, actions: seq<Action>,
                           i: nat, x: StorePaths)
    requires IsRun(cfg, root, states, actions) && Setup(cfg, world, root, states[0]) && i < |states|
    requires AfterJoin(states[i].phase) && RealTree(root)
    ensures x in Plain(states[i].todo) <==>
            exists e :: OnStartDevice(cfg, root, e) && !e.body.Directory? && cfg.scan(e).Ok? && cfg.scan(e).value != []
                        && x == StorePaths(e, cfg.scan(e).value, false)
    ensures multiset(Plain(states[i].todo))[x] ==
            if Found(cfg, x.entry, x) then Occurrences(cfg, root, x.entry) else 0
  {
    RunInvariant(cfg, world, root, states, actions, i);
    NothingLeft(cfg, world, root, states[0], states[i]);
    SameMembers(Plain(states[i].todo), ScanTree(cfg, root));
    PlainScanExact(cfg, root, x);
    PlainScanCounts(cfg, root, x);
  }

  // ---------------------------------------------------------------- an abort ends the walk

  /** Whoever marked the run as aborted has told the walker to quit, or is about to. */
  ghost predicate Quitting(s: State) {
    s.abort ==> s.quit || exists w | 0 <= w < |s.workers| :: s.workers[w].Aborting?
  }

  lemma QuittingKept(cfg: Config, s: State, a: Action)
    requires Enabled(cfg, s, a) && Quitting(s)
    ensures Quitting(Next(cfg, s, a))
    ensures s.quit ==> Next(cfg, s, a).quit && !a.Take?
  {
    var s' := Next(cfg, s, a);
    if s.abort && !s.quit {
      var w :| 0 <= w < |s.workers| && s.workers[w].Aborting?;
      assert s'.quit || s'.workers[w].Aborting?;
    } else if a.Step? && s'.abort && !s'.quit {
      assert s'.workers[a.w].Aborting?;
    }
  }

  lemma {:induction false} RunQuits(cfg: Config, root: Tree, states: seq<State>, actions: seq<Action>, i: nat)
    requires IsRun(cfg, root, states, actions) && i < |states|
    ensures Quitting(states[i])
  {
    if i > 0 {
      var s, a := states[i - 1], actions[i - 1];
      RunQuits(cfg, root, states, actions, i - 1);
      assert Enabled(cfg, s, a) && states[i] == Next(cfg, s, a);
      QuittingKept(cfg, s, a);
    }
  }

  lemma {:induction false} QuitStays(cfg: Config, root: Tree, states: seq<State>, actions: seq<Action>,
                                     i: nat, j: nat)
    requires IsRun(cfg, root, states, actions) && i <= j < |states| && states[i].quit
    ensures states[j].quit
  {
    if i < j {
      var s, a := states[j - 1], actions[j - 1];
      QuitStays(cfg, root, states, actions, i, j - 1);
      assert s.quit;
      assert Enabled(cfg, s, a) && states[j] == Next(cfg, s, a);
    }
  }

  /** Where a worker gives up, the whole walk ends: once it has returned, an aborted walk was told to quit, and no other
      was; and after that no worker takes another entry. */
  lemma AbortQuits(cfg: Config, world: set<Entry>, root: Tree, states: seq<State>, actions: seq<Action>, i: nat)
    requires IsRun(cfg, root, states, actions) && Setup(cfg, world, root, states[0]) && i < |states|
    ensures states[i].quit ==> forall j | i <= j < |actions| :: !actions[j].Take?
    ensures !states[i].phase.Walking? ==> (states[i].abort <==> states[i].quit)
  {
    RunInvariant(cfg, world, root, states, actions, i);
    RunQuits(cfg, root, states, actions, i);
    NoneLive(states[i].workers);
    if states[i].quit {
      forall j | i <= j < |actions| ensures !actions[j].Take? {
        QuitStays(cfg, root, states, actions, i, j);
        assert Enabled(cfg, states[j], actions[j]);
      }
    }
  }

  // ---------------------------------------------------------------- problems reported on the way

  /** Problems the worker has still to report for the entry at hand and what lies below it. */
  function ProblemsLeft(cfg: Config, pc: PC): nat {
    match pc
    case Entered(t) => Problems(cfg, t)
    case Scanning(e, kids) => Problems(cfg, Item(e, kids))
    case Checking(sp, kids) => Problems(cfg, Item(sp.entry, kids))
    case Inserting(sp, kids) => if VisitEntry(cfg, sp.entry).Goes? then AllProblems(cfg, kids) else 0
    case Reporting(_, kids) => AllProblems(cfg, kids)
    case Sending(_, kids) => AllProblems(cfg, kids)
    case Descending(kids) => AllProblems(cfg, kids)
    case _ => 0
  }

  function ProblemsOf(cfg: Config): PC -> nat {
    pc => ProblemsLeft(cfg, pc)
  }

  /** Problems counted, under way to the statistics, or still to be reported. */
  function AllSoft(cfg: Config, s: State): nat {
    s.softErrors + Soft(s.stats) + AllProblems(cfg, s.pending) + SumOver(s.workers, ProblemsOf(cfg))
  }

  lemma {:induction false} ProblemsAppend(cfg: Config, a: seq<Tree>, b: seq<Tree>)
    ensures AllProblems(cfg, a + b) == AllProblems(cfg, a) + AllProblems(cfg, b)
  {
    if a == [] {
      assert a + b == b;
    } else {
      assert (a + b)[1..] == a[1..] + b;
      ProblemsAppend(cfg, a[1..], b);
    }
  }

  lemma ProblemsRemove(cfg: Config, ts: seq<Tree>, k: nat)
    requires k < |ts|
    ensures AllProblems(cfg, ts) == Problems(cfg, ts[k]) + AllProblems(cfg, ts[..k] + ts[k + 1..])
  {
    ProblemsAppend(cfg, ts[..k], ts[k + 1..]);
    ProblemsAppend(cfg, ts[..k], ts[k..]);
    assert ts == ts[..k] + ts[k..] && ts[k..][1..] == ts[k + 1..];
  }

  /** The step reports what it takes off the problems left. */
  predicate Reports(cfg: Config, pc: PC, eff: Effect) {
    !eff.abort ==> ProblemsLeft(cfg, pc) == ProblemsLeft(cfg, eff.pc) + AllProblems(cfg, eff.queued) + Soft(eff.stats)
  }

  lemma FailReports(cfg: Config, c: CacheState, kids: seq<Tree>, f: Failure)
    ensures var eff := Fail(c, kids, f);
            && Soft(eff.stats) == (if Classify(f).SoftError? then 1 else 0)
            && ProblemsLeft(cfg, eff.pc) == (if eff.abort then 0 else AllProblems(cfg, kids))
            && eff.queued == []
  {}

  lemma ScanReports(cfg: Config, c: CacheState, e: Entry, kids: seq<Tree>)
    requires !e.body.Directory?
    ensures Reports(cfg, Scanning(e, kids), EffectOf(cfg, c, Scanning(e, kids)))
  {
    if cfg.scan(e).Err? {
      FailReports(cfg, c, kids, cfg.scan(e).error);
    }
  }

  lemma CheckReports(cfg: Config, c: CacheState, sp: StorePaths, kids: seq<Tree>)
    requires Fetch(cfg, sp.entry) == Ok(sp.refs)
    ensures Reports(cfg, Checking(sp, kids), Check(cfg, c, sp, kids))
  {
    FailReports(cfg, c, kids, NoMetadata);
    var partial := if sp.entry.error.PartialError? then [SoftProblem] else [];
    SoftAppend(partial, Fail(c, kids, NoMetadata).stats);
    assert partial + [] == partial;
  }

  lemma InsertReports(cfg: Config, c: CacheState, sp: StorePaths, kids: seq<Tree>)
    requires InsertResult(c, sp).Ok? ==> VisitEntry(cfg, sp.entry).Goes?
    ensures Reports(cfg, Inserting(sp, kids), EffectOf(cfg, c, Inserting(sp, kids)))
  {}

  lemma EffectReports(cfg: Config, world: set<Entry>, c: CacheState, pc: PC)
    requires StampsDetermine(world, cfg.scan) && SoundCache(cfg, world, c)
    requires Busy(pc) && GoodPc(cfg, world, pc)
    ensures Reports(cfg, pc, EffectOf(cfg, c, pc))
  {
    match pc {
      case Scanning(e, kids) => ScanReports(cfg, c, e, kids);
      case Checking(sp, kids) => CheckReports(cfg, c, sp, kids);
      case Inserting(sp, kids) =>
        InsertGood(cfg, world, c, sp);
        InsertReports(cfg, c, sp, kids);
      case _ =>
    }
  }

  lemma SoftKept(cfg: Config, world: set<Entry>, root: Tree, start: State, s: State, a: Action)
    requires Setup(cfg, world, root, start) && Invariant(cfg, world, root, start, s) && Enabled(cfg, s, a)
    requires !Next(cfg, s, a).abort
    ensures AllSoft(cfg, Next(cfg, s, a)) == AllSoft(cfg, s)
  {
    match a {
      case Take(w, k) =>
        ProblemsRemove(cfg, s.pending, k);
        SumUpdate(s.workers, ProblemsOf(cfg), w, Entered(s.pending[k]));
      case Step(w) =>
        var eff := EffectOf(cfg, s.cache, s.workers[w]);
        EffectReports(cfg, world, s.cache, s.workers[w]);
        SumUpdate(s.workers, ProblemsOf(cfg), w, eff.pc);
        SoftAppend(s.stats, eff.stats);
        ProblemsAppend(cfg, s.pending, eff.queued);
      case Exit(w) =>
        SumUpdate(s.workers, ProblemsOf(cfg), w, Exited);
      case _ =>
    }
  }

  lemma {:induction false} RunSoft(cfg: Config, world: set<Entry>, root: Tree,
                                   states: seq<State>, actions: seq<Action>, i: nat)
    requires IsRun(cfg, root, states, actions) && Setup(cfg, world, root, states[0]) && i < |states|
    requires !states[i].abort
    ensures AllSoft(cfg, states[i]) == Problems(cfg, root)
  {
    if i == 0 {
      assert AllProblems(cfg, [root]) == Problems(cfg, root);
      SumZero(states[0].workers, ProblemsOf(cfg));
    } else {
      var s, a := states[i - 1], actions[i - 1];
      assert Enabled(cfg, s, a) && states[i] == Next(cfg, s, a) && !s.abort;
      RunInvariant(cfg, world, root, states, actions, i - 1);
      RunSoft(cfg, world, root, states, actions, i - 1);
      SoftKept(cfg, world, root, states[0], s, a);
    }
  }

  /** Once the receive loops have ended without an abort, exactly the problems of the plain scan have been counted. */
  lemma RunCountsProblems(cfg: Config, world: set<Entry>, root: Tree,
                          states: seq<State>, actions: seq<Action>, i: nat)
    requires IsRun(cfg, root, states, actions) && Setup(cfg, world, root, states[0]) && i < |states|
    requires AfterJoin(states[i].phase)
    ensures states[i].softErrors == Problems(cfg, root)
  {
    RunInvariant(cfg, world, root, states, actions, i);
    RunSoft(cfg, world, root, states, actions, i);
    NoneLive(states[i].workers);
    assert states[i].workers[0].Exited?;
    SumZero(states[i].workers, ProblemsOf(cfg));
  }

  // ---------------------------------------------------------------- whether the links are registered

  /** Everything that can hold references lies below the start directory. */
  ghost predicate Inside(cfg: Config, world: set<Entry>, startdir: Path) {
    && cfg.at.topdir == cfg.at.prefix + startdir
    && forall e | e in world && !e.body.Directory? :: StrictlyBelow(startdir, e.path)
  }

  /** What has been received commits exactly if the findings of the plain scan would. */
  lemma ReceivedCommits(cfg: Config, world: set<Entry>, root: Tree, start: State, s: State, startdir: Path)
    requires Invariant(cfg, world, root, start, s) && AfterJoin(s.phase) && AllHashable(s.todo)
    ensures AllHashable(ScanTree(cfg, root))
    ensures Inside(cfg, world, startdir) || Agree(cfg.at, ScanTree(cfg, root)) ==>
              (CommitSucceeds(start.nodes, cfg.denied, cfg.at, s.todo) <==>
               CommitSucceeds(start.nodes, cfg.denied, cfg.at, ScanTree(cfg, root)))
  {
    var plain := ScanTree(cfg, root);
    NothingLeft(cfg, world, root, start, s);
    WantedPlain(cfg.at, s.todo);
    SameMembers(Plain(s.todo), plain);
    if Inside(cfg, world, startdir) {
      forall sp | sp in Plain(s.todo) ensures StrictlyBelow(startdir, sp.entry.path) {
        var i :| 0 <= i < |s.todo| && Plain(s.todo)[i] == sp;
        assert s.todo[i] in s.todo && Genuine(cfg, world, s.todo[i]);
        assert Fetch(cfg, s.todo[i].entry) == Ok(s.todo[i].refs);
      }
      SuccessIgnoresOrder(start.nodes, cfg.denied, cfg.at, startdir, Plain(s.todo), plain);
    } else if Agree(cfg.at, plain) {
      AgreedTargets(cfg.at, plain, Plain(s.todo));
    }
  }

  lemma {:induction false} PlainHashable(cfg: Config, t: Tree, quickcheck: nat)
    requires cfg.scan == ScannerWith(quickcheck)
    ensures AllHashable(ScanTree(cfg, t))
    decreases t
  {
    if t.Item? && VisitEntry(cfg, t.entry).Goes? {
      forall x | x in ScanTree(cfg, t) ensures Hashable(x) {
        if x in VisitEntry(cfg, t.entry).found {
          FoundRefs(t.entry, quickcheck);
        } else {
          ScanMember(cfg, t.kids, x);
          var k :| k in t.kids && x in ScanTree(cfg, k);
          PlainHashable(cfg, k, quickcheck);
        }
      }
    }
  }

  /** A registering run that has ended has registered its links exactly if the plain scan does not give up and its
      findings can be committed: no interleaving and no cache decides that. */
  lemma RunRegistersIff(cfg: Config, world: set<Entry>, root: Tree, states: seq<State>, actions: seq<Action>,
                        startdir: Path, quickcheck: nat)
    requires IsRun(cfg, root, states, actions) && Setup(cfg, world, root, states[0]) && Final(states[|actions|])
    requires LimitSuffices(cfg, root, states[0])
    requires cfg.register && cfg.scan == ScannerWith(quickcheck)
    ensures AllHashable(ScanTree(cfg, root))
    ensures Inside(cfg, world, startdir) || Agree(cfg.at, ScanTree(cfg, root)) ==>
              (Linked(states[|actions|].phase) <==>
               !GivesUp(cfg, root) && CommitSucceeds(states[0].nodes, cfg.denied, cfg.at, ScanTree(cfg, root)))
  {
    var s := states[|actions|];
    PlainHashable(cfg, root, quickcheck);
    RunAbortsExactly(cfg, world, root, states, actions);
    if !s.phase.Aborted? {
      RunInvariant(cfg, world, root, states, actions, |actions|);
      FindingsHashable(cfg, world, root, states, actions, |actions|, quickcheck);
      ReceivedCommits(cfg, world, root, states[0], s, startdir);
    }
  }

  // ---------------------------------------------------------------- the exit status

  /** What the program tells its caller, unless it panics. */
  function ExitStatus(s: State): nat
    requires Final(s) && !s.phase.Panicked?
  {
    if s.phase.Done? || s.phase.Unregistered? then (if s.softErrors == 0 then 0 else 1) else 2
  }

  /** The exit status follows from the tree, the link directory and whether the cache could be saved. */
  lemma ExitStatusExact(cfg: Config, world: set<Entry>, root: Tree, states: seq<State>, actions: seq<Action>,
                        startdir: Path, quickcheck: nat)
    requires IsRun(cfg, root, states, actions) && Setup(cfg, world, root, states[0]) && Final(states[|actions|])
    requires LimitSuffices(cfg, root, states[0]) && Inside(cfg, world, startdir)
    requires cfg.scan == ScannerWith(quickcheck)
    ensures AllHashable(ScanTree(cfg, root)) && !states[|actions|].phase.Panicked?
    ensures var last, plain := states[|actions|], ScanTree(cfg, root);
            ExitStatus(last) ==
              if GivesUp(cfg, root) then 2
              else if cfg.register && !CommitSucceeds(states[0].nodes, cfg.denied, cfg.at, plain) then 2
              else if last.phase.CacheFailed? then 2
              else if Problems(cfg, root) > 0 then 1 else 0
    ensures FoldersOnly(root) && !GivesUp(cfg, root) ==>
              (Problems(cfg, root) > 0 <==> exists e :: Reached(cfg, root, e) && Reported(e) > 0)
  {
    var s := states[|actions|];
    if FoldersOnly(root) && !GivesUp(cfg, root) {
      SomethingReported(cfg, root, quickcheck);
    }
    PlainHashable(cfg, root, quickcheck);
    RunAbortsExactly(cfg, world, root, states, actions);
    RunInvariant(cfg, world, root, states, actions, |actions|);
    if !s.phase.Aborted? {
      RunCountsProblems(cfg, world, root, states, actions, |actions|);
      FindingsHashable(cfg, world, root, states, actions, |actions|, quickcheck);
      if cfg.register {
        RunRegistersIff(cfg, world, root, states, actions, startdir, quickcheck);
      }
    }
  }
}
