/** The parallel walk as a step system, and the phases of a run (`src/walk.rs`). */
module Walk {
  import opened Wrappers
  import opened StoreRegex
  import opened StorePaths
  import opened Scanner
  import opened Cache
  import opened FileTree
  import opened Registry
  import opened Reconciliation

  /** What the walker will visit: an entry with what lies below it, or an error it reports instead of one. */
  datatype Tree = Item(entry: Entry, kids: seq<Tree>) | WalkError

  datatype Config = Config(startdev: nat, scan: ScanFunction, register: bool, at: Place, denied: set<Path>)

  // ---------------------------------------------------------------- the plain scan

  datatype Verdict = Abort | Ignore | SoftError

  /** How the walk reacts to a failure. */
  function Classify(f: Failure): Verdict {
    match f
    case WalkAbort => Abort
    case FiletypeUnknown => Ignore
    case Io(PermissionDenied) => Abort
    case Io(NotFound) => Ignore
    case Io(OtherIo) => SoftError
    case Traversal => Abort
    case BadZip => SoftError
    case NoMetadata => SoftError
    case CacheFull => SoftError
  }

  datatype Visit = Quits | Skips | Goes(found: seq<StorePaths>)

  /** The references of an entry without any cache; directories have none. */
  function Fetch(cfg: Config, e: Entry): Result<seq<Bytes>, Failure> {
    if e.body.Directory? then Ok([]) else cfg.scan(e)
  }

  function Message(e: Entry, refs: seq<Bytes>): seq<StorePaths> {
    if refs == [] then [] else [StorePaths(e, refs, false)]
  }

  /** What visiting an entry amounts to, without any cache. */
  function VisitEntry(cfg: Config, e: Entry): Visit {
    var r := Fetch(cfg, e);
    if r.Err? then (if Classify(r.error).Abort? then Quits else Goes([]))
    else if e.error.HardError? then Quits
    else if e.meta.None? then Goes([])
    else if e.meta.value.dev != cfg.startdev then Skips
    else if !e.body.Directory? && e.ino.None? then Quits
    else Goes(Message(e, r.value))
  }

  /** How many problems the visit reports without giving up. */
  function Complaints(cfg: Config, e: Entry): nat {
    var r := Fetch(cfg, e);
    if r.Err? then (if Classify(r.error).SoftError? then 1 else 0)
    else (if e.error.PartialError? then 1 else 0) + if e.meta.None? then 1 else 0
  }

  /** The plain, recursive, uncached scan. */
  function ScanTree(cfg: Config, t: Tree): seq<StorePaths> {
    match t
    case WalkError => []
    case Item(e, kids) =>
      match VisitEntry(cfg, e)
      case Quits => []
      case Skips => []
      case Goes(found) => found + ScanTrees(cfg, kids)
  }

  function ScanTrees(cfg: Config, ts: seq<Tree>): seq<StorePaths> {
    if ts == [] then [] else ScanTree(cfg, ts[0]) + ScanTrees(cfg, ts[1..])
  }

  /** The problems reported during the plain scan. */
  function Problems(cfg: Config, t: Tree): nat {
    if t.WalkError? then 0
    else Complaints(cfg, t.entry) + if VisitEntry(cfg, t.entry).Goes? then AllProblems(cfg, t.kids) else 0
  }

  function AllProblems(cfg: Config, ts: seq<Tree>): nat {
    if ts == [] then 0 else Problems(cfg, ts[0]) + AllProblems(cfg, ts[1..])
  }

  /** The plain scan comes across something that makes the program give up. */
  ghost predicate GivesUp(cfg: Config, t: Tree) {
    match t
    case WalkError => true
    case Item(e, kids) =>
      match VisitEntry(cfg, e)
      case Quits => true
      case Skips => false
      case Goes(_) => exists k | k in kids :: GivesUp(cfg, k)
  }

  ghost predicate AnyGivesUp(cfg: Config, ts: seq<Tree>) {
    exists t | t in ts :: GivesUp(cfg, t)
  }

  ghost predicate TreeIn(t: Tree, world: set<Entry>) {
    t.Item? ==> t.entry in world && forall k | k in t.kids :: TreeIn(k, world)
  }

  // ---------------------------------------------------------------- the state

  /** Where a worker is between taking an entry and being done with it. */
  datatype PC =
    | Idle
    | Entered(t: Tree)
    | Scanning(e: Entry, kids: seq<Tree>)
    | Checking(sp: StorePaths, kids: seq<Tree>)
    | Inserting(sp: StorePaths, kids: seq<Tree>)
    | Reporting(sp: StorePaths, kids: seq<Tree>)
    | Sending(sp: StorePaths, kids: seq<Tree>)
    | Descending(kids: seq<Tree>)
    | Aborting
    | Exited

  datatype Phase =
    | Walking | WalkDone | LoopsDone | Registered      // still running
    | Done | Unregistered                              // success
    | Aborted | RegistryFailed | CacheFailed | Panicked

  datatype StatsMsg = Scanned | SoftProblem

  /** How many problems the messages report. */
  function Soft(msgs: seq<StatsMsg>): nat {
    if msgs == [] then 0 else (if msgs[0].SoftProblem? then 1 else 0) + Soft(msgs[1..])
  }

  lemma {:induction false} SoftAppend(a: seq<StatsMsg>, b: seq<StatsMsg>)
    ensures Soft(a + b) == Soft(a) + Soft(b)
  {
    if a == [] {
      assert a + b == b;
    } else {
      assert (a + b)[1..] == a[1..] + b;
      SoftAppend(a[1..], b);
    }
  }

  /** `cacheRefs` counts the shared references to the cache, the one that the walk hands back included. */
  datatype State = State(
    pending: seq<Tree>,
    workers: seq<PC>,
    cache: CacheState,
    cacheRefs: int,
    channel: seq<StorePaths>,
    stats: seq<StatsMsg>,
    todo: seq<StorePaths>,
    softErrors: nat,
    abort: bool,
    quit: bool,
    phase: Phase,
    nodes: Nodes)

  /** The sum of a figure over all workers. */
  function SumOver(workers: seq<PC>, f: PC -> nat): nat {
    if workers == [] then 0 else f(workers[0]) + SumOver(workers[1..], f)
  }

  lemma {:induction false} SumUpdate(ws: seq<PC>, f: PC -> nat, w: nat, pc: PC)
    requires w < |ws|
    ensures SumOver(ws[w := pc], f) + f(ws[w]) == SumOver(ws, f) + f(pc)
  {
    if w == 0 {
      assert ws[w := pc][1..] == ws[1..];
    } else {
      assert ws[w := pc][1..] == ws[1..][w - 1 := pc];
      SumUpdate(ws[1..], f, w - 1, pc);
    }
  }

  lemma {:induction false} SumZero(ws: seq<PC>, f: PC -> nat)
    requires forall w | 0 <= w < |ws| :: f(ws[w]) == 0
    ensures SumOver(ws, f) == 0
  {
    if ws != [] {
      assert f(ws[0]) == 0;
      SumZero(ws[1..], f);
    }
  }

  function Alive(pc: PC): nat {
    if pc.Exited? then 0 else 1
  }

  function Live(workers: seq<PC>): nat {
    SumOver(workers, Alive)
  }

  /** Copies of the processing context still alive; each holds both channels and the cache. */
  function Contexts(s: State): nat {
    Live(s.workers) + if s.phase.Walking? then 1 else 0
  }

  // ---------------------------------------------------------------- the steps

  datatype Action =
    | Take(w: nat, k: nat)            // a worker takes a pending entry
    | Step(w: nat)                    // a worker goes on with its entry
    | Exit(w: nat)                    // a worker finds nothing left to do
    | Receive                         // the registry takes a message
    | Count                           // the statistics take a message
    | WalkReturn                      // the walk is over and its context dropped
    | Join                            // both receive loops have ended
    | CommitRegistry(nodes: Nodes)    // the links are reconciled, or not; the tree after it
    | CommitCache(saving: Saving)

  /** What one step of a worker does: its next position, and what it changes outside. */
  datatype Effect = Effect(pc: PC, cache: CacheState, queued: seq<Tree>, sent: seq<StorePaths>, stats: seq<StatsMsg>,
                           abort: bool, quit: bool)

  function Move(c: CacheState, pc: PC): Effect {
    Effect(pc, c, [], [], [], false, false)
  }

  function Fail(c: CacheState, kids: seq<Tree>, f: Failure): Effect {
    match Classify(f)
    case Abort => Move(c, Aborting).(abort := true)
    case Ignore => Move(c, Descending(kids))
    case SoftError => Move(c, Descending(kids)).(stats := [SoftProblem])
  }

  /** The entry's own error, then its device. */
  function Check(cfg: Config, c: CacheState, sp: StorePaths, kids: seq<Tree>): Effect {
    if sp.entry.error.HardError? then Fail(c, kids, Traversal)
    else
      var partial := if sp.entry.error.PartialError? then [SoftProblem] else [];
      var eff :=
        if sp.entry.meta.None? then Fail(c, kids, NoMetadata)
        else if sp.entry.meta.value.dev != cfg.startdev then Move(c, Idle)
        else Move(c, Inserting(sp, kids));
      eff.(stats := partial + eff.stats)
  }

  predicate Busy(pc: PC) {
    !pc.Idle? && !pc.Exited?
  }

  /** One atomic step of a worker; access to the cache map is under its lock. */
  function EffectOf(cfg: Config, c: CacheState, pc: PC): Effect
    requires Busy(pc)
  {
    match pc
    case Entered(WalkError) => Fail(c, [], Traversal)
    case Entered(Item(e, kids)) =>
      var found := LookupResult(c, e);
      Move(AfterLookup(c, e), if found.Miss? then Scanning(e, kids) else Checking(found.sp, kids))
    case Scanning(e, kids) =>
      var r := cfg.scan(e);
      if r.Err? then Fail(c, kids, r.error) else Move(c, Checking(StorePaths(e, r.value, false), kids))
    case Checking(sp, kids) => Check(cfg, c, sp, kids)
    case Inserting(sp, kids) =>
      if InsertResult(c, sp).Err? then Fail(c, kids, WalkAbort) else Move(AfterInsert(c, sp), Reporting(sp, kids))
    case Reporting(sp, kids) => Move(c, Sending(sp, kids)).(stats := [Scanned])
    case Sending(sp, kids) => Move(c, Descending(kids)).(sent := if sp.refs == [] then [] else [sp])
    case Descending(kids) => Move(c, Idle).(queued := kids)
    case Aborting => Move(c, Idle).(quit := true)
  }

  function Goto(s: State, w: nat, pc: PC): State
    requires w < |s.workers|
  {
    s.(workers := s.workers[w := pc])
  }

  function Perform(s: State, w: nat, eff: Effect): State
    requires w < |s.workers|
  {
    Goto(s, w, eff.pc).(cache := eff.cache, pending := s.pending + eff.queued, channel := s.channel + eff.sent,
                        stats := s.stats + eff.stats, abort := s.abort || eff.abort, quit := s.quit || eff.quit)
  }

  predicate NoneBusy(workers: seq<PC>) {
    forall w | 0 <= w < |workers| :: !Busy(workers[w])
  }

  ghost predicate Enabled(cfg: Config, s: State, a: Action) {
    match a
    case Take(w, k) =>
      s.phase.Walking? && w < |s.workers| && s.workers[w].Idle? && !s.quit && k < |s.pending|
    case Step(w) => s.phase.Walking? && w < |s.workers| && Busy(s.workers[w])
    case Exit(w) =>
      s.phase.Walking? && w < |s.workers| && s.workers[w].Idle? && (s.quit || (s.pending == [] && NoneBusy(s.workers)))
    case Receive => (s.phase.Walking? || s.phase.WalkDone?) && s.channel != []
    case Count => (s.phase.Walking? || s.phase.WalkDone?) && s.stats != []
    case WalkReturn => s.phase.Walking? && Live(s.workers) == 0
    case Join => s.phase.WalkDone? && s.channel == [] && s.stats == [] && Contexts(s) == 0
    case CommitRegistry(nodes) =>
      s.phase.LoopsDone? &&
      (AllHashable(s.todo) ==>
         if CommitSucceeds(s.nodes, cfg.denied, cfg.at, s.todo)
         then nodes == Reconciled(s.nodes, cfg.denied, cfg.at, s.todo)
         else Spared(s.nodes, nodes, cfg.at.topdir))
    case CommitCache(_) => s.phase.Registered?
  }

  ghost function Next(cfg: Config, s: State, a: Action): State
    requires Enabled(cfg, s, a)
  {
    match a
    case Take(w, k) => Goto(s.(pending := s.pending[..k] + s.pending[k + 1..]), w, Entered(s.pending[k]))
    case Step(w) => Perform(s, w, EffectOf(cfg, s.cache, s.workers[w]))
    case Exit(w) => Goto(s, w, Exited).(cacheRefs := s.cacheRefs - 1)
    case Receive => s.(channel := s.channel[1..], todo := s.todo + [s.channel[0]])
    case Count =>
      s.(stats := s.stats[1..], softErrors := s.softErrors + if s.stats[0].SoftProblem? then 1 else 0)
    case WalkReturn => s.(phase := WalkDone, cacheRefs := if s.abort then s.cacheRefs - 1 else s.cacheRefs)
    case Join => s.(phase := if s.abort then Aborted else if cfg.register then LoopsDone else Unregistered)
    case CommitRegistry(nodes) =>
      // the panic would come in the middle of linking; what it leaves is not modelled, since no scan leads there
      if !AllHashable(s.todo) then s.(phase := Panicked)
      else
        var ok := CommitSucceeds(s.nodes, cfg.denied, cfg.at, s.todo);
        s.(nodes := nodes, phase := if ok then Registered else RegistryFailed)
    case CommitCache(saving) =>
      if s.cacheRefs != 1 then s.(phase := Panicked)
      else
        var clean := s.cache.image.None? || !s.cache.dirty;
        s.(cache := AfterCommit(s.cache, saving), phase := if clean || saving.Saved? then Done else CacheFailed)
  }

  predicate Final(s: State) {
    !s.phase.Walking? && !s.phase.WalkDone? && !s.phase.LoopsDone? && !s.phase.Registered?
  }

  /** How a run begins: one pending tree, some idle workers, an open cache or one without a file. */
  predicate Initial(root: Tree, s: State) {
    && s.pending == [root]
    && |s.workers| > 0 && (forall w | 0 <= w < |s.workers| :: s.workers[w].Idle?)
    && s.cacheRefs == |s.workers| + 1
    && s.channel == s.todo == [] && s.stats == [] && s.softErrors == 0
    && !s.abort && !s.quit && s.phase.Walking?
  }

  /** A finite sequence of enabled steps. */
  ghost predicate IsPath(cfg: Config, states: seq<State>, actions: seq<Action>) {
    && |states| == |actions| + 1
    && forall i | 0 <= i < |actions| ::
         Enabled(cfg, states[i], actions[i]) && states[i + 1] == Next(cfg, states[i], actions[i])
  }

  /** A run up to some point, in any interleaving of the workers and the receivers. */
  ghost predicate IsRun(cfg: Config, root: Tree, states: seq<State>, actions: seq<Action>) {
    IsPath(cfg, states, actions) && Initial(root, states[0])
  }

  lemma ExtendRun(cfg: Config, root: Tree, states: seq<State>, actions: seq<Action>, a: Action)
    requires IsRun(cfg, root, states, actions) && Enabled(cfg, states[|actions|], a)
    ensures IsRun(cfg, root, states + [Next(cfg, states[|actions|], a)], actions + [a])
  {
    var states', actions' := states + [Next(cfg, states[|actions|], a)], actions + [a];
    forall i | 0 <= i < |actions'|
      ensures Enabled(cfg, states'[i], actions'[i]) && states'[i + 1] == Next(cfg, states'[i], actions'[i])
    {
      if i < |actions| {
        assert Enabled(cfg, states[i], actions[i]);
      }
    }
  }

  // ---------------------------------------------------------------- every run ends

  function Size(t: Tree): nat {
    match t
    case WalkError => 11
    case Item(_, kids) => 11 + Sizes(kids)
  }

  function Sizes(ts: seq<Tree>): nat {
    if ts == [] then 0 else Size(ts[0]) + Sizes(ts[1..])
  }

  function Load(pc: PC): nat {
    match pc
    case Exited => 0
    case Idle => 1
    case Aborting => 2
    case Entered(t) => Size(t)
    case Scanning(_, kids) => Sizes(kids) + 10
    case Checking(_, kids) => Sizes(kids) + 9
    case Inserting(_, kids) => Sizes(kids) + 7
    case Reporting(_, kids) => Sizes(kids) + 6
    case Sending(_, kids) => Sizes(kids) + 4
    case Descending(kids) => Sizes(kids) + 2
  }

  function PhaseRank(p: Phase): nat {
    match p
    case Walking => 4
    case WalkDone => 3
    case LoopsDone => 2
    case Registered => 1
    case _ => 0
  }

  /** Work left: pending subtrees, positions of the workers, queued messages, phases to come. */
  function Measure(s: State): nat {
    Sizes(s.pending) + SumOver(s.workers, Load) + |s.channel| + |s.stats| + PhaseRank(s.phase)
  }

  lemma {:induction false} SizesAppend(a: seq<Tree>, b: seq<Tree>)
    ensures Sizes(a + b) == Sizes(a) + Sizes(b)
  {
    if a == [] {
      assert a + b == b;
    } else {
      assert (a + b)[1..] == a[1..] + b;
      SizesAppend(a[1..], b);
    }
  }

  lemma SizesRemove(ts: seq<Tree>, k: nat)
    requires k < |ts|
    ensures Sizes(ts) == Size(ts[k]) + Sizes(ts[..k] + ts[k + 1..])
  {
    SizesAppend(ts[..k], ts[k + 1..]);
    SizesAppend(ts[..k], ts[k..]);
    assert ts == ts[..k] + ts[k..] && ts[k..][1..] == ts[k + 1..];
  }

  lemma CheckShrinks(cfg: Config, c: CacheState, sp: StorePaths, kids: seq<Tree>)
    ensures var eff := Check(cfg, c, sp, kids);
            Load(eff.pc) + |eff.stats| < Load(Checking(sp, kids)) && eff.queued == [] && eff.sent == []
  {}

  lemma FailShrinks(c: CacheState, kids: seq<Tree>, f: Failure)
    ensures var eff := Fail(c, kids, f);
            Load(eff.pc) + |eff.stats| <= Sizes(kids) + 3 && eff.queued == [] && eff.sent == []
  {}

  lemma EffectShrinks(cfg: Config, c: CacheState, pc: PC)
    requires Busy(pc)
    ensures var eff := EffectOf(cfg, c, pc);
            Load(eff.pc) + Sizes(eff.queued) + |eff.sent| + |eff.stats| < Load(pc)
  {
    match pc {
      case Entered(WalkError) => FailShrinks(c, [], Traversal);
      case Scanning(e, kids) =>
        if cfg.scan(e).Err? { FailShrinks(c, kids, cfg.scan(e).error); }
      case Checking(sp, kids) => CheckShrinks(cfg, c, sp, kids);
      case Inserting(_, kids) => FailShrinks(c, kids, WalkAbort);
      case _ =>
    }
  }

  /** Every step of every run uses up some of the work left. */
  lemma StepShrinks(cfg: Config, s: State, a: Action)
    requires Enabled(cfg, s, a)
    ensures Measure(Next(cfg, s, a)) < Measure(s)
  {
    match a {
      case Take(w, k) =>
        SizesRemove(s.pending, k);
        SumUpdate(s.workers, Load, w, Entered(s.pending[k]));
      case Step(w) =>
        var eff := EffectOf(cfg, s.cache, s.workers[w]);
        EffectShrinks(cfg, s.cache, s.workers[w]);
        SumUpdate(s.workers, Load, w, eff.pc);
        SizesAppend(s.pending, eff.queued);
      case Exit(w) =>
        SumUpdate(s.workers, Load, w, Exited);
      case _ =>
    }
  }

  /** No run is longer than the work it starts with. */
  lemma {:induction false} RunsAreBounded(cfg: Config, root: Tree, states: seq<State>, actions: seq<Action>)
    requires IsRun(cfg, root, states, actions)
    ensures |actions| + Measure(states[|actions|]) <= Measure(states[0])
    decreases |actions|
  {
    var n := |actions|;
    if n > 0 {
      var states', actions' := states[..n], actions[..n - 1];
      assert IsRun(cfg, root, states', actions') by {
        forall i | 0 <= i < n - 1
          ensures Enabled(cfg, states'[i], actions'[i]) && states'[i + 1] == Next(cfg, states'[i], actions'[i])
        {
          assert Enabled(cfg, states[i], actions[i]);
        }
      }
      RunsAreBounded(cfg, root, states', actions');
      assert Enabled(cfg, states[n - 1], actions[n - 1]);
      StepShrinks(cfg, states[n - 1], actions[n - 1]);
    }
  }

  lemma {:induction false} NoneLive(workers: seq<PC>)
    ensures Live(workers) == 0 <==> forall w | 0 <= w < |workers| :: workers[w].Exited?
  {
    if workers != [] {
      NoneLive(workers[1..]);
      assert forall w | 1 <= w < |workers| :: workers[w] == workers[1..][w - 1];
      if forall w | 0 <= w < |workers| :: workers[w].Exited? {
        assert workers[0].Exited?;
        forall w | 0 <= w < |workers[1..]| ensures workers[1..][w].Exited? { assert workers[w + 1].Exited?; }
      }
    }
  }

  /** After the walk returned, no copy of its context is left. */
  predicate ContextsDropped(s: State) {
    !s.phase.Walking? ==> Contexts(s) == 0
  }

  /** A state that is not final always allows some step: nothing ever waits forever. */
  lemma NeverStuck(cfg: Config, s: State) returns (a: Action)
    requires ContextsDropped(s) && !Final(s)
    ensures Enabled(cfg, s, a)
  {
    match s.phase {
      case Walking =>
        NoneLive(s.workers);
        if w :| 0 <= w < |s.workers| && Busy(s.workers[w]) {
          a := Step(w);
        } else if w :| 0 <= w < |s.workers| && s.workers[w].Idle? {
          a := if s.quit || s.pending == [] then Exit(w) else Take(w, 0);
        } else {
          a := WalkReturn;
        }
      case WalkDone =>
        a := if s.channel != [] then Receive else if s.stats != [] then Count else Join;
      case LoopsDone =>
        if AllHashable(s.todo) && CommitSucceeds(s.nodes, cfg.denied, cfg.at, s.todo) {
          a := CommitRegistry(Reconciled(s.nodes, cfg.denied, cfg.at, s.todo));
        } else {
          a := CommitRegistry(s.nodes);
        }
      case Registered =>
        a := CommitCache(Saved);
    }
  }

  lemma StepDropsContexts(cfg: Config, s: State, a: Action)
    requires ContextsDropped(s) && Enabled(cfg, s, a)
    ensures ContextsDropped(Next(cfg, s, a))
  {}

  lemma {:induction false} RunDropsContexts(cfg: Config, root: Tree, states: seq<State>, actions: seq<Action>, i: nat)
    requires IsRun(cfg, root, states, actions) && i < |states|
    ensures ContextsDropped(states[i])
  {
    if i > 0 {
      RunDropsContexts(cfg, root, states, actions, i - 1);
      assert Enabled(cfg, states[i - 1], actions[i - 1]);
      StepDropsContexts(cfg, states[i - 1], actions[i - 1]);
    }
  }

  /** Every run can be brought to its end. */
  lemma {:induction false} RunsFinish(cfg: Config, root: Tree, states: seq<State>, actions: seq<Action>)
    returns (states': seq<State>, actions': seq<Action>)
    requires IsRun(cfg, root, states, actions)
    ensures IsRun(cfg, root, states', actions') && states <= states' && actions <= actions'
    ensures Final(states'[|actions'|])
    decreases Measure(states[|actions|])
  {
    var s := states[|actions|];
    if Final(s) {
      states', actions' := states, actions;
    } else {
      RunDropsContexts(cfg, root, states, actions, |actions|);
      var a := NeverStuck(cfg, s);
      ExtendRun(cfg, root, states, actions, a);
      StepShrinks(cfg, s, a);
      states', actions' := RunsFinish(cfg, root, states + [Next(cfg, s, a)], actions + [a]);
    }
  }

  // ---------------------------------------------------------------- one worker on its own

  /** The worker has taken an entry and not yet decided what becomes of it. */
  predicate Underway(pc: PC) {
    Busy(pc) && !pc.Descending? && !pc.Aborting?
  }

  function StepsLeft(pc: PC): nat {
    match pc
    case Entered(_) => 6
    case Scanning(_, _) => 5
    case Checking(_, _) => 4
    case Inserting(_, _) => 3
    case Reporting(_, _) => 2
    case Sending(_, _) => 1
    case _ => 0
  }

  function AndThen(a: Effect, b: Effect): Effect {
    Effect(b.pc, b.cache, a.queued + b.queued, a.sent + b.sent, a.stats + b.stats, a.abort || b.abort, a.quit || b.quit)
  }

  /** What a worker does with its entry when nobody comes between. */
  function Alone(cfg: Config, c: CacheState, pc: PC): Effect
    requires Underway(pc)
    decreases StepsLeft(pc)
  {
    var eff := EffectOf(cfg, c, pc);
    if Underway(eff.pc) then AndThen(eff, Alone(cfg, eff.cache, eff.pc)) else eff
  }

  lemma PerformTwice(s: State, w: nat, a: Effect, b: Effect)
    requires w < |s.workers|
    ensures Perform(Perform(s, w, a), w, b) == Perform(s, w, AndThen(a, b))
  {
    assert s.pending + a.queued + b.queued == s.pending + (a.queued + b.queued);
    assert s.channel + a.sent + b.sent == s.channel + (a.sent + b.sent);
    assert s.stats + a.stats + b.stats == s.stats + (a.stats + b.stats);
  }

  /** It is one of the interleavings. */
  lemma {:induction false} AloneIsRun(cfg: Config, root: Tree, states: seq<State>, actions: seq<Action>, w: nat)
    returns (states': seq<State>, actions': seq<Action>)
    requires IsRun(cfg, root, states, actions)
    requires var s := states[|actions|]; s.phase.Walking? && w < |s.workers| && Underway(s.workers[w])
    ensures IsRun(cfg, root, states', actions') && states <= states' && actions <= actions'
    ensures var s := states[|actions|]; states'[|actions'|] == Perform(s, w, Alone(cfg, s.cache, s.workers[w]))
    decreases StepsLeft(states[|actions|].workers[w])
  {
    var s := states[|actions|];
    var eff := EffectOf(cfg, s.cache, s.workers[w]);
    ExtendRun(cfg, root, states, actions, Step(w));
    states', actions' := states + [Next(cfg, s, Step(w))], actions + [Step(w)];
    if Underway(eff.pc) {
      PerformTwice(s, w, eff, Alone(cfg, eff.cache, eff.pc));
      states', actions' := AloneIsRun(cfg, root, states', actions', w);
    }
  }

  /** The end of such a chain: the line is inserted, or there is no room, and the findings are passed on. */
  function PassedOn(cfg: Config, c: CacheState, sp: StorePaths, kids: seq<Tree>): (eff: Effect)
    ensures eff == Alone(cfg, c, Inserting(sp, kids))
  {
    if InsertResult(c, sp).Err? then Fail(c, kids, WalkAbort)
    else
      var c' := AfterInsert(c, sp);
      assert Alone(cfg, c', Sending(sp, kids)) == EffectOf(cfg, c', Sending(sp, kids));
      assert Alone(cfg, c', Reporting(sp, kids)) ==
             AndThen(EffectOf(cfg, c', Reporting(sp, kids)), Alone(cfg, c', Sending(sp, kids)));
      Move(c', Descending(kids)).(sent := if sp.refs == [] then [] else [sp], stats := [Scanned])
  }

  /** What follows once the references are known, from the cache or by scanning. */
  function Judged(cfg: Config, c: CacheState, sp: StorePaths, kids: seq<Tree>): (eff: Effect)
    ensures eff == Alone(cfg, c, Checking(sp, kids))
  {
    var checked := Check(cfg, c, sp, kids);
    if checked.pc.Inserting? then AndThen(checked, PassedOn(cfg, c, sp, kids)) else checked
  }

  /** The whole chain for one entry. */
  function Visiting(cfg: Config, c: CacheState, e: Entry, kids: seq<Tree>): (eff: Effect)
    ensures eff == Alone(cfg, c, Entered(Item(e, kids)))
  {
    var c', found := AfterLookup(c, e), LookupResult(c, e);
    if !found.Miss? then Judged(cfg, c', found.sp, kids)
    else
      assert Alone(cfg, c', Scanning(e, kids)) ==
             (var eff := EffectOf(cfg, c', Scanning(e, kids));
              if Underway(eff.pc) then AndThen(eff, Alone(cfg, eff.cache, eff.pc)) else eff);
      var r := cfg.scan(e);
      if r.Err? then Fail(c', kids, r.error) else Judged(cfg, c', StorePaths(e, r.value, false), kids)
  }
}
