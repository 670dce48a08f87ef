/** What every run of the parallel walk has in common with the plain sequential scan. */
module WalkTheorems {
  import opened Wrappers
  import opened StoreRegex
  import opened StorePaths
  import opened Scanner
  import opened Cache
  import opened Registry
  import opened Reconciliation
  import opened Walk

  // ---------------------------------------------------------------- what is still to be delivered

  /** The trees a worker has taken and not yet handed on. */
  function Rest(pc: PC): seq<Tree> {
    match pc
    case Entered(t) => [t]
    case Scanning(e, kids) => [Item(e, kids)]
    case Checking(sp, kids) => [Item(sp.entry, kids)]
    case Inserting(sp, kids) => [Item(sp.entry, kids)]
    case Reporting(sp, kids) => [Item(sp.entry, kids)]
    case Sending(sp, kids) => [Item(sp.entry, kids)]
    case Descending(kids) => kids
    case _ => []
  }

  /** Messages without the note whether they came from the cache. */
  function Plain(sps: seq<StorePaths>): (ps: seq<StorePaths>)
    ensures |ps| == |sps| && forall i | 0 <= i < |sps| :: ps[i] == sps[i].(cached := false)
  {
    seq(|sps|, i requires 0 <= i < |sps| => sps[i].(cached := false))
  }

  /** How often a finding occurs among messages. */
  function Copies(sps: seq<StorePaths>, x: StorePaths): nat {
    if sps == [] then 0 else (if sps[0].(cached := false) == x then 1 else 0) + Copies(sps[1..], x)
  }

  /** How often the plain scan of some trees finds it. */
  function Finds(cfg: Config, ts: seq<Tree>, x: StorePaths): nat {
    Copies(ScanTrees(cfg, ts), x)
  }

  function FindsOf(cfg: Config, x: StorePaths): PC -> nat {
    pc => Finds(cfg, Rest(pc), x)
  }

  function RestFinds(cfg: Config, workers: seq<PC>, x: StorePaths): nat {
    SumOver(workers, FindsOf(cfg, x))
  }

  /** How often it has been received, is under way, or is still to be found. */
  function Total(cfg: Config, s: State, x: StorePaths): nat {
    Copies(s.todo, x) + Copies(s.channel, x) + Finds(cfg, s.pending, x) + RestFinds(cfg, s.workers, x)
  }

  ghost predicate TroubleAhead(cfg: Config, s: State) {
    AnyGivesUp(cfg, s.pending) || exists w | 0 <= w < |s.workers| :: AnyGivesUp(cfg, Rest(s.workers[w]))
  }

  lemma {:induction false} CopiesAppend(a: seq<StorePaths>, b: seq<StorePaths>, x: StorePaths)
    ensures Copies(a + b, x) == Copies(a, x) + Copies(b, x)
  {
    if a == [] {
      assert a + b == b;
    } else {
      assert (a + b)[1..] == a[1..] + b;
      CopiesAppend(a[1..], b, x);
    }
  }

  lemma {:induction false} CopiesAreMultiplicity(sps: seq<StorePaths>, x: StorePaths)
    ensures multiset(Plain(sps))[x] == Copies(sps, x)
  {
    if sps != [] {
      assert Plain(sps) == [sps[0].(cached := false)] + Plain(sps[1..]);
      CopiesAreMultiplicity(sps[1..], x);
    }
  }

  lemma {:induction false} ScanAppend(cfg: Config, a: seq<Tree>, b: seq<Tree>)
    ensures ScanTrees(cfg, a + b) == ScanTrees(cfg, a) + ScanTrees(cfg, b)
  {
    if a == [] {
      assert a + b == b;
    } else {
      assert (a + b)[1..] == a[1..] + b;
      ScanAppend(cfg, a[1..], b);
    }
  }

  lemma FindsAppend(cfg: Config, a: seq<Tree>, b: seq<Tree>, x: StorePaths)
    ensures Finds(cfg, a + b, x) == Finds(cfg, a, x) + Finds(cfg, b, x)
  {
    ScanAppend(cfg, a, b);
    CopiesAppend(ScanTrees(cfg, a), ScanTrees(cfg, b), x);
  }

  lemma ScanOne(cfg: Config, t: Tree)
    ensures ScanTrees(cfg, [t]) == ScanTree(cfg, t)
  {}

  lemma RemoveOne(cfg: Config, ts: seq<Tree>, k: nat, x: StorePaths)
    requires k < |ts|
    ensures Finds(cfg, ts, x) == Finds(cfg, [ts[k]], x) + Finds(cfg, ts[..k] + ts[k + 1..], x)
    ensures AnyGivesUp(cfg, ts) <==> GivesUp(cfg, ts[k]) || AnyGivesUp(cfg, ts[..k] + ts[k + 1..])
  {
    var a, b := ts[..k], ts[k + 1..];
    assert ts == a + ([ts[k]] + b);
    FindsAppend(cfg, a, b, x);
    FindsAppend(cfg, a, [ts[k]] + b, x);
    FindsAppend(cfg, [ts[k]], b, x);
    assert forall t :: t in ts <==> t == ts[k] || t in a || t in b;
    assert forall t :: t in a + b <==> t in a || t in b;
  }

  // ---------------------------------------------------------------- what is known about a worker's position

  ghost predicate KidsIn(kids: seq<Tree>, world: set<Entry>) {
    forall k | k in kids :: TreeIn(k, world)
  }

  /** The references are those of a fresh scan, wherever they came from. */
  ghost predicate Genuine(cfg: Config, world: set<Entry>, sp: StorePaths) {
    && sp.entry in world && Fetch(cfg, sp.entry) == Ok(sp.refs)
    && (sp.entry.body.Directory? ==> sp.cached)
    && (sp.cached && !sp.entry.body.Directory? ==> sp.entry.ino.Some?)
  }

  predicate OnDevice(cfg: Config, e: Entry) {
    !e.error.HardError? && e.meta.Some? && e.meta.value.dev == cfg.startdev
  }

  ghost predicate GoodPc(cfg: Config, world: set<Entry>, pc: PC) {
    match pc
    case Entered(t) => TreeIn(t, world)
    case Scanning(e, kids) => e in world && !e.body.Directory? && KidsIn(kids, world)
    case Checking(sp, kids) => Genuine(cfg, world, sp) && KidsIn(kids, world)
    case Inserting(sp, kids) => Genuine(cfg, world, sp) && KidsIn(kids, world) && OnDevice(cfg, sp.entry)
    case Reporting(sp, kids) =>
      Genuine(cfg, world, sp) && KidsIn(kids, world) && VisitEntry(cfg, sp.entry) == Goes(Message(sp.entry, sp.refs))
    case Sending(sp, kids) =>
      Genuine(cfg, world, sp) && KidsIn(kids, world) && VisitEntry(cfg, sp.entry) == Goes(Message(sp.entry, sp.refs))
    case Descending(kids) => KidsIn(kids, world)
    case _ => true
  }

  ghost predicate SoundCache(cfg: Config, world: set<Entry>, c: CacheState) {
    && Sound(Strip(c.lines), world, cfg.scan)
    && (c.image.Some? ==> Sound(Decoded(c.image.value), world, cfg.scan))
  }

  lemma LookupGood(cfg: Config, world: set<Entry>, c: CacheState, e: Entry)
    requires StampsDetermine(world, cfg.scan) && SoundCache(cfg, world, c) && e in world
    ensures SoundCache(cfg, world, AfterLookup(c, e))
    ensures !LookupResult(c, e).Miss? ==> Genuine(cfg, world, LookupResult(c, e).sp)
    ensures LookupResult(c, e).Miss? ==> !e.body.Directory?
  {
    ApplyKeepsSound(c, Look(e), world, cfg.scan);
  }

  lemma InsertGood(cfg: Config, world: set<Entry>, c: CacheState, sp: StorePaths)
    requires StampsDetermine(world, cfg.scan) && SoundCache(cfg, world, c)
    requires Genuine(cfg, world, sp) && OnDevice(cfg, sp.entry)
    ensures SoundCache(cfg, world, AfterInsert(c, sp))
    ensures InsertResult(c, sp).Ok? ==> VisitEntry(cfg, sp.entry) == Goes(Message(sp.entry, sp.refs))
    ensures InsertResult(c, sp).Err? ==> VisitEntry(cfg, sp.entry).Quits? || Full(c)
  {
    ApplyKeepsSound(c, Put(sp), world, cfg.scan);
  }

  /** One step of a worker keeps what is known. */
  lemma EffectGood(cfg: Config, world: set<Entry>, c: CacheState, pc: PC)
    requires StampsDetermine(world, cfg.scan) && SoundCache(cfg, world, c)
    requires Busy(pc) && GoodPc(cfg, world, pc)
    ensures var eff := EffectOf(cfg, c, pc);
            && GoodPc(cfg, world, eff.pc) && SoundCache(cfg, world, eff.cache)
            && KidsIn(eff.queued, world)
            && (forall sp | sp in eff.sent :: Genuine(cfg, world, sp) && sp.refs != [])
            && eff.cache.limit == c.limit && eff.cache.image == c.image
            && (eff.quit ==> pc.Aborting?) && (eff.pc.Aborting? ==> eff.abort)
  {
    match pc {
      case Entered(Item(e, _)) => LookupGood(cfg, world, c, e);
      case Inserting(sp, _) => InsertGood(cfg, world, c, sp);
      case _ =>
    }
  }

  /** A worker's step is at most one lookup or one insertion, so the map keeps its lines and its limit. */
  lemma EffectSize(cfg: Config, c: CacheState, pc: PC)
    requires Busy(pc)
    ensures var eff := EffectOf(cfg, c, pc);
            && c.lines.Keys <= eff.cache.lines.Keys && eff.cache.limit == c.limit
            && (Full(c) ==> Full(eff.cache))
            && (c.limit > 0 ==> |eff.cache.lines| <= Max(|c.lines|, c.limit))
  {}

  /** The step hands on what it takes, unless it aborts. */
  ghost predicate Accounts(cfg: Config, c: CacheState, taken: seq<Tree>, eff: Effect, x: StorePaths) {
    && (!eff.abort ==>
          Finds(cfg, taken, x) == Finds(cfg, Rest(eff.pc), x) + Finds(cfg, eff.queued, x) + Copies(eff.sent, x))
    && (!eff.abort ==> (AnyGivesUp(cfg, taken) <==> AnyGivesUp(cfg, Rest(eff.pc)) || AnyGivesUp(cfg, eff.queued)))
    && (eff.abort ==> AnyGivesUp(cfg, taken) || Full(c))
  }

  lemma ItemAccounts(cfg: Config, e: Entry, kids: seq<Tree>, x: StorePaths)
    ensures var v := VisitEntry(cfg, e);
            && Finds(cfg, [Item(e, kids)], x) == (if v.Goes? then Copies(v.found, x) + Finds(cfg, kids, x) else 0)
            && (AnyGivesUp(cfg, [Item(e, kids)]) <==> v.Quits? || (v.Goes? && AnyGivesUp(cfg, kids)))
  {
    ScanOne(cfg, Item(e, kids));
    assert Item(e, kids) in [Item(e, kids)];
    var v := VisitEntry(cfg, e);
    if v.Goes? {
      CopiesAppend(v.found, ScanTrees(cfg, kids), x);
    }
  }

  lemma FailAccounts(cfg: Config, c: CacheState, e: Entry, kids: seq<Tree>, f: Failure, eff: Effect, x: StorePaths)
    requires eff == Fail(c, kids, f).(stats := eff.stats)
    requires VisitEntry(cfg, e) == if Classify(f).Abort? then Quits else Goes([])
    ensures Accounts(cfg, c, [Item(e, kids)], eff, x)
  {
    ItemAccounts(cfg, e, kids, x);
  }

  lemma CheckAccounts(cfg: Config, world: set<Entry>, c: CacheState, sp: StorePaths, kids: seq<Tree>, x: StorePaths)
    requires Genuine(cfg, world, sp)
    ensures Accounts(cfg, c, [Item(sp.entry, kids)], Check(cfg, c, sp, kids), x)
  {
    var eff := Check(cfg, c, sp, kids);
    if sp.entry.error.HardError? {
      FailAccounts(cfg, c, sp.entry, kids, Traversal, eff, x);
    } else if sp.entry.meta.None? {
      FailAccounts(cfg, c, sp.entry, kids, NoMetadata, eff, x);
    } else {
      ItemAccounts(cfg, sp.entry, kids, x);
    }
  }

  lemma InsertAccounts(cfg: Config, world: set<Entry>, c: CacheState, sp: StorePaths, kids: seq<Tree>, x: StorePaths)
    requires StampsDetermine(world, cfg.scan) && SoundCache(cfg, world, c)
    requires Genuine(cfg, world, sp) && OnDevice(cfg, sp.entry)
    ensures Accounts(cfg, c, [Item(sp.entry, kids)], EffectOf(cfg, c, Inserting(sp, kids)), x)
  {
    InsertGood(cfg, world, c, sp);
    ItemAccounts(cfg, sp.entry, kids, x);
  }

  lemma SendAccounts(cfg: Config, c: CacheState, sp: StorePaths, kids: seq<Tree>, x: StorePaths)
    requires VisitEntry(cfg, sp.entry) == Goes(Message(sp.entry, sp.refs))
    ensures Accounts(cfg, c, [Item(sp.entry, kids)], EffectOf(cfg, c, Sending(sp, kids)), x)
  {
    ItemAccounts(cfg, sp.entry, kids, x);
    assert Copies(Message(sp.entry, sp.refs), x) == Copies(if sp.refs == [] then [] else [sp], x);
  }

  /** One step of a worker moves findings on without losing or duplicating any, unless it aborts. */
  lemma EffectAccounts(cfg: Config, world: set<Entry>, c: CacheState, pc: PC, x: StorePaths)
    requires StampsDetermine(world, cfg.scan) && SoundCache(cfg, world, c)
    requires Busy(pc) && GoodPc(cfg, world, pc) && !pc.Aborting?
    ensures Accounts(cfg, c, Rest(pc), EffectOf(cfg, c, pc), x)
  {
    match pc {
      case Entered(WalkError) =>
        assert WalkError in [WalkError];
      case Entered(Item(e, kids)) =>
        LookupGood(cfg, world, c, e);
      case Scanning(e, kids) =>
        if cfg.scan(e).Err? {
          FailAccounts(cfg, c, e, kids, cfg.scan(e).error, EffectOf(cfg, c, pc), x);
        }
      case Checking(sp, kids) => CheckAccounts(cfg, world, c, sp, kids, x);
      case Inserting(sp, kids) => InsertAccounts(cfg, world, c, sp, kids, x);
      case Reporting(sp, kids) =>
      case Sending(sp, kids) => SendAccounts(cfg, c, sp, kids, x);
      case Descending(kids) =>
    }
  }

  // ---------------------------------------------------------------- invariants of every run

  /** Everything in sight belongs to the world and is the result of a fresh scan. */
  ghost predicate Known(cfg: Config, world: set<Entry>, s: State) {
    && KidsIn(s.pending, world)
    && (forall w | 0 <= w < |s.workers| :: GoodPc(cfg, world, s.workers[w]))
    && (forall sp | sp in s.channel || sp in s.todo :: Genuine(cfg, world, sp) && sp.refs != [])
    && SoundCache(cfg, world, s.cache)
  }

  /** As long as nothing aborted, all findings of the plain scan are accounted for; an abort has a reason the
      plain scan shares, or the cache is full. */
  ghost predicate Balanced(cfg: Config, root: Tree, s: State, x: StorePaths) {
    && (!s.abort ==> Total(cfg, s, x) == Finds(cfg, [root], x))
    && (!s.abort ==> (TroubleAhead(cfg, s) <==> AnyGivesUp(cfg, [root])))
    && (s.abort ==> AnyGivesUp(cfg, [root]) || Full(s.cache))
  }

  /** Both receive loops have ended and nobody aborted. */
  predicate AfterJoin(p: Phase) {
    !p.Walking? && !p.WalkDone? && !p.Aborted?
  }

  /** Quitting comes after aborting; a worker leaves only when nothing is left to do or the walk was quit. */
  predicate Orderly(s: State) {
    && (s.quit ==> s.abort)
    && (forall w | 0 <= w < |s.workers| && s.workers[w].Aborting? :: s.abort)
    && (forall w | 0 <= w < |s.workers| && s.workers[w].Exited? :: s.quit || (s.pending == [] && NoneBusy(s.workers)))
    && (AfterJoin(s.phase) ==> !s.abort && s.channel == [] && s.stats == [])
    && (!s.phase.Walking? ==> Live(s.workers) == 0)
    && s.cacheRefs == Live(s.workers) + (if s.phase.Walking? || !s.abort then 1 else 0)
    && |s.workers| > 0
  }

  /** A panic of the registry counts as before the commit: with the real scanner there is none. */
  predicate BeforeCommit(p: Phase) {
    p.Walking? || p.WalkDone? || p.LoopsDone? || p.Aborted? || p.Unregistered? || p.Panicked?
  }

  /** What each phase has changed on disk, compared with the start. */
  ghost predicate Staged(cfg: Config, start: State, s: State) {
    && (BeforeCommit(s.phase) ==> s.nodes == start.nodes)
    && (!s.phase.Done? && !s.phase.CacheFailed? ==> s.cache.image == start.cache.image)
    && (s.abort ==> s.phase.Walking? || s.phase.WalkDone? || s.phase.Aborted?)
    && (s.phase.Aborted? ==> s.abort)
    && (!cfg.register ==> s.phase.Walking? || s.phase.WalkDone? || s.phase.Aborted? || s.phase.Unregistered?)
    && (cfg.register ==> !s.phase.Unregistered?)
    && (s.phase.Registered? || s.phase.Done? || s.phase.CacheFailed? ==>
          AllHashable(s.todo) && CommitSucceeds(start.nodes, cfg.denied, cfg.at, s.todo)
          && s.nodes == Reconciled(start.nodes, cfg.denied, cfg.at, s.todo))
    && (s.phase.RegistryFailed? ==>
          AllHashable(s.todo) && !CommitSucceeds(start.nodes, cfg.denied, cfg.at, s.todo)
          && Spared(start.nodes, s.nodes, cfg.at.topdir))
    && s.cache.limit == start.cache.limit
    && (s.cache.limit > 0 ==> |s.cache.lines| <= Max(|start.cache.lines|, s.cache.limit))
  }

  lemma WorkerStepKnown(cfg: Config, world: set<Entry>, s: State, w: nat)
    requires StampsDetermine(world, cfg.scan) && Known(cfg, world, s)
    requires w < |s.workers| && Busy(s.workers[w])
    ensures Known(cfg, world, Perform(s, w, EffectOf(cfg, s.cache, s.workers[w])))
  {
    EffectGood(cfg, world, s.cache, s.workers[w]);
  }

  lemma UsedSound(lines: map<Ino, CacheLine>, world: set<Entry>, scan: ScanFunction)
    requires Sound(Strip(lines), world, scan)
    ensures Sound(Strip(Used(lines)), world, scan)
  {}

  lemma KnownKept(cfg: Config, world: set<Entry>, s: State, a: Action)
    requires StampsDetermine(world, cfg.scan) && Known(cfg, world, s) && Enabled(cfg, s, a)
    ensures Known(cfg, world, Next(cfg, s, a))
  {
    match a {
      case Step(w) => WorkerStepKnown(cfg, world, s, w);
      case CommitCache(saving) =>
        if s.cache.image.Some? {
          CommitKeepsSound(s.cache, saving, world, cfg.scan);
        }
        UsedSound(s.cache.lines, world, cfg.scan);
      case _ =>
    }
  }

  lemma PlainAppend(a: seq<StorePaths>, b: seq<StorePaths>)
    ensures Plain(a + b) == Plain(a) + Plain(b)
  {}

  /** One worker's move keeps the total if it keeps what it touches. */
  lemma TotalMoves(cfg: Config, s: State, s': State, w: nat, pc: PC, x: StorePaths)
    requires w < |s.workers| && s'.workers == s.workers[w := pc] && s'.todo == s.todo
    requires Copies(s'.channel, x) + Finds(cfg, s'.pending, x) + Finds(cfg, Rest(pc), x) ==
             Copies(s.channel, x) + Finds(cfg, s.pending, x) + Finds(cfg, Rest(s.workers[w]), x)
    ensures Total(cfg, s', x) == Total(cfg, s, x)
  {
    SumUpdate(s.workers, FindsOf(cfg, x), w, pc);
  }

  lemma TroubleMoves(cfg: Config, s: State, s': State, w: nat, pc: PC)
    requires w < |s.workers| && s'.workers == s.workers[w := pc]
    requires AnyGivesUp(cfg, s'.pending) || AnyGivesUp(cfg, Rest(pc)) <==>
             AnyGivesUp(cfg, s.pending) || AnyGivesUp(cfg, Rest(s.workers[w]))
    ensures TroubleAhead(cfg, s') <==> TroubleAhead(cfg, s)
  {
    assert s'.workers[w] == pc;
    if v :| 0 <= v < |s.workers| && AnyGivesUp(cfg, Rest(s.workers[v])) {
      assert v != w ==> AnyGivesUp(cfg, Rest(s'.workers[v]));
    }
    if v :| 0 <= v < |s.workers| && AnyGivesUp(cfg, Rest(s'.workers[v])) {
      assert v != w ==> AnyGivesUp(cfg, Rest(s.workers[v]));
    }
  }

  lemma StepTotal(cfg: Config, s: State, w: nat, eff: Effect, x: StorePaths)
    requires w < |s.workers| && !eff.abort && Accounts(cfg, s.cache, Rest(s.workers[w]), eff, x)
    ensures Total(cfg, Perform(s, w, eff), x) == Total(cfg, s, x)
  {
    FindsAppend(cfg, s.pending, eff.queued, x);
    CopiesAppend(s.channel, eff.sent, x);
    TotalMoves(cfg, s, Perform(s, w, eff), w, eff.pc, x);
  }

  lemma StepTrouble(cfg: Config, s: State, w: nat, eff: Effect, x: StorePaths)
    requires w < |s.workers| && !eff.abort && Accounts(cfg, s.cache, Rest(s.workers[w]), eff, x)
    ensures TroubleAhead(cfg, Perform(s, w, eff)) <==> TroubleAhead(cfg, s)
  {
    var s' := Perform(s, w, eff);
    assert forall t :: t in s'.pending <==> t in s.pending || t in eff.queued;
    TroubleMoves(cfg, s, s', w, eff.pc);
  }

  lemma WorkerStepBalanced(cfg: Config, root: Tree, s: State, w: nat, eff: Effect, x: StorePaths)
    requires Balanced(cfg, root, s, x) && w < |s.workers|
    requires Accounts(cfg, s.cache, Rest(s.workers[w]), eff, x) && (Full(s.cache) ==> Full(eff.cache))
    ensures Balanced(cfg, root, Perform(s, w, eff), x)
  {
    if !eff.abort {
      StepTotal(cfg, s, w, eff, x);
      StepTrouble(cfg, s, w, eff, x);
    } else if !s.abort {
      assert AnyGivesUp(cfg, Rest(s.workers[w])) ==> TroubleAhead(cfg, s);
    }
  }

  lemma TakeBalanced(cfg: Config, root: Tree, s: State, w: nat, k: nat, x: StorePaths)
    requires Balanced(cfg, root, s, x) && w < |s.workers| && s.workers[w].Idle? && k < |s.pending|
    ensures Balanced(cfg, root, Goto(s.(pending := s.pending[..k] + s.pending[k + 1..]), w, Entered(s.pending[k])), x)
  {
    var t := s.pending[k];
    var s' := Goto(s.(pending := s.pending[..k] + s.pending[k + 1..]), w, Entered(t));
    RemoveOne(cfg, s.pending, k, x);
    assert AnyGivesUp(cfg, [t]) <==> GivesUp(cfg, t) by {
      assert t in [t];
    }
    TotalMoves(cfg, s, s', w, Entered(t), x);
    TroubleMoves(cfg, s, s', w, Entered(t));
  }

  lemma ExitBalanced(cfg: Config, root: Tree, s: State, w: nat, x: StorePaths)
    requires Balanced(cfg, root, s, x) && w < |s.workers| && s.workers[w].Idle?
    ensures Balanced(cfg, root, Goto(s, w, Exited), x)
  {
    TotalMoves(cfg, s, Goto(s, w, Exited), w, Exited, x);
    TroubleMoves(cfg, s, Goto(s, w, Exited), w, Exited);
  }

  lemma ReceiveBalanced(cfg: Config, root: Tree, s: State, x: StorePaths)
    requires Balanced(cfg, root, s, x) && s.channel != []
    ensures Balanced(cfg, root, s.(channel := s.channel[1..], todo := s.todo + [s.channel[0]]), x)
  {
    CopiesAppend(s.todo, [s.channel[0]], x);
    CopiesAppend([s.channel[0]], s.channel[1..], x);
    assert s.channel == [s.channel[0]] + s.channel[1..];
  }

  lemma StepBalanced(cfg: Config, world: set<Entry>, root: Tree, s: State, w: nat, x: StorePaths)
    requires StampsDetermine(world, cfg.scan) && Known(cfg, world, s)
    requires w < |s.workers| && Busy(s.workers[w])
    requires Orderly(s) && Balanced(cfg, root, s, x)
    ensures Balanced(cfg, root, Perform(s, w, EffectOf(cfg, s.cache, s.workers[w])), x)
  {
    var pc := s.workers[w];
    if !pc.Aborting? {
      EffectGood(cfg, world, s.cache, pc);
      EffectAccounts(cfg, world, s.cache, pc, x);
      EffectSize(cfg, s.cache, pc);
      WorkerStepBalanced(cfg, root, s, w, EffectOf(cfg, s.cache, pc), x);
    }
  }

  lemma BalancedKept(cfg: Config, world: set<Entry>, root: Tree, s: State, a: Action, x: StorePaths)
    requires StampsDetermine(world, cfg.scan) && Known(cfg, world, s) && Enabled(cfg, s, a)
    requires Orderly(s) && Balanced(cfg, root, s, x)
    ensures Balanced(cfg, root, Next(cfg, s, a), x)
  {
    match a {
      case Take(w, k) => TakeBalanced(cfg, root, s, w, k, x);
      case Step(w) => StepBalanced(cfg, world, root, s, w, x);
      case Exit(w) => ExitBalanced(cfg, root, s, w, x);
      case Receive => ReceiveBalanced(cfg, root, s, x);
      case _ =>
        assert Total(cfg, Next(cfg, s, a), x) == Total(cfg, s, x);
        assert TroubleAhead(cfg, Next(cfg, s, a)) <==> TroubleAhead(cfg, s);
    }
  }

  lemma StepOrderly(cfg: Config, s: State, w: nat, eff: Effect)
    requires Orderly(s) && s.phase.Walking? && w < |s.workers| && Busy(s.workers[w])
    requires (eff.quit ==> s.workers[w].Aborting?) && (eff.pc.Aborting? ==> eff.abort) && !eff.pc.Exited?
    ensures Orderly(Perform(s, w, eff))
  {
    SumUpdate(s.workers, Alive, w, eff.pc);
  }

  lemma GotoOrderly(s: State, w: nat, pc: PC)
    requires w < |s.workers|
    ensures Live(s.workers[w := pc]) + Alive(s.workers[w]) == Live(s.workers) + Alive(pc)
  {
    SumUpdate(s.workers, Alive, w, pc);
  }

  lemma OrderlyKept(cfg: Config, world: set<Entry>, s: State, a: Action)
    requires StampsDetermine(world, cfg.scan) && Known(cfg, world, s) && Enabled(cfg, s, a)
    requires Orderly(s)
    ensures Orderly(Next(cfg, s, a))
  {
    match a {
      case Step(w) =>
        EffectGood(cfg, world, s.cache, s.workers[w]);
        StepOrderly(cfg, s, w, EffectOf(cfg, s.cache, s.workers[w]));
      case Take(w, k) => GotoOrderly(s, w, Entered(s.pending[k]));
      case Exit(w) => GotoOrderly(s, w, Exited);
      case _ =>
    }
  }

  lemma SubsetSize<T>(a: set<T>, b: set<T>)
    requires a <= b
    ensures |a| <= |b|
  {
    assert b == a + (b - a);
  }

  lemma UsedSize(lines: map<Ino, CacheLine>)
    ensures |Used(lines)| <= |lines|
  {
    SubsetSize(Used(lines).Keys, lines.Keys);
    assert |Used(lines)| == |Used(lines).Keys| && |lines| == |lines.Keys|;
  }

  lemma StepStaged(cfg: Config, world: set<Entry>, start: State, s: State, w: nat)
    requires StampsDetermine(world, cfg.scan) && Known(cfg, world, s) && Enabled(cfg, s, Step(w))
    requires Staged(cfg, start, s)
    ensures Staged(cfg, start, Next(cfg, s, Step(w)))
  {
    EffectGood(cfg, world, s.cache, s.workers[w]);
    EffectSize(cfg, s.cache, s.workers[w]);
  }

  lemma CommitStaged(cfg: Config, start: State, s: State, saving: Saving)
    requires Enabled(cfg, s, CommitCache(saving)) && Orderly(s) && Staged(cfg, start, s)
    ensures Staged(cfg, start, Next(cfg, s, CommitCache(saving)))
  {
    UsedSize(s.cache.lines);
  }

  lemma StagedKept(cfg: Config, world: set<Entry>, start: State, s: State, a: Action)
    requires StampsDetermine(world, cfg.scan) && Known(cfg, world, s) && Enabled(cfg, s, a)
    requires Orderly(s) && Staged(cfg, start, s)
    ensures Staged(cfg, start, Next(cfg, s, a))
  {
    match a {
      case Step(w) => StepStaged(cfg, world, start, s, w);
      case CommitCache(saving) => CommitStaged(cfg, start, s, saving);
      case _ =>
    }
  }

  // ---------------------------------------------------------------- whole runs

  ghost predicate Setup(cfg: Config, world: set<Entry>, root: Tree, start: State) {
    StampsDetermine(world, cfg.scan) && TreeIn(root, world) && SoundCache(cfg, world, start.cache)
  }

  ghost predicate Invariant(cfg: Config, world: set<Entry>, root: Tree, start: State, s: State) {
    Known(cfg, world, s) && Orderly(s) && Staged(cfg, start, s) && forall x :: Balanced(cfg, root, s, x)
  }

  lemma {:induction false} AllLive(ws: seq<PC>)
    requires forall w | 0 <= w < |ws| :: ws[w].Idle?
    ensures Live(ws) == |ws|
  {
    if ws != [] {
      assert ws[0].Idle?;
      AllLive(ws[1..]);
    }
  }

  lemma InitialInvariant(cfg: Config, world: set<Entry>, root: Tree, s: State)
    requires Initial(root, s) && Setup(cfg, world, root, s)
    ensures Invariant(cfg, world, root, s, s)
  {
    AllLive(s.workers);
    assert forall w | 0 <= w < |s.workers| :: Rest(s.workers[w]) == [];
    forall x ensures Balanced(cfg, root, s, x) {
      SumZero(s.workers, FindsOf(cfg, x));
    }
  }

  lemma InvariantKept(cfg: Config, world: set<Entry>, root: Tree, start: State, s: State, a: Action)
    requires Setup(cfg, world, root, start) && Invariant(cfg, world, root, start, s) && Enabled(cfg, s, a)
    ensures Invariant(cfg, world, root, start, Next(cfg, s, a))
  {
    KnownKept(cfg, world, s, a);
    OrderlyKept(cfg, world, s, a);
    StagedKept(cfg, world, start, s, a);
    forall x ensures Balanced(cfg, root, Next(cfg, s, a), x) {
      BalancedKept(cfg, world, root, s, a, x);
    }
  }

  lemma {:induction false} RunInvariant(cfg: Config, world: set<Entry>, root: Tree,
                                        states: seq<State>, actions: seq<Action>, i: nat)
    requires IsRun(cfg, root, states, actions) && Setup(cfg, world, root, states[0]) && i < |states|
    ensures Invariant(cfg, world, root, states[0], states[i])
  {
    if i == 0 {
      InitialInvariant(cfg, world, root, states[0]);
    } else {
      RunInvariant(cfg, world, root, states, actions, i - 1);
      assert Enabled(cfg, states[i - 1], actions[i - 1]);
      InvariantKept(cfg, world, root, states[0], states[i - 1], actions[i - 1]);
    }
  }

  lemma {:induction false} ScansArePlain(cfg: Config, ts: seq<Tree>)
    ensures Plain(ScanTrees(cfg, ts)) == ScanTrees(cfg, ts)
  {
    if ts != [] {
      ScansArePlain(cfg, ts[1..]);
      ScanIsPlain(cfg, ts[0]);
      PlainAppend(ScanTree(cfg, ts[0]), ScanTrees(cfg, ts[1..]));
    }
  }

  lemma {:induction false} ScanIsPlain(cfg: Config, t: Tree)
    ensures Plain(ScanTree(cfg, t)) == ScanTree(cfg, t)
  {
    if t.Item? {
      var v := VisitEntry(cfg, t.entry);
      if v.Goes? {
        ScansArePlain(cfg, t.kids);
        PlainAppend(v.found, ScanTrees(cfg, t.kids));
        assert Plain(v.found) == v.found;
      }
    }
  }

  lemma TroubleKnown(cfg: Config, root: Tree, s: State)
    requires forall x :: Balanced(cfg, root, s, x)
    ensures !s.abort ==> (TroubleAhead(cfg, s) <==> GivesUp(cfg, root))
    ensures s.abort ==> GivesUp(cfg, root) || Full(s.cache)
  {
    var x := StorePaths(Entry(Absolute([]), None, None, NoError, Unknown), [], false);
    assert Balanced(cfg, root, s, x);
    assert root in [root];
  }

  lemma NothingLeft(cfg: Config, world: set<Entry>, root: Tree, start: State, s: State)
    requires Invariant(cfg, world, root, start, s) && AfterJoin(s.phase)
    ensures multiset(Plain(s.todo)) == multiset(ScanTree(cfg, root))
    ensures !GivesUp(cfg, root)
  {
    NoneLive(s.workers);
    assert s.workers[0].Exited?;
    assert s.pending == [];
    assert forall w | 0 <= w < |s.workers| :: Rest(s.workers[w]) == [];
    assert root in [root];
    ScanOne(cfg, root);
    ScanIsPlain(cfg, root);
    forall x ensures multiset(Plain(s.todo))[x] == multiset(ScanTree(cfg, root))[x] {
      SumZero(s.workers, FindsOf(cfg, x));
      assert Balanced(cfg, root, s, x);
      CopiesAreMultiplicity(s.todo, x);
      CopiesAreMultiplicity(ScanTree(cfg, root), x);
    }
    TroubleKnown(cfg, root, s);
  }

  /** Once the receive loops have ended without an abort, the registry has received exactly the findings of
      the plain scan: none is missing, none is duplicated, in whatever order and wherever they came from. */
  lemma RunDeliversPlainScan(cfg: Config, world: set<Entry>, root: Tree,
                             states: seq<State>, actions: seq<Action>, i: nat)
    requires IsRun(cfg, root, states, actions) && Setup(cfg, world, root, states[0]) && i < |states|
    requires AfterJoin(states[i].phase)
    ensures multiset(Plain(states[i].todo)) == multiset(ScanTree(cfg, root))
  {
    RunInvariant(cfg, world, root, states, actions, i);
    NothingLeft(cfg, world, root, states[0], states[i]);
  }

  /** Whatever the interleaving: a run aborts if the plain scan would give up, and only if it would or the
      cache has reached its limit. */
  lemma RunAbortsIff(cfg: Config, world: set<Entry>, root: Tree, states: seq<State>, actions: seq<Action>)
    requires IsRun(cfg, root, states, actions) && Setup(cfg, world, root, states[0])
    requires Final(states[|actions|])
    ensures GivesUp(cfg, root) ==> states[|actions|].phase.Aborted?
    ensures states[|actions|].phase.Aborted? ==> GivesUp(cfg, root) || Full(states[|actions|].cache)
    ensures states[0].cache.limit == 0 ==> (states[|actions|].phase.Aborted? <==> GivesUp(cfg, root))
  {
    var s := states[|actions|];
    RunInvariant(cfg, world, root, states, actions, |actions|);
    if s.phase.Aborted? {
      TroubleKnown(cfg, root, s);
    } else {
      NothingLeft(cfg, world, root, states[0], s);
    }
  }

  /** With a limit, the cache never outgrows both the limit and what was loaded, in any interleaving. */
  lemma RunCacheBounded(cfg: Config, world: set<Entry>, root: Tree, states: seq<State>, actions: seq<Action>, i: nat)
    requires IsRun(cfg, root, states, actions) && Setup(cfg, world, root, states[0]) && i < |states|
    requires states[0].cache.limit > 0
    ensures |states[i].cache.lines| <= Max(|states[0].cache.lines|, states[0].cache.limit)
  {
    RunInvariant(cfg, world, root, states, actions, i);
  }

  lemma {:induction false} AbortStays(cfg: Config, root: Tree, states: seq<State>, actions: seq<Action>, i: nat, j: nat)
    requires IsRun(cfg, root, states, actions) && i <= j < |states|
    requires states[i].abort
    ensures states[j].abort
  {
    if i < j {
      var s, a := states[j - 1], actions[j - 1];
      AbortStays(cfg, root, states, actions, i, j - 1);
      assert s.abort;
      assert Enabled(cfg, s, a) && states[j] == Next(cfg, s, a);
    }
  }

  /** An abort is never taken back, and after one neither the links nor the cache file ever change; nor do they
      in a run that does not register. The cache file changes only once the links have been reconciled. */
  lemma CommitOrder(cfg: Config, world: set<Entry>, root: Tree,
                    states: seq<State>, actions: seq<Action>, i: nat, j: nat)
    requires IsRun(cfg, root, states, actions) && Setup(cfg, world, root, states[0]) && i <= j < |states|
    ensures states[i].abort ==>
              states[j].abort && states[j].nodes == states[0].nodes && states[j].cache.image == states[0].cache.image
    ensures !cfg.register ==> states[j].nodes == states[0].nodes && states[j].cache.image == states[0].cache.image
    ensures states[j].cache.image != states[0].cache.image ==>
              && AllHashable(states[j].todo)
              && CommitSucceeds(states[0].nodes, cfg.denied, cfg.at, states[j].todo)
              && states[j].nodes == Reconciled(states[0].nodes, cfg.denied, cfg.at, states[j].todo)
  {
    RunInvariant(cfg, world, root, states, actions, j);
    if states[i].abort {
      AbortStays(cfg, root, states, actions, i, j);
    }
  }

  // ---------------------------------------------------------------- the links a run leaves

  /** The registry has committed successfully, whatever became of the cache file afterwards. */
  predicate Linked(p: Phase) {
    p.Registered? || p.Done? || p.CacheFailed?
  }

  lemma WantedPlain(at: Place, queue: seq<StorePaths>)
    requires AllHashable(queue)
    ensures AllHashable(Plain(queue)) && Wanted(at, Plain(queue)) == Wanted(at, queue)
  {
    var plain := Plain(queue);
    forall sp | sp in plain ensures Hashable(sp) {
      var i :| 0 <= i < |plain| && plain[i] == sp;
      assert Hashable(queue[i]);
    }
    WantedIsMerge(at, queue);
    WantedIsMerge(at, plain);
    assert Owns(at, plain) == Owns(at, queue);
  }

  lemma {:induction false} NoPanic(cfg: Config, root: Tree, states: seq<State>, actions: seq<Action>, i: nat)
    requires IsRun(cfg, root, states, actions) && i < |states|
    requires forall k | 0 <= k <= i ::
               AllHashable(states[k].todo) && (states[k].phase.Registered? ==> states[k].cacheRefs == 1)
    ensures !states[i].phase.Panicked?
  {
    if i > 0 {
      NoPanic(cfg, root, states, actions, i - 1);
      assert Enabled(cfg, states[i - 1], actions[i - 1]);
      assert AllHashable(states[i - 1].todo);
    }
  }

  /** The scanner is the real one; then every finding can be registered. */
  lemma FindingsHashable(cfg: Config, world: set<Entry>, root: Tree,
                         states: seq<State>, actions: seq<Action>, i: nat, quickcheck: nat)
    requires IsRun(cfg, root, states, actions) && Setup(cfg, world, root, states[0]) && i < |states|
    requires cfg.scan == ScannerWith(quickcheck)
    ensures forall sp | sp in states[i].todo :: StrictlySorted(sp.refs) && forall r | r in sp.refs :: WellFormedRef(r)
    ensures AllHashable(states[i].todo) && !states[i].phase.Panicked?
  {
    RunInvariant(cfg, world, root, states, actions, i);
    forall k: nat | k <= i
      ensures forall sp | sp in states[k].todo :: StrictlySorted(sp.refs) && forall r | r in sp.refs :: WellFormedRef(r)
      ensures AllHashable(states[k].todo) && (states[k].phase.Registered? ==> states[k].cacheRefs == 1)
    {
      RunInvariant(cfg, world, root, states, actions, k);
      forall sp | sp in states[k].todo
        ensures StrictlySorted(sp.refs) && forall r | r in sp.refs :: WellFormedRef(r)
      {
        assert FindPathsResult(sp.entry, quickcheck) == Ok(sp.refs);
        FoundRefs(sp.entry, quickcheck);
      }
    }
    NoPanic(cfg, root, states, actions, i);
  }

  /** A run that registered leaves, below the scan directory, exactly the links the plain scan asks for, by
      name; and if no two findings disagree about a name, the whole tree is the one the plain scan would give. */
  lemma RunLeavesPlainLinks(cfg: Config, world: set<Entry>, root: Tree, states: seq<State>, actions: seq<Action>,
                            startdir: Path, quickcheck: nat)
    requires IsRun(cfg, root, states, actions) && Setup(cfg, world, root, states[0])
    requires cfg.scan == ScannerWith(quickcheck) && cfg.at.topdir == cfg.at.prefix + startdir
    requires forall e | e in world && !e.body.Directory? :: StrictlyBelow(startdir, e.path)
    requires Linked(states[|actions|].phase)
    ensures var after, plain := states[|actions|].nodes, ScanTree(cfg, root);
            && AllHashable(plain)
            && LinksBelow(after, cfg.at.topdir).Keys == Wanted(cfg.at, plain).Keys
            && (Agree(cfg.at, plain) ==>
                  && LinksBelow(after, cfg.at.topdir) == Wanted(cfg.at, plain)
                  && after == Reconciled(states[0].nodes, cfg.denied, cfg.at, plain))
  {
    var s, plain := states[|actions|], ScanTree(cfg, root);
    RunInvariant(cfg, world, root, states, actions, |actions|);
    RunDeliversPlainScan(cfg, world, root, states, actions, |actions|);
    WantedPlain(cfg.at, s.todo);
    SameMembers(Plain(s.todo), plain);
    forall sp | sp in s.todo ensures StrictlyBelow(startdir, sp.entry.path) {
      assert Fetch(cfg, sp.entry) == Ok(sp.refs);
    }
    CommitExact(states[0].nodes, cfg.denied, cfg.at, startdir, s.todo);
    SameNames(cfg.at, Plain(s.todo), plain);
    if Agree(cfg.at, plain) {
      AgreedTargets(cfg.at, plain, Plain(s.todo));
    }
  }

  /** Two registering runs over the same tree end with the same links, however their workers were interleaved
      and whatever their caches held. */
  lemma RunsAgree(cfg: Config, world: set<Entry>, root: Tree, startdir: Path, quickcheck: nat,
                  states: seq<State>, actions: seq<Action>, states': seq<State>, actions': seq<Action>)
    requires IsRun(cfg, root, states, actions) && Setup(cfg, world, root, states[0])
    requires IsRun(cfg, root, states', actions') && Setup(cfg, world, root, states'[0])
    requires cfg.scan == ScannerWith(quickcheck) && cfg.at.topdir == cfg.at.prefix + startdir
    requires forall e | e in world && !e.body.Directory? :: StrictlyBelow(startdir, e.path)
    requires Linked(states[|actions|].phase) && Linked(states'[|actions'|].phase)
    ensures LinksBelow(states[|actions|].nodes, cfg.at.topdir).Keys ==
            LinksBelow(states'[|actions'|].nodes, cfg.at.topdir).Keys
    ensures AllHashable(ScanTree(cfg, root)) && Agree(cfg.at, ScanTree(cfg, root)) ==>
              LinksBelow(states[|actions|].nodes, cfg.at.topdir) == LinksBelow(states'[|actions'|].nodes, cfg.at.topdir)
  {
    RunLeavesPlainLinks(cfg, world, root, states, actions, startdir, quickcheck);
    RunLeavesPlainLinks(cfg, world, root, states', actions', startdir, quickcheck);
  }

  /** The cache file a run leaves is a sound start for the next run. */
  lemma RunLeavesSoundCache(cfg: Config, world: set<Entry>, root: Tree,
                            states: seq<State>, actions: seq<Action>, i: nat, limit: nat)
    requires IsRun(cfg, root, states, actions) && Setup(cfg, world, root, states[0]) && i < |states|
    requires states[i].cache.image.Some?
    ensures SoundCache(cfg, world, AfterOpen(limit, states[i].cache.image.value))
  {
    RunInvariant(cfg, world, root, states, actions, i);
    OpenSynced(limit, states[i].cache.image.value);
  }

  /** When the walk has returned, no copy of its context is left, so that both receive loops end; and when the
      time comes to commit the cache, the reference that the walk handed back is the only one. */
  lemma CacheHasOneOwner(cfg: Config, world: set<Entry>, root: Tree, states: seq<State>, actions: seq<Action>, i: nat)
    requires IsRun(cfg, root, states, actions) && Setup(cfg, world, root, states[0]) && i < |states|
    ensures !states[i].phase.Walking? ==> Contexts(states[i]) == 0
    ensures AfterJoin(states[i].phase) ==> states[i].cacheRefs == 1
  {
    RunInvariant(cfg, world, root, states, actions, i);
  }
}
