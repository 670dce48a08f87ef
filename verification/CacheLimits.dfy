/** When a limited cache makes a run abort (`-L`, `src/storepaths/cache.rs:127-130`). */
module CacheLimits {
  import opened Wrappers
  import opened StorePaths
  import opened Cache
  import opened Walk
  import opened WalkTheorems

  // ---------------------------------------------------------------- which entries need a line

  /** Visiting the entry ends with its references in the cache. */
  predicate NeedsLine(cfg: Config, e: Entry) {
    !e.body.Directory? && VisitEntry(cfg, e).Goes? && Fetch(cfg, e).Ok? && e.meta.Some?
  }

  predicate GoesOn(cfg: Config, e: Entry) {
    VisitEntry(cfg, e).Goes?
  }

  function OwnNeed(cfg: Config, e: Entry): set<Entry> {
    if NeedsLine(cfg, e) then {e} else {}
  }

  /** The entries that need a line, among those the plain scan comes by. */
  function Needed(cfg: Config, t: Tree): set<Entry> {
    if t.Item? && GoesOn(cfg, t.entry) then OwnNeed(cfg, t.entry) + AllNeeded(cfg, t.kids) else {}
  }

  function AllNeeded(cfg: Config, ts: seq<Tree>): set<Entry> {
    if ts == [] then {} else Needed(cfg, ts[0]) + AllNeeded(cfg, ts[1..])
  }

  function Inodes(es: set<Entry>): set<Ino> {
    set e | e in es && e.ino.Some? :: e.ino.value
  }

  function StillOpen(cfg: Config, sp: StorePaths, kids: seq<Tree>): set<Entry> {
    if !GoesOn(cfg, sp.entry) then {}
    else (if sp.cached then {} else OwnNeed(cfg, sp.entry)) + AllNeeded(cfg, kids)
  }

  /** Needed lines that the worker has neither found in the cache nor inserted yet. */
  function Open(cfg: Config, pc: PC): set<Entry> {
    match pc
    case Entered(t) => Needed(cfg, t)
    case Scanning(e, kids) => Needed(cfg, Item(e, kids))
    case Checking(sp, kids) => StillOpen(cfg, sp, kids)
    case Inserting(sp, kids) => StillOpen(cfg, sp, kids)
    case Reporting(_, kids) => AllNeeded(cfg, kids)
    case Sending(_, kids) => AllNeeded(cfg, kids)
    case Descending(kids) => AllNeeded(cfg, kids)
    case _ => {}
  }

  ghost predicate Outstanding(cfg: Config, s: State, e: Entry) {
    e in AllNeeded(cfg, s.pending) || exists w | 0 <= w < |s.workers| :: e in Open(cfg, s.workers[w])
  }

  lemma {:induction false} NeededAppend(cfg: Config, a: seq<Tree>, b: seq<Tree>)
    ensures AllNeeded(cfg, a + b) == AllNeeded(cfg, a) + AllNeeded(cfg, b)
  {
    if a == [] {
      assert a + b == b;
    } else {
      assert (a + b)[1..] == a[1..] + b;
      NeededAppend(cfg, a[1..], b);
    }
  }

  lemma NeededRemove(cfg: Config, ts: seq<Tree>, k: nat)
    requires k < |ts|
    ensures AllNeeded(cfg, ts) == Needed(cfg, ts[k]) + AllNeeded(cfg, ts[..k] + ts[k + 1..])
  {
    NeededAppend(cfg, ts[..k], ts[k + 1..]);
    NeededAppend(cfg, ts[..k], ts[k..]);
    assert ts == ts[..k] + ts[k..] && ts[k..][1..] == ts[k + 1..];
  }

  // ---------------------------------------------------------------- what one step does about them

  /** The worker is about to insert a line. */
  predicate Storing(cfg: Config, pc: PC) {
    pc.Inserting? && !pc.sp.cached && NeedsLine(cfg, pc.sp.entry)
  }

  /** The entry hits, and its line counts as used. */
  predicate Marked(c: CacheState, e: Entry) {
    IsHit(c, e) && c.lines[e.ino.value].used
  }

  /** A step never adds to the lines that are waited for, and gives up on none unless it aborts: each is found in
      the cache, or inserted while there is room. */
  ghost predicate KeepsWaiting(cfg: Config, c: CacheState, pc: PC, eff: Effect, e: Entry) {
    && (e in Open(cfg, eff.pc) || e in AllNeeded(cfg, eff.queued) ==> e in Open(cfg, pc))
    && (e in Open(cfg, pc) && !eff.abort ==>
          || e in Open(cfg, eff.pc) || e in AllNeeded(cfg, eff.queued)
          || ((IsHit(c, e) || !Full(c)) && Marked(eff.cache, e)))
  }

  lemma LookupWaits(cfg: Config, c: CacheState, own: Entry, kids: seq<Tree>, e: Entry)
    ensures var pc := Entered(Item(own, kids)); KeepsWaiting(cfg, c, pc, EffectOf(cfg, c, pc), e)
  {}

  lemma ScanWaits(cfg: Config, c: CacheState, own: Entry, kids: seq<Tree>, e: Entry)
    requires !own.body.Directory?
    ensures var pc := Scanning(own, kids); KeepsWaiting(cfg, c, pc, EffectOf(cfg, c, pc), e)
  {}

  lemma CheckWaits(cfg: Config, c: CacheState, sp: StorePaths, kids: seq<Tree>, e: Entry)
    requires Fetch(cfg, sp.entry) == Ok(sp.refs)
    ensures KeepsWaiting(cfg, c, Checking(sp, kids), Check(cfg, c, sp, kids), e)
  {}

  lemma InsertWaits(cfg: Config, c: CacheState, sp: StorePaths, kids: seq<Tree>, e: Entry)
    requires InsertResult(c, sp).Ok? ==> GoesOn(cfg, sp.entry)
    ensures var pc := Inserting(sp, kids); KeepsWaiting(cfg, c, pc, EffectOf(cfg, c, pc), e)
  {}

  lemma EffectOpens(cfg: Config, world: set<Entry>, c: CacheState, pc: PC, e: Entry)
    requires StampsDetermine(world, cfg.scan) && SoundCache(cfg, world, c)
    requires Busy(pc) && GoodPc(cfg, world, pc)
    ensures KeepsWaiting(cfg, c, pc, EffectOf(cfg, c, pc), e)
  {
    match pc {
      case Entered(Item(own, kids)) => LookupWaits(cfg, c, own, kids, e);
      case Scanning(own, kids) => ScanWaits(cfg, c, own, kids, e);
      case Checking(sp, kids) => CheckWaits(cfg, c, sp, kids, e);
      case Inserting(sp, kids) =>
        InsertGood(cfg, world, c, sp);
        InsertWaits(cfg, c, sp, kids, e);
      case _ =>
    }
  }

  /** New lines are inserted only for entries that need one, and only while there is room. */
  lemma EffectStores(cfg: Config, world: set<Entry>, c: CacheState, pc: PC)
    requires StampsDetermine(world, cfg.scan) && SoundCache(cfg, world, c)
    requires Busy(pc) && GoodPc(cfg, world, pc)
    ensures var eff := EffectOf(cfg, c, pc);
            || Strip(eff.cache.lines) == Strip(c.lines)
            || (Storing(cfg, pc) && !Full(c) && eff.cache == AfterInsert(c, pc.sp) && InsertResult(c, pc.sp).Ok?)
    ensures Storing(cfg, pc) ==> pc.sp.entry in Open(cfg, pc)
  {
    match pc {
      case Entered(Item(e', _)) => LookupKeepsContents(c, e');
      case Inserting(sp, _) => InsertGood(cfg, world, c, sp);
      case _ =>
    }
  }

  /** A step aborts only where the plain scan gives up, or when it finds no room. */
  lemma EffectAborts(cfg: Config, world: set<Entry>, c: CacheState, pc: PC)
    requires StampsDetermine(world, cfg.scan) && SoundCache(cfg, world, c)
    requires Busy(pc) && GoodPc(cfg, world, pc)
    ensures EffectOf(cfg, c, pc).abort ==> AnyGivesUp(cfg, Rest(pc)) || (Storing(cfg, pc) && Full(c))
  {
    var x := StorePaths(Entry(Absolute([]), None, None, NoError, Unknown), [], false);
    if pc.Inserting? {
      InsertGood(cfg, world, c, pc.sp);
      ItemAccounts(cfg, pc.sp.entry, pc.kids, x);
    } else if !pc.Aborting? {
      EffectAccounts(cfg, world, c.(limit := 0), pc, x);
    }
  }

  // ---------------------------------------------------------------- over whole runs

  /** The position of one worker changes, and what is pending. */
  lemma OutstandingMoves(cfg: Config, s: State, s': State, w: nat, pc: PC, e: Entry)
    requires w < |s.workers| && s'.workers == s.workers[w := pc]
    ensures Outstanding(cfg, s, e) ==>
              Outstanding(cfg, s', e) || e in AllNeeded(cfg, s.pending) || e in Open(cfg, s.workers[w])
    ensures Outstanding(cfg, s', e) ==>
              Outstanding(cfg, s, e) || e in AllNeeded(cfg, s'.pending) || e in Open(cfg, pc)
    ensures e in Open(cfg, pc) ==> Outstanding(cfg, s', e)
  {
    assert s'.workers[w] == pc;
    if v :| 0 <= v < |s.workers| && e in Open(cfg, s.workers[v]) {
      assert v != w ==> e in Open(cfg, s'.workers[v]);
    }
    if v :| 0 <= v < |s.workers| && e in Open(cfg, s'.workers[v]) {
      assert v != w ==> e in Open(cfg, s.workers[v]);
    }
  }

  lemma OutstandingStep(cfg: Config, world: set<Entry>, s: State, w: nat, e: Entry)
    requires StampsDetermine(world, cfg.scan) && Known(cfg, world, s) && Enabled(cfg, s, Step(w))
    ensures var eff := EffectOf(cfg, s.cache, s.workers[w]);
            var s' := Perform(s, w, eff);
            && (Outstanding(cfg, s', e) ==> Outstanding(cfg, s, e))
            && (Outstanding(cfg, s, e) && !eff.abort ==>
                  || Outstanding(cfg, s', e)
                  || ((IsHit(s.cache, e) || !Full(s.cache)) && Marked(eff.cache, e)))
  {
    var eff := EffectOf(cfg, s.cache, s.workers[w]);
    OutstandingMoves(cfg, s, Perform(s, w, eff), w, eff.pc, e);
    EffectOpens(cfg, world, s.cache, s.workers[w], e);
    NeededAppend(cfg, s.pending, eff.queued);
  }

  lemma OutstandingElsewhere(cfg: Config, s: State, a: Action, e: Entry)
    requires Enabled(cfg, s, a) && !a.Step?
    ensures Outstanding(cfg, Next(cfg, s, a), e) <==> Outstanding(cfg, s, e)
  {
    match a {
      case Take(w, k) =>
        NeededRemove(cfg, s.pending, k);
        OutstandingMoves(cfg, s, Next(cfg, s, a), w, Entered(s.pending[k]), e);
      case Exit(w) => OutstandingMoves(cfg, s, Next(cfg, s, a), w, Exited, e);
      case _ =>
    }
  }

  /** The cache has been written, or was to be. */
  predicate Committed(p: Phase) {
    p.Done? || p.CacheFailed?
  }

  /** The lines are those of the start and of needed entries; without an abort every needed entry has one or is
      still outstanding. */
  ghost predicate Tracked(cfg: Config, root: Tree, start: CacheState, s: State) {
    && start.lines.Keys <= s.cache.lines.Keys <= start.lines.Keys + Inodes(Needed(cfg, root))
    && forall e {:trigger Outstanding(cfg, s, e)} {:trigger e in Needed(cfg, root)} ::
         && (Outstanding(cfg, s, e) ==> e in Needed(cfg, root))
         && (e in Needed(cfg, root) && !s.abort ==>
               Outstanding(cfg, s, e) || (e.ino.Some? && e.ino.value in s.cache.lines))
  }

  /** What the worker scans or has scanned does not hit, if it is among these entries. */
  predicate Unhit(start: CacheState, among: set<Entry>, pc: PC) {
    match pc
    case Scanning(e, _) => e in among ==> !IsHit(start, e)
    case Checking(sp, _) => sp.entry in among && !sp.cached ==> !IsHit(start, sp.entry)
    case Inserting(sp, _) => sp.entry in among && !sp.cached ==> !IsHit(start, sp.entry)
    case _ => true
  }

  /** In a cache that was full from the start nothing changes but the marks; without an abort every needed entry
      hit it or is still outstanding, and an abort has its reason in the start cache. */
  ghost predicate Frozen(cfg: Config, root: Tree, start: CacheState, s: State) {
    && Strip(s.cache.lines) == Strip(start.lines)
    && (forall w | 0 <= w < |s.workers| :: Unhit(start, Needed(cfg, root), s.workers[w]))
    && (s.abort ==> GivesUp(cfg, root) || exists e | e in Needed(cfg, root) :: !IsHit(start, e))
    && forall e {:trigger Outstanding(cfg, s, e)} {:trigger e in Needed(cfg, root)} ::
         e in Needed(cfg, root) && !s.abort ==> Outstanding(cfg, s, e) || IsHit(start, e)
  }

  lemma InitialTracked(cfg: Config, root: Tree, s: State)
    requires Initial(root, s)
    ensures Tracked(cfg, root, s.cache, s) && Frozen(cfg, root, s.cache, s)
  {
    assert AllNeeded(cfg, [root]) == Needed(cfg, root);
    forall e ensures Outstanding(cfg, s, e) <==> e in Needed(cfg, root) {
      assert forall w | 0 <= w < |s.workers| :: Open(cfg, s.workers[w]) == {};
    }
  }

  lemma SameLinesSameSize(a: CacheState, b: CacheState)
    requires Strip(a.lines) == Strip(b.lines) && a.limit == b.limit
    ensures a.lines.Keys == b.lines.Keys && |a.lines| == |b.lines| && (Full(a) <==> Full(b))
    ensures forall e :: IsHit(a, e) <==> IsHit(b, e)
  {
    assert Strip(a.lines).Keys == a.lines.Keys && Strip(b.lines).Keys == b.lines.Keys;
    assert |a.lines| == |a.lines.Keys| && |b.lines| == |b.lines.Keys|;
  }

  /** Whatever the step inserts belongs to a needed entry. */
  lemma StepKeys(cfg: Config, world: set<Entry>, root: Tree, s: State, w: nat)
    requires StampsDetermine(world, cfg.scan) && Known(cfg, world, s) && Enabled(cfg, s, Step(w))
    requires forall e | Outstanding(cfg, s, e) :: e in Needed(cfg, root)
    ensures var c := EffectOf(cfg, s.cache, s.workers[w]).cache;
            s.cache.lines.Keys <= c.lines.Keys <= s.cache.lines.Keys + Inodes(Needed(cfg, root))
  {
    var pc := s.workers[w];
    EffectStores(cfg, world, s.cache, pc);
    EffectSize(cfg, s.cache, pc);
    if Storing(cfg, pc) {
      assert Outstanding(cfg, s, pc.sp.entry);
    } else {
      SameLinesSameSize(s.cache, EffectOf(cfg, s.cache, pc).cache);
    }
  }

  lemma TrackedStep(cfg: Config, world: set<Entry>, root: Tree, start: CacheState, s: State, w: nat)
    requires StampsDetermine(world, cfg.scan) && Known(cfg, world, s) && Enabled(cfg, s, Step(w))
    requires Tracked(cfg, root, start, s)
    ensures Tracked(cfg, root, start, Next(cfg, s, Step(w)))
  {
    var s' := Next(cfg, s, Step(w));
    StepKeys(cfg, world, root, s, w);
    forall e
      ensures Outstanding(cfg, s', e) ==> e in Needed(cfg, root)
      ensures e in Needed(cfg, root) && !s'.abort ==>
                Outstanding(cfg, s', e) || (e.ino.Some? && e.ino.value in s'.cache.lines)
    {
      OutstandingStep(cfg, world, s, w, e);
    }
  }

  lemma TrackedElsewhere(cfg: Config, root: Tree, start: CacheState, s: State, a: Action)
    requires Enabled(cfg, s, a) && !a.Step? && Tracked(cfg, root, start, s) && !Committed(Next(cfg, s, a).phase)
    ensures Tracked(cfg, root, start, Next(cfg, s, a))
  {
    var s' := Next(cfg, s, a);
    assert s'.cache == s.cache && s'.abort == s.abort;
    forall e ensures Outstanding(cfg, s', e) <==> Outstanding(cfg, s, e) {
      OutstandingElsewhere(cfg, s, a, e);
    }
  }

  lemma TrackedKept(cfg: Config, world: set<Entry>, root: Tree, start: State, s: State, a: Action)
    requires Setup(cfg, world, root, start) && Invariant(cfg, world, root, start, s) && Enabled(cfg, s, a)
    requires Tracked(cfg, root, start.cache, s) && !Committed(Next(cfg, s, a).phase)
    ensures Tracked(cfg, root, start.cache, Next(cfg, s, a))
  {
    if a.Step? {
      TrackedStep(cfg, world, root, start.cache, s, a.w);
    } else {
      TrackedElsewhere(cfg, root, start.cache, s, a);
    }
  }

  lemma EffectUnhit(cfg: Config, start: CacheState, c: CacheState, among: set<Entry>, pc: PC)
    requires Busy(pc) && Unhit(start, among, pc) && forall e | e in among && IsHit(start, e) :: IsHit(c, e)
    ensures Unhit(start, among, EffectOf(cfg, c, pc).pc)
  {}

  /** When a step aborts a run that was well so far, the plain scan gives up, or a needed entry misses for which
      there is no room. */
  lemma StepAborts(cfg: Config, world: set<Entry>, root: Tree, start: State, s: State, w: nat)
    requires StampsDetermine(world, cfg.scan) && Invariant(cfg, world, root, start, s) && Enabled(cfg, s, Step(w))
    requires Tracked(cfg, root, start.cache, s) && !s.abort && EffectOf(cfg, s.cache, s.workers[w]).abort
    ensures GivesUp(cfg, root) ||
            (Storing(cfg, s.workers[w]) && Full(s.cache) && s.workers[w].sp.entry in Needed(cfg, root))
  {
    var pc := s.workers[w];
    EffectAborts(cfg, world, s.cache, pc);
    EffectStores(cfg, world, s.cache, pc);
    TroubleKnown(cfg, root, s);
    if Storing(cfg, pc) {
      assert Outstanding(cfg, s, pc.sp.entry);
    }
  }

  lemma FrozenStep(cfg: Config, world: set<Entry>, root: Tree, start: State, s: State, w: nat)
    requires StampsDetermine(world, cfg.scan) && Invariant(cfg, world, root, start, s) && Enabled(cfg, s, Step(w))
    requires Full(start.cache) && Tracked(cfg, root, start.cache, s) && Frozen(cfg, root, start.cache, s)
    ensures Frozen(cfg, root, start.cache, Next(cfg, s, Step(w)))
  {
    var pc, s' := s.workers[w], Next(cfg, s, Step(w));
    SameLinesSameSize(s.cache, start.cache);
    EffectStores(cfg, world, s.cache, pc);
    EffectUnhit(cfg, start.cache, s.cache, Needed(cfg, root), pc);
    if s'.abort && !s.abort {
      StepAborts(cfg, world, root, start, s, w);
    }
    forall e | e in Needed(cfg, root) && !s'.abort ensures Outstanding(cfg, s', e) || IsHit(start.cache, e) {
      OutstandingStep(cfg, world, s, w, e);
    }
  }

  lemma FrozenElsewhere(cfg: Config, root: Tree, start: CacheState, s: State, a: Action)
    requires Enabled(cfg, s, a) && !a.Step? && Frozen(cfg, root, start, s) && !Committed(Next(cfg, s, a).phase)
    ensures Frozen(cfg, root, start, Next(cfg, s, a))
  {
    var s' := Next(cfg, s, a);
    assert s'.cache == s.cache && s'.abort == s.abort;
    forall e ensures Outstanding(cfg, s', e) <==> Outstanding(cfg, s, e) {
      OutstandingElsewhere(cfg, s, a, e);
    }
  }

  lemma FrozenKept(cfg: Config, world: set<Entry>, root: Tree, start: State, s: State, a: Action)
    requires Setup(cfg, world, root, start) && Invariant(cfg, world, root, start, s) && Enabled(cfg, s, a)
    requires Full(start.cache) && Tracked(cfg, root, start.cache, s)
    requires Frozen(cfg, root, start.cache, s) && !Committed(Next(cfg, s, a).phase)
    ensures Frozen(cfg, root, start.cache, Next(cfg, s, a))
  {
    if a.Step? {
      FrozenStep(cfg, world, root, start, s, a.w);
    } else {
      FrozenElsewhere(cfg, root, start.cache, s, a);
    }
  }

  lemma {:induction false} RunTracked(cfg: Config, world: set<Entry>, root: Tree,
                                      states: seq<State>, actions: seq<Action>, i: nat)
    requires IsRun(cfg, root, states, actions) && Setup(cfg, world, root, states[0]) && i < |states|
    requires !Committed(states[i].phase)
    ensures Tracked(cfg, root, states[0].cache, states[i])
  {
    if i == 0 {
      InitialTracked(cfg, root, states[0]);
    } else {
      var s, a := states[i - 1], actions[i - 1];
      assert Enabled(cfg, s, a) && states[i] == Next(cfg, s, a) && !Committed(s.phase);
      RunTracked(cfg, world, root, states, actions, i - 1);
      RunInvariant(cfg, world, root, states, actions, i - 1);
      TrackedKept(cfg, world, root, states[0], s, a);
    }
  }

  lemma {:induction false} RunFrozen(cfg: Config, world: set<Entry>, root: Tree,
                                     states: seq<State>, actions: seq<Action>, i: nat)
    requires IsRun(cfg, root, states, actions) && Setup(cfg, world, root, states[0]) && i < |states|
    requires Full(states[0].cache) && !Committed(states[i].phase)
    ensures Frozen(cfg, root, states[0].cache, states[i])
  {
    if i == 0 {
      InitialTracked(cfg, root, states[0]);
    } else {
      var s, a := states[i - 1], actions[i - 1];
      assert Enabled(cfg, s, a) && states[i] == Next(cfg, s, a) && !Committed(s.phase);
      RunFrozen(cfg, world, root, states, actions, i - 1);
      RunTracked(cfg, world, root, states, actions, i - 1);
      RunInvariant(cfg, world, root, states, actions, i - 1);
      FrozenKept(cfg, world, root, states[0], s, a);
    }
  }

  /** A run that gets beyond the receive loops passes through a state in which the cache is as the walk left it. */
  lemma JoinedBefore(cfg: Config, root: Tree, states: seq<State>, actions: seq<Action>, i: nat)
    returns (j: nat)
    requires IsRun(cfg, root, states, actions) && i < |states| && AfterJoin(states[i].phase)
    ensures j <= i && AfterJoin(states[j].phase) && !Committed(states[j].phase)
  {
    j := i;
    if Committed(states[i].phase) {
      assert i > 0 && Enabled(cfg, states[i - 1], actions[i - 1]);
      j := i - 1;
    }
  }

  lemma NoneOutstanding(cfg: Config, s: State, e: Entry)
    requires Orderly(s) && AfterJoin(s.phase)
    ensures !Outstanding(cfg, s, e)
  {
    NoneLive(s.workers);
    assert s.workers[0].Exited?;
  }

  // ---------------------------------------------------------------- when a limited cache aborts a run

  /** The inodes that are in the cache at the start or have to get into it. */
  function Lines(cfg: Config, root: Tree, c: CacheState): set<Ino> {
    c.lines.Keys + Inodes(Needed(cfg, root))
  }

  /** There is no limit, or it is never reached. */
  predicate Roomy(cfg: Config, root: Tree, c: CacheState) {
    c.limit == 0 || |Lines(cfg, root, c)| < c.limit
  }

  predicate Overflowing(cfg: Config, root: Tree, c: CacheState) {
    c.limit > 0 && |Lines(cfg, root, c)| > Max(|c.lines|, c.limit)
  }

  /** If the loaded lines and the needed ones stay below the limit, a run aborts exactly if the plain scan gives
      up, in any interleaving. */
  lemma RoomyRunAbortsIff(cfg: Config, world: set<Entry>, root: Tree, states: seq<State>, actions: seq<Action>)
    requires IsRun(cfg, root, states, actions) && Setup(cfg, world, root, states[0])
    requires Final(states[|actions|]) && Roomy(cfg, root, states[0].cache)
    ensures states[|actions|].phase.Aborted? <==> GivesUp(cfg, root)
  {
    var s := states[|actions|];
    RunAbortsIff(cfg, world, root, states, actions);
    RunInvariant(cfg, world, root, states, actions, |actions|);
    if s.phase.Aborted? && Full(s.cache) {
      assert |s.cache.lines| == |s.cache.lines.Keys|;
      RunTracked(cfg, world, root, states, actions, |actions|);
      SubsetSize(s.cache.lines.Keys, Lines(cfg, root, states[0].cache));
    }
  }

  /** If more lines are needed than the limit, or the cache as it was loaded, can hold, every run aborts. */
  lemma OverflowingRunAborts(cfg: Config, world: set<Entry>, root: Tree, states: seq<State>, actions: seq<Action>)
    requires IsRun(cfg, root, states, actions) && Setup(cfg, world, root, states[0])
    requires Final(states[|actions|]) && Overflowing(cfg, root, states[0].cache)
    ensures states[|actions|].phase.Aborted?
  {
    if !states[|actions|].phase.Aborted? {
      var j := JoinedBefore(cfg, root, states, actions, |actions|);
      var s := states[j];
      RunInvariant(cfg, world, root, states, actions, j);
      RunTracked(cfg, world, root, states, actions, j);
      forall e | e in Needed(cfg, root) ensures e.ino.Some? && e.ino.value in s.cache.lines {
        NoneOutstanding(cfg, s, e);
      }
      assert |s.cache.lines| == |s.cache.lines.Keys|;
      SubsetSize(Lines(cfg, root, states[0].cache), s.cache.lines.Keys);
    }
  }

  /** If the cache was full from the start, a run aborts exactly if the plain scan gives up or some needed entry
      does not hit it, in any interleaving. */
  lemma FullRunAbortsIff(cfg: Config, world: set<Entry>, root: Tree, states: seq<State>, actions: seq<Action>)
    requires IsRun(cfg, root, states, actions) && Setup(cfg, world, root, states[0])
    requires Final(states[|actions|]) && Full(states[0].cache)
    ensures states[|actions|].phase.Aborted? <==>
              GivesUp(cfg, root) || exists e | e in Needed(cfg, root) :: !IsHit(states[0].cache, e)
  {
    RunAbortsIff(cfg, world, root, states, actions);
    RunInvariant(cfg, world, root, states, actions, |actions|);
    if states[|actions|].phase.Aborted? {
      RunFrozen(cfg, world, root, states, actions, |actions|);
    } else {
      var j := JoinedBefore(cfg, root, states, actions, |actions|);
      RunInvariant(cfg, world, root, states, actions, j);
      RunFrozen(cfg, world, root, states, actions, j);
      forall e | e in Needed(cfg, root) ensures IsHit(states[0].cache, e) {
        NoneOutstanding(cfg, states[j], e);
      }
    }
  }

  // ---------------------------------------------------------------- a limit that is just reached

  predicate Missing(cfg: Config, start: CacheState, e: Entry) {
    NeedsLine(cfg, e) && !IsHit(start, e)
  }

  function OneMiss(cfg: Config, start: CacheState, e: Entry): nat {
    if Missing(cfg, start, e) then 1 else 0
  }

  /** How many of the entries the plain scan comes by need a line and do not hit; hard links count each. */
  function Misses(cfg: Config, start: CacheState, t: Tree): nat {
    if t.Item? && GoesOn(cfg, t.entry) then OneMiss(cfg, start, t.entry) + AllMisses(cfg, start, t.kids) else 0
  }

  function AllMisses(cfg: Config, start: CacheState, ts: seq<Tree>): nat {
    if ts == [] then 0 else Misses(cfg, start, ts[0]) + AllMisses(cfg, start, ts[1..])
  }

  function WaitingMisses(cfg: Config, start: CacheState, sp: StorePaths, kids: seq<Tree>): nat {
    if !GoesOn(cfg, sp.entry) then 0
    else (if sp.cached then 0 else OneMiss(cfg, start, sp.entry)) + AllMisses(cfg, start, kids)
  }

  function OpenMisses(cfg: Config, start: CacheState, pc: PC): nat {
    match pc
    case Entered(t) => Misses(cfg, start, t)
    case Scanning(e, kids) => Misses(cfg, start, Item(e, kids))
    case Checking(sp, kids) => WaitingMisses(cfg, start, sp, kids)
    case Inserting(sp, kids) => WaitingMisses(cfg, start, sp, kids)
    case Reporting(_, kids) => AllMisses(cfg, start, kids)
    case Sending(_, kids) => AllMisses(cfg, start, kids)
    case Descending(kids) => AllMisses(cfg, start, kids)
    case _ => 0
  }

  function MissesOf(cfg: Config, start: CacheState): PC -> nat {
    pc => OpenMisses(cfg, start, pc)
  }

  function MissesAhead(cfg: Config, start: CacheState, s: State): nat {
    AllMisses(cfg, start, s.pending) + SumOver(s.workers, MissesOf(cfg, start))
  }

  lemma {:induction false} MissesAppend(cfg: Config, start: CacheState, a: seq<Tree>, b: seq<Tree>)
    ensures AllMisses(cfg, start, a + b) == AllMisses(cfg, start, a) + AllMisses(cfg, start, b)
  {
    if a == [] {
      assert a + b == b;
    } else {
      assert (a + b)[1..] == a[1..] + b;
      MissesAppend(cfg, start, a[1..], b);
    }
  }

  lemma MissesRemove(cfg: Config, start: CacheState, ts: seq<Tree>, k: nat)
    requires k < |ts|
    ensures AllMisses(cfg, start, ts) == Misses(cfg, start, ts[k]) + AllMisses(cfg, start, ts[..k] + ts[k + 1..])
  {
    MissesAppend(cfg, start, ts[..k], ts[k + 1..]);
    MissesAppend(cfg, start, ts[..k], ts[k..]);
    assert ts == ts[..k] + ts[k..] && ts[k..][1..] == ts[k + 1..];
  }

  /** Entries that share an inode share its stamp. */
  ghost predicate SameStamps(es: set<Entry>) {
    forall e, e' | e in es && e' in es && e.ino == e'.ino :: SameFile(e, e')
  }

  /** Nothing has to be inserted, or the loaded lines and everything that does not hit stay within the limit. */
  ghost predicate Fits(cfg: Config, root: Tree, c: CacheState) {
    && SameStamps(Needed(cfg, root))
    && (Misses(cfg, c, root) == 0 || |c.lines| + Misses(cfg, c, root) <= c.limit)
  }

  lemma EffectGrows(cfg: Config, world: set<Entry>, c: CacheState, pc: PC)
    requires StampsDetermine(world, cfg.scan) && SoundCache(cfg, world, c)
    requires Busy(pc) && GoodPc(cfg, world, pc)
    ensures |EffectOf(cfg, c, pc).cache.lines| <= |c.lines| + if Storing(cfg, pc) then 1 else 0
  {
    EffectStores(cfg, world, c, pc);
    if Storing(cfg, pc) {
      StepSize(c, Put(pc.sp));
    } else {
      SameLinesSameSize(EffectOf(cfg, c, pc).cache, c);
    }
  }

  /** No miss appears that was not ahead, and what is being inserted is one less to come. */
  predicate TakesMiss(cfg: Config, start: CacheState, pc: PC, eff: Effect) {
    OpenMisses(cfg, start, eff.pc) + AllMisses(cfg, start, eff.queued) + (if Storing(cfg, pc) then 1 else 0)
      <= OpenMisses(cfg, start, pc)
  }

  lemma LookupMisses(cfg: Config, start: CacheState, c: CacheState, e: Entry, kids: seq<Tree>)
    ensures var pc := Entered(Item(e, kids)); TakesMiss(cfg, start, pc, EffectOf(cfg, c, pc))
  {}

  lemma ScanMisses(cfg: Config, start: CacheState, c: CacheState, e: Entry, kids: seq<Tree>)
    requires !e.body.Directory?
    ensures var pc := Scanning(e, kids); TakesMiss(cfg, start, pc, EffectOf(cfg, c, pc))
  {}

  lemma CheckMisses(cfg: Config, start: CacheState, c: CacheState, sp: StorePaths, kids: seq<Tree>)
    requires Fetch(cfg, sp.entry) == Ok(sp.refs)
    ensures TakesMiss(cfg, start, Checking(sp, kids), Check(cfg, c, sp, kids))
  {}

  lemma InsertMisses(cfg: Config, start: CacheState, c: CacheState, sp: StorePaths, kids: seq<Tree>)
    requires InsertResult(c, sp).Ok? ==> GoesOn(cfg, sp.entry)
    requires Storing(cfg, Inserting(sp, kids)) ==> !IsHit(start, sp.entry)
    ensures var pc := Inserting(sp, kids); TakesMiss(cfg, start, pc, EffectOf(cfg, c, pc))
  {}

  lemma EffectMisses(cfg: Config, world: set<Entry>, start: CacheState, c: CacheState, pc: PC)
    requires StampsDetermine(world, cfg.scan) && SoundCache(cfg, world, c)
    requires Busy(pc) && GoodPc(cfg, world, pc)
    requires Storing(cfg, pc) ==> !IsHit(start, pc.sp.entry)
    ensures TakesMiss(cfg, start, pc, EffectOf(cfg, c, pc))
  {
    match pc {
      case Entered(Item(e, kids)) => LookupMisses(cfg, start, c, e, kids);
      case Scanning(e, kids) => ScanMisses(cfg, start, c, e, kids);
      case Checking(sp, kids) => CheckMisses(cfg, start, c, sp, kids);
      case Inserting(sp, kids) =>
        InsertGood(cfg, world, c, sp);
        InsertMisses(cfg, start, c, sp, kids);
      case _ =>
    }
  }

  ghost predicate Fitting(cfg: Config, root: Tree, start: CacheState, s: State) {
    && |s.cache.lines| + MissesAhead(cfg, start, s) <= |start.lines| + Misses(cfg, start, root)
    && (forall e | e in Needed(cfg, root) && IsHit(start, e) :: IsHit(s.cache, e))
    && (forall w | 0 <= w < |s.workers| :: Unhit(start, Needed(cfg, root), s.workers[w]))
    && (s.abort ==> GivesUp(cfg, root))
  }

  lemma {:induction false} SumMember(ws: seq<PC>, f: PC -> nat, w: nat)
    requires w < |ws|
    ensures f(ws[w]) <= SumOver(ws, f)
  {
    if w > 0 {
      SumMember(ws[1..], f, w - 1);
    }
  }

  /** Inserting a needed entry leaves every needed entry hitting that did. */
  lemma EffectHits(cfg: Config, world: set<Entry>, root: Tree, c: CacheState, pc: PC, e: Entry)
    requires StampsDetermine(world, cfg.scan) && SoundCache(cfg, world, c)
    requires Busy(pc) && GoodPc(cfg, world, pc)
    requires SameStamps(Needed(cfg, root)) && (Storing(cfg, pc) ==> pc.sp.entry in Needed(cfg, root))
    requires e in Needed(cfg, root) && IsHit(c, e)
    ensures IsHit(EffectOf(cfg, c, pc).cache, e)
  {
    EffectStores(cfg, world, c, pc);
    if Storing(cfg, pc) && pc.sp.entry.ino == e.ino {
      assert SameFile(pc.sp.entry, e);
    }
  }

  lemma StepMisses(cfg: Config, world: set<Entry>, start: CacheState, s: State, w: nat)
    requires StampsDetermine(world, cfg.scan) && Known(cfg, world, s) && Enabled(cfg, s, Step(w))
    requires Storing(cfg, s.workers[w]) ==> !IsHit(start, s.workers[w].sp.entry)
    ensures var s' := Perform(s, w, EffectOf(cfg, s.cache, s.workers[w]));
            |s'.cache.lines| + MissesAhead(cfg, start, s') <= |s.cache.lines| + MissesAhead(cfg, start, s)
    ensures Storing(cfg, s.workers[w]) ==> MissesAhead(cfg, start, s) > 0
  {
    var pc := s.workers[w];
    var eff := EffectOf(cfg, s.cache, pc);
    EffectGrows(cfg, world, s.cache, pc);
    EffectMisses(cfg, world, start, s.cache, pc);
    SumUpdate(s.workers, MissesOf(cfg, start), w, eff.pc);
    SumMember(s.workers, MissesOf(cfg, start), w);
    MissesAppend(cfg, start, s.pending, eff.queued);
  }

  lemma StepHits(cfg: Config, world: set<Entry>, root: Tree, start: CacheState, s: State, w: nat)
    requires StampsDetermine(world, cfg.scan) && Known(cfg, world, s) && Enabled(cfg, s, Step(w))
    requires SameStamps(Needed(cfg, root)) && Tracked(cfg, root, start, s) && Fitting(cfg, root, start, s)
    ensures var eff := EffectOf(cfg, s.cache, s.workers[w]);
            && (forall e | e in Needed(cfg, root) && IsHit(start, e) :: IsHit(eff.cache, e))
            && Unhit(start, Needed(cfg, root), eff.pc)
  {
    var pc := s.workers[w];
    EffectStores(cfg, world, s.cache, pc);
    EffectUnhit(cfg, start, s.cache, Needed(cfg, root), pc);
    if Storing(cfg, pc) {
      assert Outstanding(cfg, s, pc.sp.entry);
    }
    forall e | e in Needed(cfg, root) && IsHit(start, e) ensures IsHit(EffectOf(cfg, s.cache, pc).cache, e) {
      EffectHits(cfg, world, root, s.cache, pc, e);
    }
  }

  lemma FittingNotFull(cfg: Config, root: Tree, start: State, s: State)
    requires Fits(cfg, root, start.cache) && Tracked(cfg, root, start.cache, s) && Staged(cfg, start, s)
    requires Fitting(cfg, root, start.cache, s) && MissesAhead(cfg, start.cache, s) > 0
    ensures !Full(s.cache)
  {
    SubsetSize(start.cache.lines.Keys, s.cache.lines.Keys);
    assert |start.cache.lines| == |start.cache.lines.Keys| && |s.cache.lines| == |s.cache.lines.Keys|;
  }

  lemma FittingStep(cfg: Config, world: set<Entry>, root: Tree, start: State, s: State, w: nat)
    requires StampsDetermine(world, cfg.scan) && Invariant(cfg, world, root, start, s) && Enabled(cfg, s, Step(w))
    requires Fits(cfg, root, start.cache) && Tracked(cfg, root, start.cache, s)
    requires Fitting(cfg, root, start.cache, s)
    ensures Fitting(cfg, root, start.cache, Next(cfg, s, Step(w)))
  {
    var pc, s' := s.workers[w], Next(cfg, s, Step(w));
    EffectStores(cfg, world, s.cache, pc);
    if Storing(cfg, pc) {
      assert Outstanding(cfg, s, pc.sp.entry);
    }
    StepMisses(cfg, world, start.cache, s, w);
    StepHits(cfg, world, root, start.cache, s, w);
    forall v | 0 <= v < |s'.workers| ensures Unhit(start.cache, Needed(cfg, root), s'.workers[v]) {
      assert v != w ==> s'.workers[v] == s.workers[v];
    }
    if s'.abort && !s.abort {
      StepAborts(cfg, world, root, start, s, w);
      if Storing(cfg, pc) {
        FittingNotFull(cfg, root, start, s);
      }
    }
  }

  lemma MissesElsewhere(cfg: Config, start: CacheState, s: State, a: Action)
    requires Enabled(cfg, s, a) && !a.Step?
    ensures MissesAhead(cfg, start, Next(cfg, s, a)) == MissesAhead(cfg, start, s)
  {
    match a {
      case Take(w, k) =>
        MissesRemove(cfg, start, s.pending, k);
        SumUpdate(s.workers, MissesOf(cfg, start), w, Entered(s.pending[k]));
      case Exit(w) => SumUpdate(s.workers, MissesOf(cfg, start), w, Exited);
      case _ =>
    }
  }

  lemma FittingElsewhere(cfg: Config, root: Tree, start: CacheState, s: State, a: Action)
    requires Enabled(cfg, s, a) && !a.Step? && !a.CommitCache? && Fitting(cfg, root, start, s)
    ensures Fitting(cfg, root, start, Next(cfg, s, a))
  {
    MissesElsewhere(cfg, start, s, a);
    assert Next(cfg, s, a).cache == s.cache && Next(cfg, s, a).abort == s.abort;
  }

  lemma FittingKept(cfg: Config, world: set<Entry>, root: Tree, start: State, s: State, a: Action)
    requires Setup(cfg, world, root, start) && Invariant(cfg, world, root, start, s) && Enabled(cfg, s, a)
    requires Fits(cfg, root, start.cache) && Tracked(cfg, root, start.cache, s)
    requires Fitting(cfg, root, start.cache, s) && !Committed(Next(cfg, s, a).phase)
    ensures Fitting(cfg, root, start.cache, Next(cfg, s, a))
  {
    if a.Step? {
      FittingStep(cfg, world, root, start, s, a.w);
    } else {
      FittingElsewhere(cfg, root, start.cache, s, a);
    }
  }

  lemma InitialFitting(cfg: Config, root: Tree, s: State)
    requires Initial(root, s)
    ensures Fitting(cfg, root, s.cache, s)
  {
    assert AllMisses(cfg, s.cache, [root]) == Misses(cfg, s.cache, root);
    SumZero(s.workers, MissesOf(cfg, s.cache));
  }

  lemma {:induction false} RunFitting(cfg: Config, world: set<Entry>, root: Tree,
                                      states: seq<State>, actions: seq<Action>, i: nat)
    requires IsRun(cfg, root, states, actions) && Setup(cfg, world, root, states[0]) && i < |states|
    requires Fits(cfg, root, states[0].cache) && !Committed(states[i].phase)
    ensures Fitting(cfg, root, states[0].cache, states[i])
  {
    if i == 0 {
      InitialFitting(cfg, root, states[0]);
    } else {
      var s, a := states[i - 1], actions[i - 1];
      assert Enabled(cfg, s, a) && states[i] == Next(cfg, s, a) && !Committed(s.phase);
      RunFitting(cfg, world, root, states, actions, i - 1);
      RunTracked(cfg, world, root, states, actions, i - 1);
      RunInvariant(cfg, world, root, states, actions, i - 1);
      FittingKept(cfg, world, root, states[0], s, a);
    }
  }

  /** If every needed entry hits, or the limit leaves room for the loaded lines and one more for each that does not,
      a run aborts exactly if the plain scan gives up, in any interleaving. */
  lemma FittingRunAbortsIff(cfg: Config, world: set<Entry>, root: Tree, states: seq<State>, actions: seq<Action>)
    requires IsRun(cfg, root, states, actions) && Setup(cfg, world, root, states[0])
    requires Final(states[|actions|]) && Fits(cfg, root, states[0].cache)
    ensures states[|actions|].phase.Aborted? <==> GivesUp(cfg, root)
  {
    RunAbortsIff(cfg, world, root, states, actions);
    RunInvariant(cfg, world, root, states, actions, |actions|);
    if states[|actions|].phase.Aborted? {
      RunFitting(cfg, world, root, states, actions, |actions|);
    }
  }

  // ---------------------------------------------------------------- one worker

  ghost predicate AllHit(cfg: Config, root: Tree, c: CacheState) {
    forall e | e in Needed(cfg, root) && e.ino.Some? && e.ino.value in c.lines :: IsHit(c, e)
  }

  /** No loaded line is out of date, and the limit is not exceeded, but perhaps reached. */
  ghost predicate FitsInTurn(cfg: Config, root: Tree, c: CacheState) {
    SameStamps(Needed(cfg, root)) && AllHit(cfg, root, c) && |Lines(cfg, root, c)| <= c.limit
  }

  /** What the worker scans or has scanned has no line, if it is among these entries. */
  predicate Lineless(c: CacheState, among: set<Entry>, pc: PC) {
    match pc
    case Scanning(e, _) => e in among && e.ino.Some? ==> e.ino.value !in c.lines
    case Checking(sp, _) => sp.entry in among && !sp.cached && sp.entry.ino.Some? ==> sp.entry.ino.value !in c.lines
    case Inserting(sp, _) => sp.entry in among && !sp.cached && sp.entry.ino.Some? ==> sp.entry.ino.value !in c.lines
    case _ => true
  }

  ghost predicate InTurn(cfg: Config, root: Tree, s: State) {
    && |s.workers| == 1 && Lineless(s.cache, Needed(cfg, root), s.workers[0])
    && AllHit(cfg, root, s.cache) && (s.abort ==> GivesUp(cfg, root))
  }

  lemma EffectLineless(cfg: Config, root: Tree, c: CacheState, pc: PC)
    requires Busy(pc) && Lineless(c, Needed(cfg, root), pc) && AllHit(cfg, root, c)
    ensures var eff := EffectOf(cfg, c, pc); Lineless(eff.cache, Needed(cfg, root), eff.pc)
  {}

  lemma EffectAllHit(cfg: Config, world: set<Entry>, root: Tree, c: CacheState, pc: PC)
    requires StampsDetermine(world, cfg.scan) && SoundCache(cfg, world, c)
    requires Busy(pc) && GoodPc(cfg, world, pc)
    requires SameStamps(Needed(cfg, root)) && (Storing(cfg, pc) ==> pc.sp.entry in Needed(cfg, root))
    requires AllHit(cfg, root, c)
    ensures AllHit(cfg, root, EffectOf(cfg, c, pc).cache)
  {
    EffectStores(cfg, world, c, pc);
    var c' := EffectOf(cfg, c, pc).cache;
    forall e | e in Needed(cfg, root) && e.ino.Some? && e.ino.value in c'.lines ensures IsHit(c', e) {
      if Storing(cfg, pc) && pc.sp.entry.ino == e.ino {
        assert SameFile(pc.sp.entry, e);
      } else if Strip(c'.lines) == Strip(c.lines) {
        assert e.ino.value in Strip(c.lines);
      }
    }
  }

  /** A cache that lacks a needed line is not full, if all lines together stay within the limit. */
  lemma MoreLines(cfg: Config, root: Tree, start: CacheState, c: CacheState, e: Entry)
    requires c.lines.Keys <= Lines(cfg, root, start) && |Lines(cfg, root, start)| <= start.limit == c.limit
    requires e in Needed(cfg, root) && e.ino.Some? && e.ino.value !in c.lines
    ensures !Full(c)
  {
    SubsetSize(c.lines.Keys + {e.ino.value}, Lines(cfg, root, start));
    assert |c.lines| == |c.lines.Keys|;
  }

  lemma InTurnStep(cfg: Config, world: set<Entry>, root: Tree, start: State, s: State)
    requires StampsDetermine(world, cfg.scan) && Invariant(cfg, world, root, start, s) && Enabled(cfg, s, Step(0))
    requires FitsInTurn(cfg, root, start.cache) && Tracked(cfg, root, start.cache, s) && InTurn(cfg, root, s)
    ensures InTurn(cfg, root, Next(cfg, s, Step(0)))
  {
    var pc, s' := s.workers[0], Next(cfg, s, Step(0));
    EffectStores(cfg, world, s.cache, pc);
    if Storing(cfg, pc) {
      assert Outstanding(cfg, s, pc.sp.entry);
    }
    EffectLineless(cfg, root, s.cache, pc);
    EffectAllHit(cfg, world, root, s.cache, pc);
    if s'.abort && !s.abort {
      StepAborts(cfg, world, root, start, s, 0);
      if Storing(cfg, pc) {
        MoreLines(cfg, root, start.cache, s.cache, pc.sp.entry);
      }
    }
  }

  lemma InTurnElsewhere(cfg: Config, root: Tree, s: State, a: Action)
    requires Enabled(cfg, s, a) && !a.Step? && !a.CommitCache? && InTurn(cfg, root, s)
    ensures InTurn(cfg, root, Next(cfg, s, a))
  {
    assert Next(cfg, s, a).cache == s.cache && Next(cfg, s, a).abort == s.abort;
  }

  lemma InTurnKept(cfg: Config, world: set<Entry>, root: Tree, start: State, s: State, a: Action)
    requires Setup(cfg, world, root, start) && Invariant(cfg, world, root, start, s) && Enabled(cfg, s, a)
    requires FitsInTurn(cfg, root, start.cache) && Tracked(cfg, root, start.cache, s)
    requires InTurn(cfg, root, s) && !Committed(Next(cfg, s, a).phase)
    ensures InTurn(cfg, root, Next(cfg, s, a))
  {
    if a.Step? {
      assert a == Step(0);
      InTurnStep(cfg, world, root, start, s);
    } else {
      InTurnElsewhere(cfg, root, s, a);
    }
  }

  lemma {:induction false} RunInTurn(cfg: Config, world: set<Entry>, root: Tree,
                                     states: seq<State>, actions: seq<Action>, i: nat)
    requires IsRun(cfg, root, states, actions) && Setup(cfg, world, root, states[0]) && i < |states|
    requires |states[0].workers| == 1 && FitsInTurn(cfg, root, states[0].cache) && !Committed(states[i].phase)
    ensures InTurn(cfg, root, states[i])
  {
    if i > 0 {
      var s, a := states[i - 1], actions[i - 1];
      assert Enabled(cfg, s, a) && states[i] == Next(cfg, s, a) && !Committed(s.phase);
      RunInTurn(cfg, world, root, states, actions, i - 1);
      RunTracked(cfg, world, root, states, actions, i - 1);
      RunInvariant(cfg, world, root, states, actions, i - 1);
      InTurnKept(cfg, world, root, states[0], s, a);
    }
  }

  /** A single worker never inserts a line that is there already, unless it is out of date. */
  lemma SingleRunAbortsIff(cfg: Config, world: set<Entry>, root: Tree, states: seq<State>, actions: seq<Action>)
    requires IsRun(cfg, root, states, actions) && Setup(cfg, world, root, states[0]) && Final(states[|actions|])
    requires |states[0].workers| == 1 && FitsInTurn(cfg, root, states[0].cache)
    ensures states[|actions|].phase.Aborted? <==> GivesUp(cfg, root)
  {
    RunAbortsIff(cfg, world, root, states, actions);
    RunInvariant(cfg, world, root, states, actions, |actions|);
    if states[|actions|].phase.Aborted? {
      RunInTurn(cfg, world, root, states, actions, |actions|);
    }
  }

  /** The limit leaves room for every line, so that no interleaving can run into it. */
  ghost predicate LimitSuffices(cfg: Config, root: Tree, start: State) {
    || Roomy(cfg, root, start.cache) || Fits(cfg, root, start.cache)
    || (|start.workers| == 1 && FitsInTurn(cfg, root, start.cache))
  }

  /** Then a run aborts exactly if the plain scan gives up. */
  lemma RunAbortsExactly(cfg: Config, world: set<Entry>, root: Tree, states: seq<State>, actions: seq<Action>)
    requires IsRun(cfg, root, states, actions) && Setup(cfg, world, root, states[0]) && Final(states[|actions|])
    requires LimitSuffices(cfg, root, states[0])
    ensures states[|actions|].phase.Aborted? <==> GivesUp(cfg, root)
  {
    if Roomy(cfg, root, states[0].cache) {
      RoomyRunAbortsIff(cfg, world, root, states, actions);
    } else if Fits(cfg, root, states[0].cache) {
      FittingRunAbortsIff(cfg, world, root, states, actions);
    } else {
      SingleRunAbortsIff(cfg, world, root, states, actions);
    }
  }
}
