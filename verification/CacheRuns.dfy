/** What a run does to the cache: which sequences of operations, and what the next run finds in the file. */
module CacheRuns {
  import opened Wrappers
  import opened StorePaths
  import opened Cache
  import opened Walk
  import opened WalkTheorems
  import opened CacheLimits

  // ---------------------------------------------------------------- a run as a sequence of operations

  /** The cache operations of a worker's step: a lookup, an insertion, or none. */
  function Operations(pc: PC): seq<Event> {
    match pc
    case Entered(Item(e, _)) => [Look(e)]
    case Inserting(sp, _) => [Put(sp)]
    case _ => []
  }

  lemma PlayOne(c: CacheState, events: seq<Event>, ev: Event)
    ensures Play(c, events + [ev]) == Apply(Play(c, events), ev)
  {
    assert (events + [ev])[..|events|] == events;
  }

  lemma EffectIsPlay(cfg: Config, world: set<Entry>, c: CacheState, pc: PC, start: CacheState, events: seq<Event>)
    requires Busy(pc) && GoodPc(cfg, world, pc) && c == Play(start, events)
    ensures EffectOf(cfg, c, pc).cache == Play(start, events + Operations(pc))
    ensures forall ev | ev in Operations(pc) :: FromScanner(ev, world, cfg.scan)
  {
    if Operations(pc) == [] {
      assert events + [] == events;
    } else {
      PlayOne(start, events, Operations(pc)[0]);
    }
  }

  /** The cache is what these operations make of the start, and all that they insert comes from the scanner. */
  ghost predicate IsPlay(cfg: Config, world: set<Entry>, start: CacheState, c: CacheState, events: seq<Event>) {
    c == Play(start, events) && forall ev | ev in events :: FromScanner(ev, world, cfg.scan)
  }

  lemma StepIsPlay(cfg: Config, world: set<Entry>, start: CacheState, s: State, a: Action, events: seq<Event>)
    returns (events': seq<Event>)
    requires Known(cfg, world, s) && Enabled(cfg, s, a) && !Committed(Next(cfg, s, a).phase)
    requires IsPlay(cfg, world, start, s.cache, events)
    ensures IsPlay(cfg, world, start, Next(cfg, s, a).cache, events')
  {
    events' := events;
    if a.Step? {
      EffectIsPlay(cfg, world, s.cache, s.workers[a.w], start, events);
      events' := events + Operations(s.workers[a.w]);
    }
  }

  /** Up to its commit, the cache of a run is that of some sequence of lookups and insertions, all from the scanner:
      what holds for every such sequence holds in every interleaving. */
  lemma {:induction false} RunIsPlay(cfg: Config, world: set<Entry>, root: Tree,
                                     states: seq<State>, actions: seq<Action>, i: nat) returns (events: seq<Event>)
    requires IsRun(cfg, root, states, actions) && Setup(cfg, world, root, states[0]) && i < |states|
    requires !Committed(states[i].phase)
    ensures IsPlay(cfg, world, states[0].cache, states[i].cache, events)
  {
    events := [];
    if i > 0 {
      var s, a := states[i - 1], actions[i - 1];
      assert Enabled(cfg, s, a) && states[i] == Next(cfg, s, a) && !Committed(s.phase);
      events := RunIsPlay(cfg, world, root, states, actions, i - 1);
      assert IsPlay(cfg, world, states[0].cache, s.cache, events);
      RunInvariant(cfg, world, root, states, actions, i - 1);
      events := StepIsPlay(cfg, world, states[0].cache, s, a, events);
    }
  }

  /** In every state of a run before the commit, a clean cache agrees with its file. */
  lemma RunSynced(cfg: Config, world: set<Entry>, root: Tree, states: seq<State>, actions: seq<Action>, i: nat)
    requires IsRun(cfg, root, states, actions) && Setup(cfg, world, root, states[0]) && i < |states|
    requires Synced(states[0].cache) && !Committed(states[i].phase)
    ensures Synced(states[i].cache)
  {
    var events := RunIsPlay(cfg, world, root, states, actions, i);
    PlaySynced(states[0].cache, events);
  }

  /** The step of a run that commits the cache. */
  lemma CommitStep(cfg: Config, root: Tree, states: seq<State>, actions: seq<Action>) returns (j: nat)
    requires IsRun(cfg, root, states, actions) && Committed(states[|actions|].phase)
    ensures j < |actions| && j + 1 == |actions| && actions[j].CommitCache? && states[j].phase.Registered?
    ensures states[|actions|].cache == AfterCommit(states[j].cache, actions[j].saving)
    ensures states[|actions|].phase.Done? <==>
              states[j].cache.image.None? || !states[j].cache.dirty || actions[j].saving.Saved?
  {
    assert |actions| > 0;
    j := |actions| - 1;
    assert Enabled(cfg, states[j], actions[j]) && states[j + 1] == Next(cfg, states[j], actions[j]);
  }

  /** The step inserts a scan result for which there is room. */
  predicate InsertsNow(s: State, a: Action) {
    && a.Step? && a.w < |s.workers| && s.workers[a.w].Inserting?
    && !s.workers[a.w].sp.cached && InsertResult(s.cache, s.workers[a.w].sp).Ok?
  }

  /** The step finds the entry with this inode in the cache. */
  predicate HitsNow(s: State, a: Action, i: Ino) {
    && a.Step? && a.w < |s.workers| && s.workers[a.w].Entered? && s.workers[a.w].t.Item?
    && IsHit(s.cache, s.workers[a.w].t.entry) && s.workers[a.w].t.entry.ino == Some(i)
  }

  predicate TouchesNow(s: State, a: Action, i: Ino) {
    HitsNow(s, a, i) || (InsertsNow(s, a) && s.workers[a.w].sp.entry.ino == Some(i))
  }

  /** Some worker's insertion succeeded. */
  predicate RunInserts(states: seq<State>, actions: seq<Action>)
    requires |states| > |actions|
  {
    exists k | 0 <= k < |actions| :: InsertsNow(states[k], actions[k])
  }

  /** Some worker hit the inode or inserted it. */
  predicate RunTouches(states: seq<State>, actions: seq<Action>, i: Ino)
    requires |states| > |actions|
  {
    exists k | 0 <= k < |actions| :: TouchesNow(states[k], actions[k], i)
  }

  lemma LookupUses(c: CacheState, e: Entry, i: Ino)
    ensures i in Used(AfterLookup(c, e).lines) <==> i in Used(c.lines) || (IsHit(c, e) && e.ino == Some(i))
  {}

  lemma InsertUses(c: CacheState, sp: StorePaths, i: Ino)
    ensures i in Used(AfterInsert(c, sp).lines) <==>
            i in Used(c.lines) || (!sp.cached && InsertResult(c, sp).Ok? && sp.entry.ino == Some(i))
  {}

  lemma StepTouches(cfg: Config, s: State, a: Action, i: Ino)
    requires Enabled(cfg, s, a) && !Committed(Next(cfg, s, a).phase)
    ensures i in Used(Next(cfg, s, a).cache.lines) <==> i in Used(s.cache.lines) || TouchesNow(s, a, i)
    ensures Next(cfg, s, a).cache.dirty <==> s.cache.dirty || InsertsNow(s, a)
    ensures Next(cfg, s, a).cache.image == s.cache.image
  {
    if a.Step? {
      match s.workers[a.w] {
        case Entered(Item(e, _)) => LookupUses(s.cache, e, i);
        case Inserting(sp, _) => InsertUses(s.cache, sp, i);
        case _ =>
      }
    } else {
      assert Next(cfg, s, a).cache == s.cache;
    }
  }

  lemma Grown(states: seq<State>, actions: seq<Action>, n: nat, i: Ino)
    requires 0 < n <= |actions| < |states|
    ensures RunTouches(states, actions[..n], i) <==>
            RunTouches(states, actions[..n - 1], i) || TouchesNow(states[n - 1], actions[n - 1], i)
    ensures RunInserts(states, actions[..n]) <==>
            RunInserts(states, actions[..n - 1]) || InsertsNow(states[n - 1], actions[n - 1])
  {
    var now, before := actions[..n], actions[..n - 1];
    assert forall k | 0 <= k < n - 1 :: now[k] == before[k];
    assert now[n - 1] == actions[n - 1];
    if k :| 0 <= k < n - 1 && TouchesNow(states[k], before[k], i) {
      assert TouchesNow(states[k], now[k], i);
    }
    if k :| 0 <= k < n - 1 && InsertsNow(states[k], before[k]) {
      assert InsertsNow(states[k], now[k]);
    }
  }

  lemma {:induction false} RunUses(cfg: Config, root: Tree, states: seq<State>, actions: seq<Action>, n: nat, i: Ino)
    requires IsRun(cfg, root, states, actions) && n <= |actions| && !Committed(states[n].phase)
    requires forall j | j in states[0].cache.lines :: !states[0].cache.lines[j].used
    ensures i in Used(states[n].cache.lines) <==> RunTouches(states, actions[..n], i)
    ensures states[n].cache.dirty <==> states[0].cache.dirty || RunInserts(states, actions[..n])
    ensures states[n].cache.image == states[0].cache.image
  {
    if n > 0 {
      var s, a := states[n - 1], actions[n - 1];
      assert Enabled(cfg, s, a) && states[n] == Next(cfg, s, a) && !Committed(s.phase);
      RunUses(cfg, root, states, actions, n - 1, i);
      StepTouches(cfg, s, a, i);
      Grown(states, actions, n, i);
    }
  }

  /** After a run that ended well, whatever its interleaving: a file that was not empty is as it was, unless some worker
      inserted a line; otherwise it holds exactly the inodes that some worker hit or inserted. */
  lemma RunKeepsTouched(cfg: Config, root: Tree, states: seq<State>, actions: seq<Action>, limit: nat, image: Image)
    requires IsRun(cfg, root, states, actions) && states[0].cache == AfterOpen(limit, image)
    requires states[|actions|].phase.Done?
    ensures var file := states[|actions|].cache.image;
            if !image.Blank? && !RunInserts(states, actions) then file == Some(image)
            else file.Some? && file.value.Encoded?
                 && forall i :: i in file.value.lines <==> RunTouches(states, actions, i)
  {
    var j := CommitStep(cfg, root, states, actions);
    OpenSynced(limit, image);
    assert actions[..j + 1] == actions;
    RunUses(cfg, root, states, actions, j, 0);
    Grown(states, actions, j + 1, 0);
    forall i ensures i in Used(states[j].cache.lines) <==> RunTouches(states, actions, i) {
      RunUses(cfg, root, states, actions, j, i);
      Grown(states, actions, j + 1, i);
    }
  }

  // ---------------------------------------------------------------- the next run

  /** Without an abort, every needed entry is still outstanding or hits a line that counts as used. */
  ghost predicate Warm(cfg: Config, root: Tree, s: State) {
    forall e {:trigger Outstanding(cfg, s, e)} {:trigger Marked(s.cache, e)} ::
      e in Needed(cfg, root) ==> Outstanding(cfg, s, e) || Marked(s.cache, e)
  }

  lemma EffectMarked(cfg: Config, world: set<Entry>, root: Tree, c: CacheState, pc: PC, e: Entry)
    requires StampsDetermine(world, cfg.scan) && SoundCache(cfg, world, c)
    requires Busy(pc) && GoodPc(cfg, world, pc)
    requires SameStamps(Needed(cfg, root)) && (Storing(cfg, pc) ==> pc.sp.entry in Needed(cfg, root))
    requires e in Needed(cfg, root) && Marked(c, e)
    ensures Marked(EffectOf(cfg, c, pc).cache, e)
  {
    EffectHits(cfg, world, root, c, pc, e);
    EffectStores(cfg, world, c, pc);
  }

  lemma WarmStep(cfg: Config, world: set<Entry>, root: Tree, start: CacheState, s: State, w: nat)
    requires StampsDetermine(world, cfg.scan) && Known(cfg, world, s) && Enabled(cfg, s, Step(w))
    requires SameStamps(Needed(cfg, root)) && Tracked(cfg, root, start, s) && Warm(cfg, root, s)
    requires !Next(cfg, s, Step(w)).abort
    ensures Warm(cfg, root, Next(cfg, s, Step(w)))
  {
    var pc, s' := s.workers[w], Next(cfg, s, Step(w));
    EffectStores(cfg, world, s.cache, pc);
    if Storing(cfg, pc) {
      assert Outstanding(cfg, s, pc.sp.entry);
    }
    forall e | e in Needed(cfg, root) ensures Outstanding(cfg, s', e) || Marked(s'.cache, e) {
      OutstandingStep(cfg, world, s, w, e);
      if Marked(s.cache, e) {
        EffectMarked(cfg, world, root, s.cache, pc, e);
      }
    }
  }

  lemma WarmElsewhere(cfg: Config, root: Tree, s: State, a: Action)
    requires Enabled(cfg, s, a) && !a.Step? && Warm(cfg, root, s) && !Committed(Next(cfg, s, a).phase)
    ensures Warm(cfg, root, Next(cfg, s, a))
  {
    var s' := Next(cfg, s, a);
    assert s'.cache == s.cache;
    forall e ensures Outstanding(cfg, s', e) <==> Outstanding(cfg, s, e) {
      OutstandingElsewhere(cfg, s, a, e);
    }
  }

  lemma WarmKept(cfg: Config, world: set<Entry>, root: Tree, start: State, s: State, a: Action, s': State)
    requires Setup(cfg, world, root, start) && Invariant(cfg, world, root, start, s) && Enabled(cfg, s, a)
    requires SameStamps(Needed(cfg, root)) && Tracked(cfg, root, start.cache, s) && Warm(cfg, root, s)
    requires s' == Next(cfg, s, a) && !Committed(s'.phase) && !s'.abort
    ensures Warm(cfg, root, s')
  {
    if a.Step? {
      WarmStep(cfg, world, root, start.cache, s, a.w);
    } else {
      WarmElsewhere(cfg, root, s, a);
    }
  }

  lemma InitialWarm(cfg: Config, root: Tree, s: State)
    requires Initial(root, s)
    ensures Warm(cfg, root, s)
  {
    assert AllNeeded(cfg, [root]) == Needed(cfg, root);
  }

  lemma {:induction false} RunWarm(cfg: Config, world: set<Entry>, root: Tree,
                                   states: seq<State>, actions: seq<Action>, i: nat)
    requires IsRun(cfg, root, states, actions) && Setup(cfg, world, root, states[0]) && i < |states|
    requires SameStamps(Needed(cfg, root)) && !Committed(states[i].phase) && !states[i].abort
    ensures Warm(cfg, root, states[i])
  {
    if i == 0 {
      InitialWarm(cfg, root, states[0]);
    } else {
      var s, a := states[i - 1], actions[i - 1];
      assert Enabled(cfg, s, a) && states[i] == Next(cfg, s, a) && !Committed(s.phase) && !s.abort;
      RunWarm(cfg, world, root, states, actions, i - 1);
      assert Warm(cfg, root, s);
      RunTracked(cfg, world, root, states, actions, i - 1);
      RunInvariant(cfg, world, root, states, actions, i - 1);
      WarmKept(cfg, world, root, states[0], s, a, states[i]);
    }
  }

  lemma {:induction false} NothingMissing(cfg: Config, c: CacheState, t: Tree)
    requires forall e | e in Needed(cfg, t) :: IsHit(c, e)
    ensures Misses(cfg, c, t) == 0
    decreases t
  {
    if t.Item? && GoesOn(cfg, t.entry) {
      NothingMissingIn(cfg, c, t.kids);
    }
  }

  lemma {:induction false} NothingMissingIn(cfg: Config, c: CacheState, ts: seq<Tree>)
    requires forall e | e in AllNeeded(cfg, ts) :: IsHit(c, e)
    ensures AllMisses(cfg, c, ts) == 0
    decreases ts
  {
    if ts != [] {
      NothingMissing(cfg, c, ts[0]);
      NothingMissingIn(cfg, c, ts[1..]);
    }
  }

  /** Right before the commit, every needed entry hits a line that will be kept. */
  lemma MarkedAtCommit(cfg: Config, world: set<Entry>, root: Tree, states: seq<State>, actions: seq<Action>, j: nat)
    requires IsRun(cfg, root, states, actions) && Setup(cfg, world, root, states[0])
    requires SameStamps(Needed(cfg, root)) && j < |states| && states[j].phase.Registered?
    ensures forall e | e in Needed(cfg, root) :: Marked(states[j].cache, e)
    ensures states[j].cache.image == states[0].cache.image
  {
    RunInvariant(cfg, world, root, states, actions, j);
    RunWarm(cfg, world, root, states, actions, j);
    forall e | e in Needed(cfg, root) ensures Marked(states[j].cache, e) {
      NoneOutstanding(cfg, states[j], e);
    }
  }

  lemma MarkedIsSaved(c: CacheState, saving: Saving, limit: nat, e: Entry)
    requires c.image.Some? && Synced(c) && Marked(c, e) && (c.dirty ==> saving.Saved?)
    ensures AfterCommit(c, saving).image.Some? && IsHit(AfterOpen(limit, AfterCommit(c, saving).image.value), e)
  {
    var next := AfterOpen(limit, AfterCommit(c, saving).image.value);
    assert Strip(next.lines) == Decoded(AfterCommit(c, saving).image.value);
  }

  /** After a run that ended well, the next one over the same tree finds every needed entry in the file, whatever its
      own limit: it inserts nothing, and aborts only if the plain scan gives up. */
  lemma NextRunHits(cfg: Config, world: set<Entry>, root: Tree, states: seq<State>, actions: seq<Action>, limit: nat)
    requires IsRun(cfg, root, states, actions) && Setup(cfg, world, root, states[0])
    requires SameStamps(Needed(cfg, root)) && Synced(states[0].cache)
    requires states[|actions|].phase.Done? && states[0].cache.image.Some?
    ensures states[|actions|].cache.image.Some?
    ensures var next := AfterOpen(limit, states[|actions|].cache.image.value);
            && (forall e | e in Needed(cfg, root) :: IsHit(next, e))
            && Misses(cfg, next, root) == 0 && Fits(cfg, root, next)
  {
    var j := CommitStep(cfg, root, states, actions);
    MarkedAtCommit(cfg, world, root, states, actions, j);
    RunSynced(cfg, world, root, states, actions, j);
    var next := AfterOpen(limit, states[|actions|].cache.image.value);
    forall e | e in Needed(cfg, root) ensures IsHit(next, e) {
      MarkedIsSaved(states[j].cache, actions[j].saving, limit, e);
    }
    NothingMissing(cfg, next, root);
  }
}
