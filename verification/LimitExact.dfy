/** For which limits the interleaving decides whether a run aborts (`src/storepaths/cache.rs:127-130`). */
module LimitExact {
  import opened Wrappers
  import opened StoreRegex
  import opened StorePaths
  import opened Scanner
  import opened Cache
  import opened Walk
  import opened PlainScan
  import opened WalkTheorems
  import opened CacheLimits
  import opened CacheRuns
  import opened Schedules

  // ---------------------------------------------------------------- why a limit does not suffice

  /** The needed entries with this inode. */
  function Sharing(cfg: Config, root: Tree, i: Ino): set<Entry> {
    set e | e in Needed(cfg, root) && e.ino == Some(i)
  }

  /** A loaded line is out of date for a needed entry, so that it has to be inserted again. */
  predicate Stale(cfg: Config, root: Tree, c: CacheState, e: Entry) {
    e in Needed(cfg, root) && e.ino.Some? && e.ino.value in c.lines && !IsHit(c, e)
  }

  /** A line that is not loaded is needed at two places. */
  ghost predicate Doubled(cfg: Config, root: Tree, c: CacheState, i: Ino) {
    i !in c.lines && Places(cfg, Sharing(cfg, root, i), root) >= 2
  }

  ghost predicate NoneDoubled(cfg: Config, root: Tree, c: CacheState, t: Tree) {
    forall i | i !in c.lines :: Places(cfg, Sharing(cfg, root, i), t) <= 1
  }

  ghost predicate NoneDoubledIn(cfg: Config, root: Tree, c: CacheState, ts: seq<Tree>) {
    forall i | i !in c.lines :: AllPlaces(cfg, Sharing(cfg, root, i), ts) <= 1
  }

  lemma {:induction false} NeededHasPlace(cfg: Config, held: set<Entry>, t: Tree, e: Entry)
    requires e in Needed(cfg, t) && e in held
    ensures Places(cfg, held, t) >= 1
    decreases t
  {
    if e !in OwnNeed(cfg, t.entry) {
      NeededHasPlaceIn(cfg, held, t.kids, e);
    }
  }

  lemma {:induction false} NeededHasPlaceIn(cfg: Config, held: set<Entry>, ts: seq<Tree>, e: Entry)
    requires e in AllNeeded(cfg, ts) && e in held
    ensures AllPlaces(cfg, held, ts) >= 1
    decreases ts
  {
    if e in Needed(cfg, ts[0]) {
      NeededHasPlace(cfg, held, ts[0], e);
    } else {
      NeededHasPlaceIn(cfg, held, ts[1..], e);
    }
  }

  /** The inodes of these entries that are not loaded. */
  function NewInodes(c: CacheState, es: set<Entry>): set<Ino> {
    Inodes(es) - c.lines.Keys
  }

  ghost predicate OneEach(c: CacheState, es: set<Entry>) {
    forall e, e' | e in es && e' in es && e.ino.Some? && e.ino == e'.ino && e.ino.value !in c.lines :: e == e'
  }

  lemma UnionSize<T>(a: set<T>, b: set<T>)
    requires a !! b
    ensures |a + b| == |a| + |b|
  {}

  lemma JoinNew(c: CacheState, a: set<Entry>, b: set<Entry>)
    requires OneEach(c, a) && OneEach(c, b) && NewInodes(c, a) !! NewInodes(c, b)
    ensures OneEach(c, a + b) && |NewInodes(c, a + b)| == |NewInodes(c, a)| + |NewInodes(c, b)|
  {
    assert NewInodes(c, a + b) == NewInodes(c, a) + NewInodes(c, b);
    UnionSize(NewInodes(c, a), NewInodes(c, b));
    forall e, e' | e in a + b && e' in a + b && e.ino.Some? && e.ino == e'.ino && e.ino.value !in c.lines
      ensures e == e'
    {
      assert e in a ==> e.ino.value in NewInodes(c, a);
      assert e in b ==> e.ino.value in NewInodes(c, b);
      assert e' in a ==> e.ino.value in NewInodes(c, a);
      assert e' in b ==> e.ino.value in NewInodes(c, b);
    }
  }

  lemma OwnIsNew(cfg: Config, root: Tree, c: CacheState, e: Entry)
    requires AllHit(cfg, root, c) && OwnNeed(cfg, e) <= Needed(cfg, root)
    ensures |NewInodes(c, OwnNeed(cfg, e))| == OneMiss(cfg, c, e) && OneEach(c, OwnNeed(cfg, e))
  {
    if NeedsLine(cfg, e) {
      assert e in OwnNeed(cfg, e);
      assert NewInodes(c, {e}) == if e.ino.value in c.lines then {} else {e.ino.value};
    } else {
      assert NewInodes(c, {}) == {};
    }
  }

  lemma OwnApart(cfg: Config, root: Tree, c: CacheState, e: Entry, kids: seq<Tree>)
    requires NoneDoubled(cfg, root, c, Item(e, kids)) && GoesOn(cfg, e)
    requires OwnNeed(cfg, e) <= Needed(cfg, root) && AllNeeded(cfg, kids) <= Needed(cfg, root)
    ensures NewInodes(c, OwnNeed(cfg, e)) !! NewInodes(c, AllNeeded(cfg, kids))
    ensures NoneDoubledIn(cfg, root, c, kids)
  {
    forall i | i !in c.lines ensures AllPlaces(cfg, Sharing(cfg, root, i), kids) <= 1 {
      assert Places(cfg, Sharing(cfg, root, i), Item(e, kids)) <= 1;
    }
    forall i | i in NewInodes(c, OwnNeed(cfg, e)) ensures i !in NewInodes(c, AllNeeded(cfg, kids)) {
      assert e in Sharing(cfg, root, i) && Places(cfg, Sharing(cfg, root, i), Item(e, kids)) <= 1;
      forall e' | e' in AllNeeded(cfg, kids) ensures e' !in Sharing(cfg, root, i) {
        if e' in Sharing(cfg, root, i) {
          NeededHasPlaceIn(cfg, Sharing(cfg, root, i), kids, e');
        }
      }
    }
  }

  /** The misses are the new inodes. */
  ghost predicate CountsNew(cfg: Config, c: CacheState, t: Tree) {
    Misses(cfg, c, t) == |NewInodes(c, Needed(cfg, t))| && OneEach(c, Needed(cfg, t))
  }

  ghost predicate CountsNewIn(cfg: Config, c: CacheState, ts: seq<Tree>) {
    AllMisses(cfg, c, ts) == |NewInodes(c, AllNeeded(cfg, ts))| && OneEach(c, AllNeeded(cfg, ts))
  }

  lemma ItemCountsNew(cfg: Config, root: Tree, c: CacheState, e: Entry, kids: seq<Tree>)
    requires AllHit(cfg, root, c) && NoneDoubled(cfg, root, c, Item(e, kids)) && GoesOn(cfg, e)
    requires OwnNeed(cfg, e) <= Needed(cfg, root) && AllNeeded(cfg, kids) <= Needed(cfg, root)
    requires CountsNewIn(cfg, c, kids)
    ensures CountsNew(cfg, c, Item(e, kids))
  {
    var own, below := OwnNeed(cfg, e), AllNeeded(cfg, kids);
    assert Needed(cfg, Item(e, kids)) == own + below;
    assert NewInodes(c, own) !! NewInodes(c, below) by {
      OwnApart(cfg, root, c, e, kids);
    }
    OwnIsNew(cfg, root, c, e);
    JoinNew(c, own, below);
  }

  /** If nothing is stale and nothing doubled, the misses are the new inodes. */
  lemma {:induction false} MissesAreNew(cfg: Config, root: Tree, c: CacheState, t: Tree)
    requires AllHit(cfg, root, c) && NoneDoubled(cfg, root, c, t) && Needed(cfg, t) <= Needed(cfg, root)
    ensures CountsNew(cfg, c, t)
    decreases t
  {
    if t.Item? && GoesOn(cfg, t.entry) {
      OwnApart(cfg, root, c, t.entry, t.kids);
      MissesAreNewIn(cfg, root, c, t.kids);
      ItemCountsNew(cfg, root, c, t.entry, t.kids);
    } else {
      assert NewInodes(c, {}) == {};
    }
  }

  lemma FirstApart(cfg: Config, root: Tree, c: CacheState, ts: seq<Tree>)
    requires ts != [] && NoneDoubledIn(cfg, root, c, ts) && AllNeeded(cfg, ts) <= Needed(cfg, root)
    ensures NewInodes(c, Needed(cfg, ts[0])) !! NewInodes(c, AllNeeded(cfg, ts[1..]))
    ensures NoneDoubled(cfg, root, c, ts[0]) && NoneDoubledIn(cfg, root, c, ts[1..])
  {
    forall i | i !in c.lines
      ensures Places(cfg, Sharing(cfg, root, i), ts[0]) + AllPlaces(cfg, Sharing(cfg, root, i), ts[1..]) <= 1
    {
      assert AllPlaces(cfg, Sharing(cfg, root, i), ts) <= 1;
    }
    forall i | i in NewInodes(c, Needed(cfg, ts[0])) ensures i !in NewInodes(c, AllNeeded(cfg, ts[1..])) {
      var e :| e in Needed(cfg, ts[0]) && e.ino == Some(i);
      NeededHasPlace(cfg, Sharing(cfg, root, i), ts[0], e);
      forall e' | e' in AllNeeded(cfg, ts[1..]) ensures e' !in Sharing(cfg, root, i) {
        if e' in Sharing(cfg, root, i) {
          NeededHasPlaceIn(cfg, Sharing(cfg, root, i), ts[1..], e');
        }
      }
    }
  }

  lemma {:induction false} MissesAreNewIn(cfg: Config, root: Tree, c: CacheState, ts: seq<Tree>)
    requires AllHit(cfg, root, c) && NoneDoubledIn(cfg, root, c, ts) && AllNeeded(cfg, ts) <= Needed(cfg, root)
    ensures CountsNewIn(cfg, c, ts)
    decreases ts
  {
    if ts == [] {
      assert NewInodes(c, {}) == {};
    } else {
      FirstApart(cfg, root, c, ts);
      MissesAreNew(cfg, root, c, ts[0]);
      MissesAreNewIn(cfg, root, c, ts[1..]);
      JoinNew(c, Needed(cfg, ts[0]), AllNeeded(cfg, ts[1..]));
    }
  }

  lemma {:induction false} NeededNeeds(cfg: Config, t: Tree, e: Entry)
    requires e in Needed(cfg, t)
    ensures NeedsLine(cfg, e)
    decreases t
  {
    if e !in OwnNeed(cfg, t.entry) {
      NeededNeedsIn(cfg, t.kids, e);
    }
  }

  lemma {:induction false} NeededNeedsIn(cfg: Config, ts: seq<Tree>, e: Entry)
    requires e in AllNeeded(cfg, ts)
    ensures NeedsLine(cfg, e)
    decreases ts
  {
    if e in Needed(cfg, ts[0]) {
      NeededNeeds(cfg, ts[0], e);
    } else {
      NeededNeedsIn(cfg, ts[1..], e);
    }
  }

  lemma OneEachSameStamps(cfg: Config, root: Tree, c: CacheState)
    requires AllHit(cfg, root, c) && OneEach(c, Needed(cfg, root))
    ensures SameStamps(Needed(cfg, root))
  {
    var es := Needed(cfg, root);
    forall e, e' | e in es && e' in es && e.ino == e'.ino ensures SameFile(e, e') {
      NeededNeeds(cfg, root, e);
      NeededNeeds(cfg, root, e');
    }
  }

  lemma LinesAreNew(cfg: Config, root: Tree, c: CacheState)
    ensures |Lines(cfg, root, c)| == |c.lines| + |NewInodes(c, Needed(cfg, root))|
  {
    UnionSize(c.lines.Keys, NewInodes(c, Needed(cfg, root)));
    assert Lines(cfg, root, c) == c.lines.Keys + NewInodes(c, Needed(cfg, root));
    assert |c.lines| == |c.lines.Keys|;
  }

  lemma OtherwiseFits(cfg: Config, root: Tree, c: CacheState)
    requires AllHit(cfg, root, c) && NoneDoubled(cfg, root, c, root)
    requires c.limit > 0 && !Overflowing(cfg, root, c)
    ensures Fits(cfg, root, c)
  {
    MissesAreNew(cfg, root, c, root);
    OneEachSameStamps(cfg, root, c);
    LinesAreNew(cfg, root, c);
  }

  /** A limit that neither fits nor overflows has a stale or a doubled line. */
  lemma StaleOrDoubled(cfg: Config, root: Tree, c: CacheState)
    requires !Roomy(cfg, root, c) && !Overflowing(cfg, root, c) && !Fits(cfg, root, c)
    ensures (exists e :: Stale(cfg, root, c, e)) || exists i :: Doubled(cfg, root, c, i)
  {
    if (forall e :: !Stale(cfg, root, c, e)) && forall i :: !Doubled(cfg, root, c, i) {
      forall e | e in Needed(cfg, root) && e.ino.Some? && e.ino.value in c.lines ensures IsHit(c, e) {
        assert !Stale(cfg, root, c, e);
      }
      forall i | i !in c.lines ensures Places(cfg, Sharing(cfg, root, i), root) <= 1 {
        assert !Doubled(cfg, root, c, i);
      }
      OtherwiseFits(cfg, root, c);
    }
  }

  // ---------------------------------------------------------------- holding back one inode

  /** What is known of the lines with this inode is what was known at the start. */
  predicate SameLine(start: CacheState, c: CacheState, i: Ino) {
    && (i in c.lines <==> i in start.lines)
    && (i in c.lines ==> Strip(c.lines)[i] == Strip(start.lines)[i])
  }

  lemma SameLineSameHit(start: CacheState, c: CacheState, e: Entry)
    requires e.ino.Some? && SameLine(start, c, e.ino.value)
    ensures IsHit(c, e) <==> IsHit(start, e)
  {
    assert Strip(c.lines).Keys == c.lines.Keys && Strip(start.lines).Keys == start.lines.Keys;
  }

  lemma VisitKeepsLine(cfg: Config, start: CacheState, c: CacheState, e: Entry, i: Ino)
    requires SameLine(start, c, i) && !(NeedsLine(cfg, e) && e.ino == Some(i))
    ensures SameLine(start, AfterVisit(cfg, c, e), i)
  {}

  lemma LineKept(cfg: Config, root: Tree, start: CacheState, i: Ino)
    ensures Keeps(cfg, root, Sharing(cfg, root, i), c => SameLine(start, c, i))
  {
    var keep := (c: CacheState) => SameLine(start, c, i);
    forall c, e | keep(c) && e !in Sharing(cfg, root, i) && (NeedsLine(cfg, e) ==> e in Needed(cfg, root))
      ensures keep(AfterVisit(cfg, c, e))
    {
      VisitKeepsLine(cfg, start, c, e, i);
    }
  }

  /** Everything has been visited but the needed entries with this inode, and nothing is missing but their line. */
  ghost predicate Poised(cfg: Config, root: Tree, start: State, i: Ino, s: State) {
    && Resting(s) && |s.workers| == |start.workers| && s.cache.limit == start.cache.limit
    && SameLine(start.cache, s.cache, i) && Lines(cfg, root, start.cache) <= s.cache.lines.Keys + {i}
    && (forall k | 0 <= k < |s.pending| :: IsLeaf(s.pending[k], Sharing(cfg, root, i)))
    && |s.pending| == Places(cfg, Sharing(cfg, root, i), root)
    && forall e | e in Sharing(cfg, root, i) :: Item(e, []) in s.pending
  }

  /** Nobody is at work, so what is outstanding is what is pending. */
  lemma RestingOutstanding(cfg: Config, s: State, e: Entry)
    requires Resting(s)
    ensures Outstanding(cfg, s, e) <==> e in AllNeeded(cfg, s.pending)
  {}

  lemma OthersHaveLines(cfg: Config, world: set<Entry>, root: Tree, states: seq<State>, actions: seq<Action>, i: Ino)
    requires IsRun(cfg, root, states, actions) && Setup(cfg, world, root, states[0]) && Resting(states[|actions|])
    requires forall e | e in AllNeeded(cfg, states[|actions|].pending) :: e in Sharing(cfg, root, i)
    ensures Lines(cfg, root, states[0].cache) <= states[|actions|].cache.lines.Keys + {i}
    ensures states[|actions|].cache.limit == states[0].cache.limit
  {
    var s := states[|actions|];
    RunInvariant(cfg, world, root, states, actions, |actions|);
    RunTracked(cfg, world, root, states, actions, |actions|);
    forall j | j in Lines(cfg, root, states[0].cache) ensures j in s.cache.lines.Keys + {i} {
      if j !in states[0].cache.lines {
        var e :| e in Needed(cfg, root) && e.ino == Some(j);
        RestingOutstanding(cfg, s, e);
      }
    }
  }

  lemma Poise(cfg: Config, world: set<Entry>, root: Tree, start: State, i: Ino)
    returns (states: seq<State>, actions: seq<Action>)
    requires Initial(root, start) && Setup(cfg, world, root, start) && FoldersOnly(root)
    ensures IsRun(cfg, root, states, actions) && states[0] == start
    ensures states[|actions|].abort || Poised(cfg, root, start, i, states[|actions|])
  {
    var held := Sharing(cfg, root, i);
    var keep := (c: CacheState) => SameLine(start.cache, c, i);
    LineKept(cfg, root, start.cache, i);
    states, actions := VisitOthers(cfg, world, root, [start], [], held, keep);
    var s := states[|actions|];
    if !s.abort {
      assert AllFolders(start.pending);
      assert start.pending == [root] && AllNeeded(cfg, [root]) == Needed(cfg, root);
      assert AllPlaces(cfg, held, [root]) == Places(cfg, held, root);
      forall e | e in held ensures NeedsLine(cfg, e) {
        NeededNeeds(cfg, root, e);
      }
      HeldLeaves(cfg, held, s.pending);
      OthersHaveLines(cfg, world, root, states, actions, i);
      forall e | e in held ensures Item(e, []) in s.pending {
        assert e in AllNeeded(cfg, start.pending) * held;
      }
    }
  }

  // ---------------------------------------------------------------- runs that find no room

  /** Some run from here aborts. */
  ghost predicate CanAbort(cfg: Config, root: Tree, start: State) {
    exists states: seq<State>, actions: seq<Action> ::
      IsRun(cfg, root, states, actions) && states[0] == start
      && Final(states[|actions|]) && states[|actions|].phase.Aborted?
  }

  lemma AbortedRun(cfg: Config, world: set<Entry>, root: Tree, states: seq<State>, actions: seq<Action>)
    requires IsRun(cfg, root, states, actions) && Setup(cfg, world, root, states[0]) && states[|actions|].abort
    ensures CanAbort(cfg, root, states[0])
  {
    var states', actions' := FinishAborted(cfg, world, root, states, actions);
  }

  /** Once the last line is in, the cache is full. */
  lemma AllLinesFill(cfg: Config, root: Tree, start: CacheState, c: CacheState)
    requires !Roomy(cfg, root, start) && c.limit == start.limit && Lines(cfg, root, start) <= c.lines.Keys
    ensures Full(c)
  {
    SubsetSize(Lines(cfg, root, start), c.lines.Keys);
    assert |c.lines| == |c.lines.Keys|;
  }

  lemma NoRoomCanAbort(cfg: Config, world: set<Entry>, root: Tree, states: seq<State>, actions: seq<Action>, e: Entry)
    requires IsRun(cfg, root, states, actions) && Setup(cfg, world, root, states[0])
    requires var s := states[|actions|]; Resting(s) && Item(e, []) in s.pending && NoRoom(cfg, s.cache, e)
    ensures CanAbort(cfg, root, states[0])
  {
    var s := states[|actions|];
    var k :| 0 <= k < |s.pending| && s.pending[k] == Item(e, []);
    var states', actions' := VisitOne(cfg, world, root, states, actions, k);
    AbortedRun(cfg, world, root, states', actions');
  }

  /** A line that is out of date is inserted again after all others: there is no room for it. */
  lemma StaleCanAbort(cfg: Config, world: set<Entry>, root: Tree, start: State, e: Entry)
    requires Initial(root, start) && Setup(cfg, world, root, start) && FoldersOnly(root)
    requires !Roomy(cfg, root, start.cache) && Stale(cfg, root, start.cache, e)
    ensures CanAbort(cfg, root, start)
  {
    var i := e.ino.value;
    var states, actions := Poise(cfg, world, root, start, i);
    var s := states[|actions|];
    if s.abort {
      AbortedRun(cfg, world, root, states, actions);
    } else {
      NeededNeeds(cfg, root, e);
      SameLineSameHit(start.cache, s.cache, e);
      AllLinesFill(cfg, root, start.cache, s.cache);
      assert e in Sharing(cfg, root, i);
      NoRoomCanAbort(cfg, world, root, states, actions, e);
    }
  }

  lemma InsertedLine(cfg: Config, c: CacheState, e: Entry)
    requires NeedsLine(cfg, e) && !IsHit(c, e) && !Full(c)
    ensures var c' := AfterVisit(cfg, c, e);
            c'.lines.Keys == c.lines.Keys + {e.ino.value} && c'.limit == c.limit && IsHit(c', e)
  {}

  /** A scan that was begun before the cache was full ends with a line too many. */
  lemma LateScanAborts(cfg: Config, c: CacheState, e: Entry)
    requires NeedsLine(cfg, e) && Full(c)
    ensures Alone(cfg, c, Scanning(e, [])).abort
  {
    var sp := StorePaths(e, cfg.scan(e).value, false);
    assert Judged(cfg, c, sp, []) == Alone(cfg, c, Checking(sp, []));
  }

  lemma BeginScan(cfg: Config, s: State, e: Entry)
    requires Resting(s) && |s.workers| >= 2 && |s.pending| >= 2 && s.pending[1] == Item(e, [])
    requires NeedsLine(cfg, e) && !IsHit(s.cache, e)
    ensures Enabled(cfg, s, Take(1, 1)) && Enabled(cfg, Next(cfg, s, Take(1, 1)), Step(1))
    ensures var s' := Next(cfg, Next(cfg, s, Take(1, 1)), Step(1));
            && s'.workers == s.workers[1 := Scanning(e, [])] && s'.pending == Without(s.pending, 1)
            && s'.cache == s.cache && s'.phase.Walking? && !s'.quit && !s'.abort
  {
    assert s.workers[1 := Entered(Item(e, []))][1 := Scanning(e, [])] == s.workers[1 := Scanning(e, [])];
    assert Without(s.pending, 1) + [] == Without(s.pending, 1);
  }

  /** One worker has begun to scan an entry, another one is about to insert the same line. */
  ghost predicate Racing(cfg: Config, root: Tree, start: CacheState, s: State, e: Entry, e': Entry) {
    && s.phase.Walking? && !s.quit && |s.workers| >= 2 && s.workers[0].Idle? && s.workers[1] == Scanning(e', [])
    && |s.pending| >= 1 && s.pending[0] == Item(e, [])
    && NeedsLine(cfg, e) && NeedsLine(cfg, e') && !IsHit(s.cache, e) && !Full(s.cache)
    && s.cache.limit == start.limit && Lines(cfg, root, start) <= s.cache.lines.Keys + {e.ino.value}
  }

  lemma Overtaken(cfg: Config, world: set<Entry>, root: Tree, start: CacheState, s: State, e: Entry, e': Entry)
    requires StampsDetermine(world, cfg.scan) && SoundCache(cfg, world, s.cache) && e in world
    requires !Roomy(cfg, root, start) && Racing(cfg, root, start, s, e, e')
    ensures var s' := Perform(Next(cfg, s, Take(0, 0)), 0, Alone(cfg, s.cache, Entered(Item(e, []))));
            s'.phase.Walking? && s'.workers[1] == Scanning(e', []) && Full(s'.cache)
  {
    AloneIsVisit(cfg, world, s.cache, e, []);
    InsertedLine(cfg, s.cache, e);
    AllLinesFill(cfg, root, start, AfterVisit(cfg, s.cache, e));
  }

  lemma Overtake(cfg: Config, world: set<Entry>, root: Tree, states: seq<State>, actions: seq<Action>,
                 start: CacheState, e: Entry, e': Entry)
    requires IsRun(cfg, root, states, actions) && Setup(cfg, world, root, states[0]) && e in world
    requires !Roomy(cfg, root, start) && Racing(cfg, root, start, states[|actions|], e, e')
    ensures CanAbort(cfg, root, states[0])
  {
    var s := states[|actions|];
    RunInvariant(cfg, world, root, states, actions, |actions|);
    var states', actions' := TakeAlone(cfg, root, states, actions, 0, 0);
    Overtaken(cfg, world, root, start, s, e, e');
    LateScanAborts(cfg, states'[|actions'|].cache, e');
    states', actions' := AloneIsRun(cfg, root, states', actions', 1);
    AbortedRun(cfg, world, root, states', actions');
  }

  /** Two places that need the same line, and two workers that come by them at the same time. */
  lemma DoubledCanAbort(cfg: Config, world: set<Entry>, root: Tree, start: State, i: Ino)
    requires Initial(root, start) && Setup(cfg, world, root, start) && FoldersOnly(root)
    requires |start.workers| >= 2 && !Roomy(cfg, root, start.cache) && Doubled(cfg, root, start.cache, i)
    ensures CanAbort(cfg, root, start)
  {
    var states, actions := Poise(cfg, world, root, start, i);
    var s := states[|actions|];
    if s.abort {
      AbortedRun(cfg, world, root, states, actions);
    } else {
      assert IsLeaf(s.pending[0], Sharing(cfg, root, i)) && IsLeaf(s.pending[1], Sharing(cfg, root, i));
      var e, e' := s.pending[0].entry, s.pending[1].entry;
      NeededNeeds(cfg, root, e);
      NeededNeeds(cfg, root, e');
      if Full(s.cache) {
        assert s.pending[0] == Item(e, []);
        NoRoomCanAbort(cfg, world, root, states, actions, e);
      } else {
        PendingIsNeeded(cfg, world, root, states, actions, 0);
        BeginScan(cfg, s, e');
        states, actions := Extend(cfg, root, states, actions, Take(1, 1));
        states, actions := Extend(cfg, root, states, actions, Step(1));
        Overtake(cfg, world, root, states, actions, start.cache, e, e');
      }
    }
  }

  lemma OtherStampMisses(cfg: Config, c: CacheState, e: Entry, e': Entry)
    requires NeedsLine(cfg, e) && NeedsLine(cfg, e') && e.ino == e'.ino && !SameFile(e, e')
    requires !IsHit(c, e) && !Full(c)
    ensures !IsHit(AfterVisit(cfg, c, e), e')
  {}

  /** With one entry in, there is no room for another one with the same inode and a different stamp. */
  lemma SecondStamp(cfg: Config, world: set<Entry>, root: Tree, states: seq<State>, actions: seq<Action>,
                    start: State, e: Entry, e': Entry)
    requires IsRun(cfg, root, states, actions) && Setup(cfg, world, root, states[0])
    requires NeedsLine(cfg, e) && NeedsLine(cfg, e') && e.ino == e'.ino && !SameFile(e, e') && e != e'
    requires !Roomy(cfg, root, start.cache) && Poised(cfg, root, start, e.ino.value, states[|actions|])
    requires !IsHit(states[|actions|].cache, e)
    requires var s := states[|actions|]; Item(e, []) in s.pending && Item(e', []) in s.pending
    ensures CanAbort(cfg, root, states[0])
  {
    var s := states[|actions|];
    var k :| 0 <= k < |s.pending| && s.pending[k] == Item(e, []);
    var states', actions' := VisitOne(cfg, world, root, states, actions, k);
    var s' := states'[|actions'|];
    if s'.abort {
      AbortedRun(cfg, world, root, states', actions');
    } else {
      InsertedLine(cfg, s.cache, e);
      OtherStampMisses(cfg, s.cache, e, e');
      AllLinesFill(cfg, root, start.cache, s'.cache);
      assert Item(e', []) in Without(s.pending, k);
      NoRoomCanAbort(cfg, world, root, states', actions', e');
    }
  }

  /** Two entries that share an inode but not its stamp replace each other's line. */
  lemma MixedCanAbort(cfg: Config, world: set<Entry>, root: Tree, start: State, e: Entry, e': Entry)
    requires Initial(root, start) && Setup(cfg, world, root, start) && FoldersOnly(root)
    requires !Roomy(cfg, root, start.cache) && e in Needed(cfg, root) && e' in Needed(cfg, root)
    requires e.ino == e'.ino && !SameFile(e, e') && e.ino.Some? && e.ino.value !in start.cache.lines
    ensures CanAbort(cfg, root, start)
  {
    var i := e.ino.value;
    NeededNeeds(cfg, root, e);
    NeededNeeds(cfg, root, e');
    var states, actions := Poise(cfg, world, root, start, i);
    if states[|actions|].abort {
      AbortedRun(cfg, world, root, states, actions);
    } else {
      assert e in Sharing(cfg, root, i) && e' in Sharing(cfg, root, i);
      SecondStamp(cfg, world, root, states, actions, start, e, e');
    }
  }

  // ---------------------------------------------------------------- every run

  /** All lines that are needed are loaded, and none is out of date. */
  lemma LoadedFits(cfg: Config, root: Tree, c: CacheState)
    requires AllHit(cfg, root, c) && Inodes(Needed(cfg, root)) <= c.lines.Keys
    ensures Fits(cfg, root, c)
  {
    forall e | e in Needed(cfg, root) ensures IsHit(c, e) {
      NeededNeeds(cfg, root, e);
      assert e.ino.value in Inodes(Needed(cfg, root));
    }
    NothingMissing(cfg, c, root);
  }

  /** What is wrong with a limit for a single worker, if no line is out of date. */
  lemma MixedStamps(cfg: Config, root: Tree, c: CacheState) returns (e: Entry, e': Entry)
    requires !Roomy(cfg, root, c) && !Overflowing(cfg, root, c) && !Fits(cfg, root, c) && !FitsInTurn(cfg, root, c)
    requires forall e :: !Stale(cfg, root, c, e)
    ensures e in Needed(cfg, root) && e' in Needed(cfg, root) && e.ino == e'.ino && !SameFile(e, e')
    ensures e.ino.Some? && e.ino.value !in c.lines
  {
    forall e | e in Needed(cfg, root) && e.ino.Some? && e.ino.value in c.lines ensures IsHit(c, e) {
      assert !Stale(cfg, root, c, e);
    }
    if |Lines(cfg, root, c)| > c.limit {
      LinesAreNew(cfg, root, c);
      forall i | i in Inodes(Needed(cfg, root)) ensures i in c.lines.Keys {
        assert i !in NewInodes(c, Needed(cfg, root));
      }
      LoadedFits(cfg, root, c);
    }
    e, e' :| e in Needed(cfg, root) && e' in Needed(cfg, root) && e.ino == e'.ino && !SameFile(e, e');
    NeededNeeds(cfg, root, e);
    NeededNeeds(cfg, root, e');
  }

  /** If the limit does not suffice, some run aborts although the plain scan does not give up. */
  lemma TooSmallCanAbort(cfg: Config, world: set<Entry>, root: Tree, start: State)
    requires Initial(root, start) && Setup(cfg, world, root, start) && FoldersOnly(root)
    requires !LimitSuffices(cfg, root, start)
    ensures CanAbort(cfg, root, start)
  {
    var c := start.cache;
    if Overflowing(cfg, root, c) {
      var states, actions := RunsFinish(cfg, root, [start], []);
      OverflowingRunAborts(cfg, world, root, states, actions);
    } else {
      StaleOrDoubled(cfg, root, c);
      if e :| Stale(cfg, root, c, e) {
        StaleCanAbort(cfg, world, root, start, e);
      } else if |start.workers| >= 2 {
        var i :| Doubled(cfg, root, c, i);
        DoubledCanAbort(cfg, world, root, start, i);
      } else {
        var e, e' := MixedStamps(cfg, root, c);
        MixedCanAbort(cfg, world, root, start, e, e');
      }
    }
  }

  /** All runs from here abort exactly if the plain scan gives up. */
  ghost predicate AlwaysPlain(cfg: Config, root: Tree, start: State) {
    forall states: seq<State>, actions: seq<Action> |
      IsRun(cfg, root, states, actions) && states[0] == start && Final(states[|actions|]) ::
      states[|actions|].phase.Aborted? <==> GivesUp(cfg, root)
  }

  /** Exactly when "a run aborts if and only if the plain scan gives up" holds for every interleaving. */
  lemma EveryRunPlainIff(cfg: Config, world: set<Entry>, root: Tree, start: State)
    requires Initial(root, start) && Setup(cfg, world, root, start) && FoldersOnly(root)
    ensures AlwaysPlain(cfg, root, start) <==> GivesUp(cfg, root) || LimitSuffices(cfg, root, start)
  {
    if GivesUp(cfg, root) || LimitSuffices(cfg, root, start) {
      forall states: seq<State>, actions: seq<Action> |
        IsRun(cfg, root, states, actions) && states[0] == start && Final(states[|actions|])
        ensures states[|actions|].phase.Aborted? <==> GivesUp(cfg, root)
      {
        if GivesUp(cfg, root) {
          RunAbortsIff(cfg, world, root, states, actions);
        } else {
          RunAbortsExactly(cfg, world, root, states, actions);
        }
      }
    } else {
      TooSmallCanAbort(cfg, world, root, start);
    }
  }

  // ---------------------------------------------------------------- some run

  /** Some run from here does not abort. */
  ghost predicate CanSucceed(cfg: Config, root: Tree, start: State) {
    exists states: seq<State>, actions: seq<Action> ::
      IsRun(cfg, root, states, actions) && states[0] == start
      && Final(states[|actions|]) && !states[|actions|].phase.Aborted?
  }

  /** No order of the visits can get all needed lines into the cache. */
  ghost predicate Hopeless(cfg: Config, root: Tree, c: CacheState) {
    Overflowing(cfg, root, c) || (Full(c) && exists e | e in Needed(cfg, root) :: !IsHit(c, e))
  }

  /** The needed entries whose lines are not loaded. */
  function Unloaded(cfg: Config, root: Tree, c: CacheState): set<Entry> {
    set e | e in Needed(cfg, root) && e.ino.Some? && e.ino.value !in c.lines
  }

  predicate SameKeys(start: CacheState, c: CacheState) {
    c.lines.Keys == start.lines.Keys && c.limit == start.limit
  }

  lemma KeysKept(cfg: Config, root: Tree, start: CacheState)
    ensures Keeps(cfg, root, Unloaded(cfg, root, start), c => SameKeys(start, c))
  {
    var keep := (c: CacheState) => SameKeys(start, c);
    forall c, e | keep(c) && e !in Unloaded(cfg, root, start) && (NeedsLine(cfg, e) ==> e in Needed(cfg, root))
                  && !NoRoom(cfg, c, e)
      ensures keep(AfterVisit(cfg, c, e))
    {}
  }

  /** All lines are needed or loaded ones, and none is out of date. */
  ghost predicate InOrder(cfg: Config, root: Tree, start: CacheState, c: CacheState) {
    AllHit(cfg, root, c) && c.lines.Keys <= Lines(cfg, root, start) && c.limit == start.limit
  }

  lemma VisitInOrder(cfg: Config, root: Tree, start: CacheState, c: CacheState, e: Entry)
    requires SameStamps(Needed(cfg, root)) && InOrder(cfg, root, start, c) && !NoRoom(cfg, c, e)
    requires NeedsLine(cfg, e) ==> e in Needed(cfg, root)
    ensures InOrder(cfg, root, start, AfterVisit(cfg, c, e))
  {
    var c' := AfterVisit(cfg, c, e);
    if NeedsLine(cfg, e) && !IsHit(c, e) {
      InsertedLine(cfg, c, e);
    }
    forall e' | e' in Needed(cfg, root) && e'.ino.Some? && e'.ino.value in c'.lines ensures IsHit(c', e') {
      if NeedsLine(cfg, e) && e.ino == e'.ino {
        assert SameFile(e, e');
      }
    }
  }

  lemma OrderKept(cfg: Config, root: Tree, start: CacheState)
    requires SameStamps(Needed(cfg, root))
    ensures Keeps(cfg, root, {}, c => InOrder(cfg, root, start, c))
  {
    var keep := (c: CacheState) => InOrder(cfg, root, start, c);
    forall c, e | keep(c) && (NeedsLine(cfg, e) ==> e in Needed(cfg, root)) && !NoRoom(cfg, c, e)
      ensures keep(AfterVisit(cfg, c, e))
    {
      VisitInOrder(cfg, root, start, c, e);
    }
  }

  /** First, everything is visited whose line is loaded: no line is out of date any more. */
  lemma Refresh(cfg: Config, world: set<Entry>, root: Tree, start: State)
    returns (states: seq<State>, actions: seq<Action>)
    requires Initial(root, start) && Setup(cfg, world, root, start) && FoldersOnly(root) && !GivesUp(cfg, root)
    requires SameStamps(Needed(cfg, root)) && !Full(start.cache)
    ensures IsRun(cfg, root, states, actions) && states[0] == start && Resting(states[|actions|])
    ensures InOrder(cfg, root, start.cache, states[|actions|].cache)
  {
    var c, held := start.cache, Unloaded(cfg, root, start.cache);
    var keep := (c': CacheState) => SameKeys(c, c');
    KeysKept(cfg, root, c);
    states, actions := VisitOthers(cfg, world, root, [start], [], held, keep);
    var s := states[|actions|];
    assert !Cramped(cfg, root, held, keep) by {
      assert |c.lines| == |c.lines.Keys|;
      forall c' | keep(c') ensures !Full(c') {
        assert |c'.lines| == |c'.lines.Keys|;
      }
    }
    RunWarm(cfg, world, root, states, actions, |actions|);
    assert AllFolders(start.pending);
    forall e | e in held ensures NeedsLine(cfg, e) {
      NeededNeeds(cfg, root, e);
    }
    HeldLeaves(cfg, held, s.pending);
    forall e | e in Needed(cfg, root) && e.ino.Some? && e.ino.value in s.cache.lines ensures IsHit(s.cache, e) {
      RestingOutstanding(cfg, s, e);
      assert Outstanding(cfg, s, e) || Marked(s.cache, e);
    }
  }

  /** Then the rest, one after the other: every line is inserted once, and there is room for it. */
  lemma VisitRest(cfg: Config, world: set<Entry>, root: Tree, states: seq<State>, actions: seq<Action>)
    requires IsRun(cfg, root, states, actions) && Setup(cfg, world, root, states[0]) && !GivesUp(cfg, root)
    requires Resting(states[|actions|]) && InOrder(cfg, root, states[0].cache, states[|actions|].cache)
    requires SameStamps(Needed(cfg, root)) && |Lines(cfg, root, states[0].cache)| <= states[0].cache.limit
    ensures CanSucceed(cfg, root, states[0])
  {
    var start := states[0].cache;
    var keep := (c: CacheState) => InOrder(cfg, root, start, c);
    OrderKept(cfg, root, start);
    var states', actions' := VisitOthers(cfg, world, root, states, actions, {}, keep);
    assert !Cramped(cfg, root, {}, keep) by {
      forall c, e | keep(c) && e in Needed(cfg, root) && !IsHit(c, e) ensures !Full(c) {
        NeededNeeds(cfg, root, e);
        MoreLines(cfg, root, start, c, e);
      }
    }
    var s := states'[|actions'|];
    assert s.pending == [] by {
      assert forall k | 0 <= k < |s.pending| :: Held(s.pending[k], {});
    }
    states', actions' := FinishQuiet(cfg, root, states', actions');
  }

  /** Where entries that share an inode share its stamp: exactly when some run succeeds. */
  lemma SomeRunSucceedsIff(cfg: Config, world: set<Entry>, root: Tree, start: State)
    requires Initial(root, start) && Setup(cfg, world, root, start) && FoldersOnly(root)
    requires SameStamps(Needed(cfg, root))
    ensures CanSucceed(cfg, root, start) <==> !GivesUp(cfg, root) && !Hopeless(cfg, root, start.cache)
  {
    var c := start.cache;
    if states: seq<State>, actions: seq<Action> :|
      IsRun(cfg, root, states, actions) && states[0] == start
      && Final(states[|actions|]) && !states[|actions|].phase.Aborted?
    {
      RunAbortsIff(cfg, world, root, states, actions);
      if Overflowing(cfg, root, c) {
        OverflowingRunAborts(cfg, world, root, states, actions);
      }
      if Full(c) {
        FullRunAbortsIff(cfg, world, root, states, actions);
      }
    }
    if !GivesUp(cfg, root) && !Hopeless(cfg, root, c) {
      if LimitSuffices(cfg, root, start) {
        var states, actions := RunsFinish(cfg, root, [start], []);
        RunAbortsExactly(cfg, world, root, states, actions);
      } else if Full(c) {
        NothingMissing(cfg, c, root);
      } else {
        var states, actions := Refresh(cfg, world, root, start);
        VisitRest(cfg, world, root, states, actions);
      }
    }
  }

  /** Exactly when the interleaving decides whether a run aborts. */
  lemma InterleavingDecidesIff(cfg: Config, world: set<Entry>, root: Tree, start: State)
    requires Initial(root, start) && Setup(cfg, world, root, start) && FoldersOnly(root)
    requires SameStamps(Needed(cfg, root))
    ensures CanSucceed(cfg, root, start) && CanAbort(cfg, root, start) <==>
            !GivesUp(cfg, root) && !LimitSuffices(cfg, root, start) && !Hopeless(cfg, root, start.cache)
  {
    EveryRunPlainIff(cfg, world, root, start);
    SomeRunSucceedsIff(cfg, world, root, start);
  }

  // ---------------------------------------------------------------- an example: two names for one file

  function HardLink(name: Byte): Entry {
    Entry(Absolute([[name]]), Some(1), Some(Meta(0, 10, 11)), NoError, Regular([], None))
  }

  function StartDirectory(): Entry {
    Entry(Absolute([]), Some(2), Some(Meta(0, 10, 11)), NoError, Directory)
  }

  function HardLinks(): seq<Tree> {
    [Item(HardLink(97), []), Item(HardLink(98), [])]
  }

  function LinkTree(): Tree {
    Item(StartDirectory(), HardLinks())
  }

  function LinkWorld(): set<Entry> {
    {StartDirectory(), HardLink(97), HardLink(98)}
  }

  /** Two workers, an empty cache, and room for one line. */
  function LinkStart(): State {
    State([LinkTree()], [Idle, Idle], CacheState(map[], true, 1, None), 3, [], [], [], 0, false, false, Walking, map[])
  }

  /** The links are too short to hold a reference. */
  predicate FindsNothing(cfg: Config) {
    cfg.startdev == 0 && cfg.scan(HardLink(97)) == Ok([]) && cfg.scan(HardLink(98)) == Ok([])
  }

  lemma NothingToFind(cfg: Config, quickcheck: nat)
    requires cfg.scan == ScannerWith(quickcheck) && cfg.startdev == 0
    ensures FindsNothing(cfg)
  {}

  lemma LinkSetup(cfg: Config)
    requires FindsNothing(cfg)
    ensures Initial(LinkTree(), LinkStart()) && Setup(cfg, LinkWorld(), LinkTree(), LinkStart())
    ensures FoldersOnly(LinkTree()) && !GivesUp(cfg, LinkTree())
  {
    assert StampsDetermine(LinkWorld(), cfg.scan);
    assert forall k | k in HardLinks() :: TreeIn(k, LinkWorld()) && FoldersOnly(k);
    assert forall k | k in HardLinks() :: !GivesUp(cfg, k);
  }

  lemma LinksNeeded(cfg: Config)
    requires FindsNothing(cfg)
    ensures Needed(cfg, LinkTree()) == {HardLink(97), HardLink(98)}
    ensures Misses(cfg, LinkStart().cache, LinkTree()) == 2
    ensures Lines(cfg, LinkTree(), LinkStart().cache) == {1}
  {
    var ks, c := HardLinks(), LinkStart().cache;
    assert Needed(cfg, ks[0]) == {HardLink(97)} && Needed(cfg, ks[1]) == {HardLink(98)};
    assert Misses(cfg, c, ks[0]) == 1 && Misses(cfg, c, ks[1]) == 1;
    assert AllNeeded(cfg, ks[1..]) == {HardLink(98)} && AllMisses(cfg, c, ks[1..]) == 1;
    assert HardLink(97) in Needed(cfg, LinkTree());
    assert Inodes(Needed(cfg, LinkTree())) == {1};
  }

  /** Two hard links and room for their one line: whether the run aborts depends on the interleaving alone. */
  lemma HardLinksDecide(cfg: Config, quickcheck: nat)
    requires cfg.scan == ScannerWith(quickcheck) && cfg.startdev == 0
    ensures !GivesUp(cfg, LinkTree())
    ensures CanSucceed(cfg, LinkTree(), LinkStart()) && CanAbort(cfg, LinkTree(), LinkStart())
  {
    NothingToFind(cfg, quickcheck);
    LinkSetup(cfg);
    LinksNeeded(cfg);
    InterleavingDecidesIff(cfg, LinkWorld(), LinkTree(), LinkStart());
  }
}
