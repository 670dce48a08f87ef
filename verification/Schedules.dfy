/** Building runs: one worker visits what it is told to, in the order it is told to. */
module Schedules {
  import opened Wrappers
  import opened StorePaths
  import opened Cache
  import opened Walk
  import opened PlainScan
  import opened WalkTheorems
  import opened CacheLimits

  // ---------------------------------------------------------------- what an undisturbed visit does

  /** The cache after visiting an entry, unless that aborts. */
  function AfterVisit(cfg: Config, c: CacheState, e: Entry): CacheState {
    if NeedsLine(cfg, e) && !IsHit(c, e) then AfterInsert(c, StorePaths(e, Fetch(cfg, e).value, false))
    else AfterLookup(c, e)
  }

  /** Visiting the entry would insert a line for which there is no room. */
  predicate NoRoom(cfg: Config, c: CacheState, e: Entry) {
    NeedsLine(cfg, e) && !IsHit(c, e) && Full(c)
  }

  /** What the plain scan does at the entry, or the discovery that the cache is full; and what becomes of the cache. */
  predicate LikePlain(cfg: Config, c: CacheState, e: Entry, kids: seq<Tree>, eff: Effect) {
    && eff.queued == [] && !eff.quit
    && (eff.abort <==> VisitEntry(cfg, e).Quits? || NoRoom(cfg, c, e))
    && if eff.abort then eff.pc == Aborting && eff.sent == []
       else
         && eff.cache == AfterVisit(cfg, c, e)
         && eff.pc == (if GoesOn(cfg, e) then Descending(kids) else Idle)
         && Plain(eff.sent) == (if GoesOn(cfg, e) then VisitEntry(cfg, e).found else [])
  }

  lemma HitLikePlain(cfg: Config, world: set<Entry>, c: CacheState, e: Entry, kids: seq<Tree>)
    requires Sound(Strip(c.lines), world, cfg.scan) && e in world && !LookupResult(c, e).Miss?
    ensures LikePlain(cfg, c, e, kids, Judged(cfg, AfterLookup(c, e), LookupResult(c, e).sp, kids))
  {
    var sp := LookupResult(c, e).sp;
    assert Fetch(cfg, e) == Ok(sp.refs) && sp.cached;
    assert Judged(cfg, AfterLookup(c, e), sp, kids).cache == AfterLookup(c, e);
  }

  lemma MissLikePlain(cfg: Config, c: CacheState, e: Entry, kids: seq<Tree>)
    requires LookupResult(c, e).Miss? && cfg.scan(e).Ok?
    ensures LikePlain(cfg, c, e, kids, Judged(cfg, c, StorePaths(e, cfg.scan(e).value, false), kids))
  {}

  /** With a sound cache, a worker that nobody disturbs does at an entry what the plain scan does there, and aborts
      only where that gives up or when it finds no room. */
  lemma AloneIsVisit(cfg: Config, world: set<Entry>, c: CacheState, e: Entry, kids: seq<Tree>)
    requires StampsDetermine(world, cfg.scan) && SoundCache(cfg, world, c) && e in world
    ensures LikePlain(cfg, c, e, kids, Alone(cfg, c, Entered(Item(e, kids))))
  {
    assert Visiting(cfg, c, e, kids) == Alone(cfg, c, Entered(Item(e, kids)));
    if !LookupResult(c, e).Miss? {
      HitLikePlain(cfg, world, c, e, kids);
    } else if cfg.scan(e).Ok? {
      MissLikePlain(cfg, c, e, kids);
    }
  }

  // ---------------------------------------------------------------- one visit as part of a run

  /** All workers are waiting for something to do. */
  predicate Resting(s: State) {
    && s.phase.Walking? && !s.abort && !s.quit
    && |s.workers| > 0 && forall w | 0 <= w < |s.workers| :: s.workers[w].Idle?
  }

  function Without(ts: seq<Tree>, k: nat): seq<Tree>
    requires k < |ts|
  {
    ts[..k] + ts[k + 1..]
  }

  /** The pending tree has been visited, and what is below it is pending. */
  predicate AfterOne(cfg: Config, s: State, k: nat, s': State)
    requires k < |s.pending|
  {
    && Resting(s') && s.pending[k].Item? && |s'.workers| == |s.workers|
    && s'.pending == Without(s.pending, k) + (if GoesOn(cfg, s.pending[k].entry) then s.pending[k].kids else [])
    && s'.cache == AfterVisit(cfg, s.cache, s.pending[k].entry)
    && s'.todo == s.todo
    && Plain(s'.channel) ==
       Plain(s.channel) + if GoesOn(cfg, s.pending[k].entry) then VisitEntry(cfg, s.pending[k].entry).found else []
  }

  predicate Stops(cfg: Config, c: CacheState, t: Tree) {
    t.WalkError? || VisitEntry(cfg, t.entry).Quits? || NoRoom(cfg, c, t.entry)
  }

  lemma Extend(cfg: Config, root: Tree, states: seq<State>, actions: seq<Action>, a: Action)
    returns (states': seq<State>, actions': seq<Action>)
    requires IsRun(cfg, root, states, actions) && Enabled(cfg, states[|actions|], a)
    ensures IsRun(cfg, root, states', actions') && states'[0] == states[0]
    ensures |actions'| == |actions| + 1 && states'[|actions'|] == Next(cfg, states[|actions|], a)
  {
    states', actions' := states + [Next(cfg, states[|actions|], a)], actions + [a];
    ExtendRun(cfg, root, states, actions, a);
  }

  /** A worker takes a pending tree and does with its entry what it does when nobody comes between. */
  lemma TakeAlone(cfg: Config, root: Tree, states: seq<State>, actions: seq<Action>, w: nat, k: nat)
    returns (states': seq<State>, actions': seq<Action>)
    requires IsRun(cfg, root, states, actions) && Enabled(cfg, states[|actions|], Take(w, k))
    ensures IsRun(cfg, root, states', actions') && states'[0] == states[0] && |actions'| > |actions|
    ensures var s := states[|actions|];
            states'[|actions'|] ==
              Perform(Next(cfg, s, Take(w, k)), w, Alone(cfg, s.cache, Entered(s.pending[k])))
  {
    states', actions' := Extend(cfg, root, states, actions, Take(w, k));
    states', actions' := AloneIsRun(cfg, root, states', actions', w);
  }

  lemma PerformedVisit(cfg: Config, s: State, k: nat, eff: Effect)
    requires Resting(s) && k < |s.pending| && s.pending[k].Item?
    requires LikePlain(cfg, s.cache, s.pending[k].entry, s.pending[k].kids, eff) && !eff.abort
    ensures var s' := Perform(Next(cfg, s, Take(0, k)), 0, eff);
            if GoesOn(cfg, s.pending[k].entry)
            then Enabled(cfg, s', Step(0)) && AfterOne(cfg, s, k, Next(cfg, s', Step(0)))
            else AfterOne(cfg, s, k, s')
  {
    PlainAppend(s.channel, eff.sent);
  }

  /** Worker 0 visits one of the pending trees while the others wait. */
  lemma VisitOne(cfg: Config, world: set<Entry>, root: Tree, states: seq<State>, actions: seq<Action>, k: nat)
    returns (states': seq<State>, actions': seq<Action>)
    requires IsRun(cfg, root, states, actions) && Setup(cfg, world, root, states[0])
    requires Resting(states[|actions|]) && k < |states[|actions|].pending|
    ensures IsRun(cfg, root, states', actions') && states'[0] == states[0] && |actions'| > |actions|
    ensures var s, s' := states[|actions|], states'[|actions'|];
            && (s'.abort <==> Stops(cfg, s.cache, s.pending[k]))
            && (!s'.abort ==> AfterOne(cfg, s, k, s'))
  {
    var s := states[|actions|];
    var t := s.pending[k];
    var eff := Alone(cfg, s.cache, Entered(t));
    RunInvariant(cfg, world, root, states, actions, |actions|);
    assert TreeIn(t, world);
    states', actions' := TakeAlone(cfg, root, states, actions, 0, k);
    if t.Item? {
      AloneIsVisit(cfg, world, s.cache, t.entry, t.kids);
      if !eff.abort {
        PerformedVisit(cfg, s, k, eff);
        if GoesOn(cfg, t.entry) {
          states', actions' := Extend(cfg, root, states', actions', Step(0));
        }
      }
    }
  }

  // ---------------------------------------------------------------- visiting all but some entries

  predicate Held(t: Tree, held: set<Entry>) {
    t.Item? && t.entry in held
  }

  /** At how many places the plain scan comes by one of these entries. */
  function Places(cfg: Config, held: set<Entry>, t: Tree): nat {
    if t.Item? && GoesOn(cfg, t.entry) then (if t.entry in held then 1 else 0) + AllPlaces(cfg, held, t.kids) else 0
  }

  function AllPlaces(cfg: Config, held: set<Entry>, ts: seq<Tree>): nat {
    if ts == [] then 0 else Places(cfg, held, ts[0]) + AllPlaces(cfg, held, ts[1..])
  }

  lemma {:induction false} PlacesAppend(cfg: Config, held: set<Entry>, a: seq<Tree>, b: seq<Tree>)
    ensures AllPlaces(cfg, held, a + b) == AllPlaces(cfg, held, a) + AllPlaces(cfg, held, b)
  {
    if a == [] {
      assert a + b == b;
    } else {
      assert (a + b)[1..] == a[1..] + b;
      PlacesAppend(cfg, held, a[1..], b);
    }
  }

  lemma PlacesRemove(cfg: Config, held: set<Entry>, ts: seq<Tree>, k: nat)
    requires k < |ts|
    ensures AllPlaces(cfg, held, ts) == Places(cfg, held, ts[k]) + AllPlaces(cfg, held, Without(ts, k))
  {
    PlacesAppend(cfg, held, ts[..k], ts[k + 1..]);
    PlacesAppend(cfg, held, ts[..k], ts[k..]);
    assert ts == ts[..k] + ts[k..] && ts[k..][1..] == ts[k + 1..];
  }

  ghost predicate AllFolders(ts: seq<Tree>) {
    forall t | t in ts :: FoldersOnly(t)
  }

  /** The held entries are where they were, and only directories have anything below them. */
  ghost predicate StillHeld(cfg: Config, held: set<Entry>, ts: seq<Tree>, ts': seq<Tree>) {
    && AllPlaces(cfg, held, ts') == AllPlaces(cfg, held, ts)
    && AllNeeded(cfg, ts) * held <= AllNeeded(cfg, ts')
    && (AllFolders(ts) ==> AllFolders(ts'))
  }

  lemma OneStillHeld(cfg: Config, held: set<Entry>, s: State, k: nat, s': State)
    requires k < |s.pending| && AfterOne(cfg, s, k, s') && s.pending[k].entry !in held
    ensures StillHeld(cfg, held, s.pending, s'.pending)
  {
    var t, rest := s.pending[k], Without(s.pending, k);
    PlacesRemove(cfg, held, s.pending, k);
    NeededRemove(cfg, s.pending, k);
    if GoesOn(cfg, t.entry) {
      PlacesAppend(cfg, held, rest, t.kids);
      NeededAppend(cfg, rest, t.kids);
    } else {
      assert rest + [] == rest;
    }
    if AllFolders(s.pending) {
      assert FoldersOnly(t);
      forall u | u in s'.pending ensures FoldersOnly(u) {
        assert u in rest ==> u in s.pending;
      }
    }
  }

  /** What is true of the cache stays true when an entry is visited that is not held. */
  ghost predicate Keeps(cfg: Config, root: Tree, held: set<Entry>, keep: CacheState -> bool) {
    forall c, e {:trigger AfterVisit(cfg, c, e)} |
      keep(c) && e !in held && (NeedsLine(cfg, e) ==> e in Needed(cfg, root)) && !NoRoom(cfg, c, e) ::
      keep(AfterVisit(cfg, c, e))
  }

  /** A visit of an entry that is not held would find no room. */
  ghost predicate Cramped(cfg: Config, root: Tree, held: set<Entry>, keep: CacheState -> bool) {
    exists c, e :: keep(c) && e in Needed(cfg, root) && e !in held && NoRoom(cfg, c, e)
  }

  /** The entries that are not held deliver nothing. */
  ghost predicate Silent(cfg: Config, world: set<Entry>, held: set<Entry>) {
    forall e | e in world && e !in held && GoesOn(cfg, e) :: VisitEntry(cfg, e).found == []
  }

  /** All but the held trees have been visited. */
  ghost predicate AfterOthers(cfg: Config, world: set<Entry>, held: set<Entry>, keep: CacheState -> bool,
                              s: State, s': State) {
    && Resting(s') && (forall t | t in s'.pending :: Held(t, held))
    && |s'.workers| == |s.workers| && keep(s'.cache) && StillHeld(cfg, held, s.pending, s'.pending)
    && s'.todo == s.todo && (Silent(cfg, world, held) ==> Plain(s'.channel) == Plain(s.channel))
  }

  lemma PendingIsNeeded(cfg: Config, world: set<Entry>, root: Tree, states: seq<State>, actions: seq<Action>, k: nat)
    requires IsRun(cfg, root, states, actions) && Setup(cfg, world, root, states[0])
    requires Resting(states[|actions|]) && k < |states[|actions|].pending| && states[|actions|].pending[k].Item?
    ensures var e := states[|actions|].pending[k].entry;
            e in world && (NeedsLine(cfg, e) ==> e in Needed(cfg, root))
    ensures !GivesUp(cfg, root) ==> !VisitEntry(cfg, states[|actions|].pending[k].entry).Quits?
  {
    var s := states[|actions|];
    var t := s.pending[k];
    RunInvariant(cfg, world, root, states, actions, |actions|);
    RunTracked(cfg, world, root, states, actions, |actions|);
    assert TreeIn(t, world);
    NeededRemove(cfg, s.pending, k);
    if NeedsLine(cfg, t.entry) {
      assert Outstanding(cfg, s, t.entry);
    }
    TroubleKnown(cfg, root, s);
    assert GivesUp(cfg, t) ==> TroubleAhead(cfg, s);
  }

  lemma NoErrorPending(cfg: Config, world: set<Entry>, root: Tree, states: seq<State>, actions: seq<Action>, k: nat)
    requires IsRun(cfg, root, states, actions) && Setup(cfg, world, root, states[0])
    requires Resting(states[|actions|]) && k < |states[|actions|].pending| && states[|actions|].pending[k].WalkError?
    ensures GivesUp(cfg, root)
  {
    var s := states[|actions|];
    RunInvariant(cfg, world, root, states, actions, |actions|);
    TroubleKnown(cfg, root, s);
    assert GivesUp(cfg, s.pending[k]) && s.pending[k] in s.pending;
    assert TroubleAhead(cfg, s);
  }

  /** Worker 0 visits what is pending, and what turns up below it, except for the held entries. */
  lemma {:induction false} VisitOthers(cfg: Config, world: set<Entry>, root: Tree,
                                       states: seq<State>, actions: seq<Action>,
                                       held: set<Entry>, keep: CacheState -> bool)
    returns (states': seq<State>, actions': seq<Action>)
    requires IsRun(cfg, root, states, actions) && Setup(cfg, world, root, states[0]) && Resting(states[|actions|])
    requires keep(states[|actions|].cache) && Keeps(cfg, root, held, keep)
    ensures IsRun(cfg, root, states', actions') && states'[0] == states[0]
    ensures var s, s' := states[|actions|], states'[|actions'|];
            && (s'.abort ==> GivesUp(cfg, root) || Cramped(cfg, root, held, keep))
            && (!s'.abort ==> AfterOthers(cfg, world, held, keep, s, s'))
    decreases Measure(states[0]) - |actions|
  {
    var s := states[|actions|];
    RunsAreBounded(cfg, root, states, actions);
    if k :| 0 <= k < |s.pending| && !Held(s.pending[k], held) {
      states', actions' := VisitOne(cfg, world, root, states, actions, k);
      var one := states'[|actions'|];
      if s.pending[k].WalkError? {
        NoErrorPending(cfg, world, root, states, actions, k);
      } else {
        PendingIsNeeded(cfg, world, root, states, actions, k);
        if !one.abort {
          OneStillHeld(cfg, held, s, k, one);
          RunsAreBounded(cfg, root, states', actions');
          states', actions' := VisitOthers(cfg, world, root, states', actions', held, keep);
        }
      }
    } else {
      states', actions' := states, actions;
      assert forall t | t in s.pending :: Held(t, held);
    }
  }

  predicate IsLeaf(t: Tree, held: set<Entry>) {
    Held(t, held) && t.kids == []
  }

  lemma HeldLeaf(cfg: Config, held: set<Entry>, t: Tree)
    requires Held(t, held) && NeedsLine(cfg, t.entry) && FoldersOnly(t)
    ensures IsLeaf(t, held) && t == Item(t.entry, [])
    ensures Needed(cfg, t) == {t.entry} && Places(cfg, held, t) == 1
  {
    assert t.kids == [];
    assert AllNeeded(cfg, []) == {} && AllPlaces(cfg, held, []) == 0;
  }

  /** Entries that need a line are no directories, so that nothing is held back below them. */
  lemma {:induction false} HeldLeaves(cfg: Config, held: set<Entry>, ts: seq<Tree>)
    requires forall e | e in held :: NeedsLine(cfg, e)
    requires AllFolders(ts) && forall t | t in ts :: Held(t, held)
    ensures AllPlaces(cfg, held, ts) == |ts|
    ensures forall k | 0 <= k < |ts| :: IsLeaf(ts[k], held)
    ensures forall e | e in AllNeeded(cfg, ts) :: e in held && Item(e, []) in ts
  {
    if ts != [] {
      HeldLeaf(cfg, held, ts[0]);
      HeldLeaves(cfg, held, ts[1..]);
      forall k | 0 <= k < |ts| ensures IsLeaf(ts[k], held) {
        assert k > 0 ==> ts[k] == ts[1..][k - 1];
      }
    }
  }

  // ---------------------------------------------------------------- bringing a run to its end

  lemma FinishAborted(cfg: Config, world: set<Entry>, root: Tree, states: seq<State>, actions: seq<Action>)
    returns (states': seq<State>, actions': seq<Action>)
    requires IsRun(cfg, root, states, actions) && Setup(cfg, world, root, states[0]) && states[|actions|].abort
    ensures IsRun(cfg, root, states', actions') && states'[0] == states[0]
    ensures Final(states'[|actions'|]) && states'[|actions'|].phase.Aborted?
  {
    states', actions' := RunsFinish(cfg, root, states, actions);
    assert states'[|actions|] == states[|actions|] && states'[0] == states[0];
    AbortStays(cfg, root, states', actions', |actions|, |actions'|);
    RunInvariant(cfg, world, root, states', actions', |actions'|);
  }

  /** Nothing is left to visit, and nothing went wrong. */
  predicate Quiet(s: State) {
    s.pending == [] && NoneBusy(s.workers) && !s.abort && !s.phase.Aborted?
  }

  lemma QuietStep(cfg: Config, s: State, a: Action)
    requires Quiet(s) && Enabled(cfg, s, a)
    ensures Quiet(Next(cfg, s, a))
  {
    match a {
      case Exit(w) => assert forall v | 0 <= v < |s.workers| && v != w :: s.workers[w := Exited][v] == s.workers[v];
      case _ =>
    }
  }

  lemma {:induction false} FinishQuiet(cfg: Config, root: Tree, states: seq<State>, actions: seq<Action>)
    returns (states': seq<State>, actions': seq<Action>)
    requires IsRun(cfg, root, states, actions) && Quiet(states[|actions|])
    ensures IsRun(cfg, root, states', actions') && states'[0] == states[0]
    ensures Final(states'[|actions'|]) && !states'[|actions'|].phase.Aborted?
    decreases Measure(states[|actions|])
  {
    var s := states[|actions|];
    if Final(s) {
      states', actions' := states, actions;
    } else {
      RunDropsContexts(cfg, root, states, actions, |actions|);
      var a := NeverStuck(cfg, s);
      QuietStep(cfg, s, a);
      StepShrinks(cfg, s, a);
      states', actions' := Extend(cfg, root, states, actions, a);
      states', actions' := FinishQuiet(cfg, root, states', actions');
    }
  }
}
