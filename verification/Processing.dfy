/** Visiting one entry with the shared cache object (`scan_entry` and the visitor of `walk` in `src/walk.rs`). */
module Processing {
  import opened Wrappers
  import opened StorePaths
  import opened Scanner
  import opened Cache
  import opened Walk
  import opened PlainScan

  datatype WalkState = Continue | Skip | Quit

  /** Where a worker of the step system stands when the visitor returns this. */
  predicate Stands(ws: WalkState, pc: PC, kids: seq<Tree>) {
    match ws
    case Continue => pc == Descending(kids)
    case Skip => pc == Idle
    case Quit => pc == Aborting
  }

  /** The answer to an entry that is not to be cached. */
  function EarlyAnswer(startdev: nat, sp: StorePaths): Option<Result<WalkState, Failure>> {
    if sp.entry.error.HardError? then Some(Err(Traversal))
    else if sp.entry.meta.None? then Some(Err(NoMetadata))
    else if sp.entry.meta.value.dev != startdev then Some(Ok(Skip))
    else None
  }

  function Warning(sp: StorePaths): seq<StatsMsg> {
    if sp.entry.error.PartialError? then [SoftProblem] else []
  }

  lemma JudgedInTwo(cfg: Config, c: CacheState, sp: StorePaths, kids: seq<Tree>)
    ensures Judged(cfg, c, sp, kids) ==
            match EarlyAnswer(cfg.startdev, sp)
            case None => AndThen(Move(c, Inserting(sp, kids)).(stats := Warning(sp)), PassedOn(cfg, c, sp, kids))
            case Some(Ok(_)) => Move(c, Idle).(stats := Warning(sp))
            case Some(Err(f)) => Fail(c, kids, f).(stats := Warning(sp) + Fail(c, kids, f).stats)
  {
    assert Warning(sp) + [] == Warning(sp);
    assert [] + Fail(c, kids, Traversal).stats == Fail(c, kids, Traversal).stats;
  }

  lemma PassedReports(cfg: Config, c: CacheState, sp: StorePaths, kids: seq<Tree>)
    requires !PassedOn(cfg, c, sp, kids).abort
    ensures Soft(PassedOn(cfg, c, sp, kids).stats) == 0
  {}

  lemma JudgedReports(cfg: Config, c: CacheState, sp: StorePaths, kids: seq<Tree>)
    requires !Judged(cfg, c, sp, kids).abort
    ensures Soft(Judged(cfg, c, sp, kids).stats) ==
            (if sp.entry.error.PartialError? then 1 else 0) + if sp.entry.meta.None? then 1 else 0
  {
    JudgedInTwo(cfg, c, sp, kids);
    match EarlyAnswer(cfg.startdev, sp) {
      case None =>
        PassedReports(cfg, c, sp, kids);
        SoftAppend(Warning(sp), PassedOn(cfg, c, sp, kids).stats);
      case Some(Ok(_)) =>
      case Some(Err(f)) =>
        SoftAppend(Warning(sp), Fail(c, kids, f).stats);
    }
  }

  /** What a visit can change outside: the cache, and what is sent to the statistics and to the registry. */
  datatype Outside = Outside(cache: CacheState, stats: seq<StatsMsg>, gc: seq<StorePaths>)

  /** The effect has taken place, except that a failure has still to be handled. */
  predicate Performed(eff: Effect, kids: seq<Tree>, r: Result<WalkState, Failure>, before: Outside, after: Outside) {
    && after.cache == eff.cache && after.gc == before.gc + eff.sent
    && (r.Ok? ==> Stands(r.value, eff.pc, kids) && !eff.abort && after.stats == before.stats + eff.stats)
    && (r.Err? ==>
          var rest := Fail(after.cache, kids, r.error);
          eff.pc == rest.pc && eff.abort == rest.abort && after.stats + rest.stats == before.stats + eff.stats)
  }

  lemma EarlyPerformed(cfg: Config, sp: StorePaths, kids: seq<Tree>, before: Outside, after: Outside)
    requires EarlyAnswer(cfg.startdev, sp).Some? && after == before.(stats := before.stats + Warning(sp))
    ensures Performed(Judged(cfg, before.cache, sp, kids), kids, EarlyAnswer(cfg.startdev, sp).value, before, after)
  {
    JudgedInTwo(cfg, before.cache, sp, kids);
    assert before.gc + [] == before.gc;
    var r := EarlyAnswer(cfg.startdev, sp).value;
    if r.Err? {
      Associate(before.stats, Warning(sp), Fail(before.cache, kids, r.error).stats);
    }
  }

  lemma LatePerformed(cfg: Config, sp: StorePaths, kids: seq<Tree>, r: Result<WalkState, Failure>,
                      before: Outside, after: Outside)
    requires EarlyAnswer(cfg.startdev, sp).None?
    requires Performed(PassedOn(cfg, before.cache, sp, kids), kids, r,
                       before.(stats := before.stats + Warning(sp)), after)
    ensures Performed(Judged(cfg, before.cache, sp, kids), kids, r, before, after)
  {
    JudgedInTwo(cfg, before.cache, sp, kids);
    var eff := PassedOn(cfg, before.cache, sp, kids);
    assert [] + eff.sent == eff.sent;
    Associate(before.stats, Warning(sp), eff.stats);
  }

  lemma MissReports(cfg: Config, c: CacheState, e: Entry, kids: seq<Tree>, quickcheck: nat)
    requires cfg.scan == ScannerWith(quickcheck) && LookupResult(c, e).Miss?
    ensures !Visiting(cfg, c, e, kids).abort ==> Soft(Visiting(cfg, c, e, kids).stats) == Reported(e)
  {
    ScanGoodFor(e, quickcheck);
    if cfg.scan(e).Err? {
      assert Visiting(cfg, c, e, kids) == Fail(c, kids, cfg.scan(e).error);
    } else if !Visiting(cfg, c, e, kids).abort {
      JudgedReports(cfg, c, StorePaths(e, cfg.scan(e).value, false), kids);
    }
  }

  /** The problems a worker reports when nobody disturbs it: those of the entry, or a partial error if it hits. */
  lemma AloneReports(cfg: Config, c: CacheState, e: Entry, kids: seq<Tree>, quickcheck: nat)
    requires cfg.scan == ScannerWith(quickcheck) && !Alone(cfg, c, Entered(Item(e, kids))).abort
    ensures Soft(Alone(cfg, c, Entered(Item(e, kids))).stats) ==
            if !LookupResult(c, e).Hit? then Reported(e) else if e.error.PartialError? then 1 else 0
  {
    assert Visiting(cfg, c, e, kids) == Alone(cfg, c, Entered(Item(e, kids)));
    var found := LookupResult(c, e);
    if found.Miss? {
      MissReports(cfg, c, e, kids, quickcheck);
    } else {
      JudgedReports(cfg, AfterLookup(c, e), found.sp, kids);
    }
  }

  class ProcessingContext {
    const startdev: nat
    const quickcheck: nat
    const cache: Cache
    var stats: seq<StatsMsg>
    var gc: seq<StorePaths>
    var abort: bool

    constructor (startdev: nat, quickcheck: nat, cache: Cache)
      ensures this.startdev == startdev && this.quickcheck == quickcheck && this.cache == cache
      ensures stats == [] && gc == [] && !abort
    {
      this.startdev, this.quickcheck, this.cache := startdev, quickcheck, cache;
      stats, gc, abort := [], [], false;
    }

    ghost function Box(): Outside
      reads this, cache
    {
      Outside(cache.State(), stats, gc)
    }

    /** The first half: the cache is asked first, and what it does not hold is scanned. */
    method FindRefs(ghost cfg: Config, e: Entry) returns (r: Result<StorePaths, Failure>)
      requires cfg.scan == ScannerWith(quickcheck)
      modifies cache
      ensures cache.State() == AfterLookup(old(cache.State()), e)
      ensures var found := LookupResult(old(cache.State()), e);
              if !found.Miss? then r == Ok(found.sp)
              else if cfg.scan(e).Err? then r == Err(cfg.scan(e).error)
              else r == Ok(StorePaths(e, cfg.scan(e).value, false))
    {
      var found := cache.Lookup(e);
      match found {
        case Dir(sp) => return Ok(sp);
        case Hit(sp) => return Ok(sp);
        case Miss(d) =>
          r := FindPaths(d, quickcheck);
      }
    }

    /** The end: what was found is cached and passed on. */
    method Store(ghost cfg: Config, sp: StorePaths, ghost kids: seq<Tree>) returns (r: Result<WalkState, Failure>)
      modifies this`stats, this`gc, cache
      ensures Performed(PassedOn(cfg, old(cache.State()), sp, kids), kids, r, old(Box()), Box())
      ensures r.Err? ==> gc == old(gc)
      ensures r.Ok? ==> gc == old(gc) + (if |sp.refs| > 0 then [sp] else []) && stats == old(stats) + [Scanned]
    {
      var inserted := cache.Insert(sp);
      if inserted.Err? {
        return Err(WalkAbort);
      }
      stats := stats + [Scanned];
      if sp.refs != [] {
        gc := gc + [sp];
      }
      return Ok(Continue);
    }

    /** The entry's own error, and its device; nothing if the entry passes. */
    method Judge(sp: StorePaths) returns (r: Option<Result<WalkState, Failure>>)
      modifies this`stats
      ensures stats == old(stats) + Warning(sp) && r == EarlyAnswer(startdev, sp)
    {
      if sp.entry.error.HardError? {
        return Some(Err(Traversal));
      } else if sp.entry.error.PartialError? {
        stats := stats + [SoftProblem];
      }
      if sp.entry.meta.None? {
        return Some(Err(NoMetadata));
      }
      if sp.entry.meta.value.dev != startdev {
        return Some(Ok(Skip));
      }
      return None;
    }

    /** The second half: the judgement, and then the end. */
    method PassOn(ghost cfg: Config, sp: StorePaths, ghost kids: seq<Tree>) returns (r: Result<WalkState, Failure>)
      requires cfg.startdev == startdev
      modifies this`stats, this`gc, cache
      ensures Performed(Judged(cfg, old(cache.State()), sp, kids), kids, r, old(Box()), Box())
      ensures gc == old(gc) + if r == Ok(Continue) && |sp.refs| > 0 then [sp] else []
    {
      var early := Judge(sp);
      if early.Some? {
        EarlyPerformed(cfg, sp, kids, old(Box()), Box());
        return early.value;
      }
      r := Store(cfg, sp, kids);
      LatePerformed(cfg, sp, kids, r, old(Box()), Box());
    }

    /** What a worker of the step system does with an entry when nobody comes between. */
    method ScanEntry(ghost cfg: Config, e: Entry, ghost kids: seq<Tree>) returns (r: Result<WalkState, Failure>)
      requires cfg.startdev == startdev && cfg.scan == ScannerWith(quickcheck)
      modifies this`stats, this`gc, cache
      ensures Performed(Alone(cfg, old(cache.State()), Entered(Item(e, kids))), kids, r, old(Box()), Box())
      ensures r != Ok(Continue) ==> gc == old(gc)
      ensures var known := LookupResult(old(cache.State()), e);
              r == Ok(Continue) ==>
                && (known.Miss? ==> cfg.scan(e).Ok?)
                && var sp := if known.Miss? then StorePaths(e, cfg.scan(e).value, false) else known.sp;
                   gc == old(gc) + if |sp.refs| > 0 then [sp] else []
    {
      assert Visiting(cfg, cache.State(), e, kids) == Alone(cfg, cache.State(), Entered(Item(e, kids)));
      var found := FindRefs(cfg, e);
      if found.Err? {
        return Err(found.error);
      }
      r := PassOn(cfg, found.value, kids);
    }

    /** What the walker is told to do next, and when the run is marked as aborted. */
    method VisitItem(ghost cfg: Config, t: Tree) returns (ws: WalkState)
      requires cfg.startdev == startdev && cfg.scan == ScannerWith(quickcheck)
      modifies this, cache
      ensures var eff := Alone(cfg, old(cache.State()), Entered(t));
              && cache.State() == eff.cache
              && stats == old(stats) + eff.stats && gc == old(gc) + eff.sent
              && abort == (old(abort) || eff.abort)
              && Stands(ws, eff.pc, if t.Item? then t.kids else [])
      ensures t.Item? && ws != Quit ==>
                Soft(stats) == Soft(old(stats)) +
                               if !LookupResult(old(cache.State()), t.entry).Hit? then Reported(t.entry)
                               else if t.entry.error.PartialError? then 1 else 0
    {
      if t.Item? && !Alone(cfg, cache.State(), Entered(t)).abort {
        AloneReports(cfg, cache.State(), t.entry, t.kids, quickcheck);
        SoftAppend(stats, Alone(cfg, cache.State(), Entered(t)).stats);
      }
      var r: Result<WalkState, Failure>;
      match t {
        case WalkError => r := Err(Traversal);
        case Item(e, kids) => r := ScanEntry(cfg, e, kids);
      }
      if r.Ok? {
        return r.value;
      }
      match Classify(r.error) {
        case Abort =>
          abort := true;
          return Quit;
        case Ignore =>
          return Continue;
        case SoftError =>
          stats := stats + [SoftProblem];
          return Continue;
      }
    }
  }
}
