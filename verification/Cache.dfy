/** The persistent scan cache (`src/storepaths/cache.rs`, `src/cachemap.rs`). */
module Cache {
  import opened Wrappers
  import opened StoreRegex
  import opened StorePaths
  import opened Scanner

  type Ino = nat

  datatype CacheLine = CacheLine(ctime: int, ctimeNsec: Byte, refs: seq<Bytes>, used: bool)

  /** What of a line reaches the file: everything but the `used` flag. */
  datatype StoredLine = StoredLine(ctime: int, ctimeNsec: Byte, refs: seq<Bytes>)

  /** The contents of the cache file: nothing, an encoded map, or bytes that do not decode. */
  datatype Image = Blank | Encoded(lines: map<Ino, StoredLine>) | Broken

  /** How writing the file ends: in full, before anything was changed, or after the old contents were cut off. */
  datatype Saving = Saved | Refused | CutOff(broken: bool)

  datatype CacheState = CacheState(lines: map<Ino, CacheLine>, dirty: bool, limit: nat, image: Option<Image>)

  function Decoded(image: Image): map<Ino, StoredLine> {
    if image.Encoded? then image.lines else map[]
  }

  function Strip(lines: map<Ino, CacheLine>): map<Ino, StoredLine> {
    map i | i in lines :: StoredLine(lines[i].ctime, lines[i].ctimeNsec, lines[i].refs)
  }

  function Loaded(stored: map<Ino, StoredLine>): map<Ino, CacheLine> {
    map i | i in stored :: CacheLine(stored[i].ctime, stored[i].ctimeNsec, stored[i].refs, false)
  }

  function Used(lines: map<Ino, CacheLine>): map<Ino, CacheLine> {
    map i | i in lines && lines[i].used :: lines[i]
  }

  /** What a cast to an unsigned byte keeps. */
  function LowByte(n: int): (b: Byte)
    ensures exists k: int :: n == 256 * k + b as int
  {
    assert n == 256 * (n / 256) + n % 256;
    (n % 256) as Byte
  }

  /** The stamp of the entry is the one recorded with the line. */
  predicate SameStamp(line: StoredLine, meta: Meta) {
    line.ctime == meta.ctime && line.ctimeNsec == LowByte(meta.ctimeNsec)
  }

  predicate HitsIn(stored: map<Ino, StoredLine>, e: Entry) {
    !e.body.Directory? && e.ino.Some? && e.ino.value in stored && e.meta.Some?
    && SameStamp(stored[e.ino.value], e.meta.value)
  }

  // ---------------------------------------------------------------- the operations on values

  function AfterOpen(limit: nat, image: Image): CacheState {
    CacheState(Loaded(Decoded(image)), image.Blank?, limit, Some(image))
  }

  predicate IsHit(c: CacheState, e: Entry) {
    HitsIn(Strip(c.lines), e)
  }

  function AfterLookup(c: CacheState, e: Entry): CacheState {
    if IsHit(c, e) then c.(lines := c.lines[e.ino.value := c.lines[e.ino.value].(used := true)]) else c
  }

  function LookupResult(c: CacheState, e: Entry): Lookup {
    if e.body.Directory? then Dir(StorePaths(e, [], true))
    else if IsHit(c, e) then Hit(StorePaths(e, c.lines[e.ino.value].refs, true))
    else Miss(e)
  }

  function InsertResult(c: CacheState, sp: StorePaths): Result<(), Failure> {
    if sp.cached then Ok(())
    else if sp.entry.meta.None? then Err(NoMetadata)
    else if c.limit > 0 && |c.lines| >= c.limit then Err(CacheFull)
    else if sp.entry.ino.None? then Err(NoMetadata)
    else Ok(())
  }

  function AfterInsert(c: CacheState, sp: StorePaths): CacheState {
    if sp.cached || InsertResult(c, sp).Err? then c
    else
      var m := sp.entry.meta.value;
      c.(lines := c.lines[sp.entry.ino.value := CacheLine(m.ctime, LowByte(m.ctimeNsec), sp.refs, true)], dirty := true)
  }

  function AfterCommit(c: CacheState, saving: Saving): CacheState {
    if c.image.None? || !c.dirty then c
    else
      var kept := Used(c.lines);
      var image := match saving
        case Saved => Encoded(Strip(kept))
        case Refused => c.image.value
        case CutOff(broken) => if broken then Broken else Blank;
      c.(lines := kept, dirty := false, image := Some(image))
  }

  // ---------------------------------------------------------------- the object

  class Cache {
    var lines: map<Ino, CacheLine>
    var dirty: bool
    var hits: nat
    var misses: nat
    var limit: nat
    var image: Option<Image>

    ghost function State(): CacheState
      reads this
    {
      CacheState(lines, dirty, limit, image)
    }

    constructor (limit: Option<nat>)
      ensures State() == CacheState(map[], false, if limit.Some? then limit.value else 0, None)
      ensures hits == misses == 0
    {
      lines, dirty, hits, misses, image := map[], false, 0, 0, None;
      this.limit := if limit.Some? then limit.value else 0;
    }

    /** Reads the cache file; one that cannot be decoded counts as an empty map. */
    method Open(file: Image)
      modifies this
      ensures State() == AfterOpen(old(limit), file)
      ensures hits == old(hits) && misses == old(misses)
    {
      if file != Blank {
        lines := Loaded(Decoded(file));
        dirty := false;
      } else {
        lines := map[];
        dirty := true;
      }
      image := Some(file);
    }

    method Get(e: Entry) returns (r: Option<seq<Bytes>>)
      requires !e.body.Directory?
      modifies this
      ensures State() == AfterLookup(old(State()), e)
      ensures r == if IsHit(old(State()), e) then Some(old(lines)[e.ino.value].refs) else None
      ensures hits == old(hits) && misses == old(misses)
    {
      if e.ino.None? || e.ino.value !in lines || e.meta.None? {
        return None;
      }
      var c := lines[e.ino.value];
      if c.ctime == e.meta.value.ctime && c.ctimeNsec == LowByte(e.meta.value.ctimeNsec) {
        lines := lines[e.ino.value := c.(used := true)];
        return Some(c.refs);
      }
      return None;
    }

    method Lookup(e: Entry) returns (r: Lookup)
      modifies this
      ensures State() == AfterLookup(old(State()), e)
      ensures r == LookupResult(old(State()), e)
      ensures hits == old(hits) + if r.Hit? then 1 else 0
      ensures misses == old(misses) + if r.Miss? then 1 else 0
    {
      if e.body.Directory? {
        return Dir(StorePaths(e, [], true));
      }
      var refs := Get(e);
      if refs.Some? {
        hits := hits + 1;
        return Hit(StorePaths(e, refs.value, true));
      }
      misses := misses + 1;
      return Miss(e);
    }

    method Insert(sp: StorePaths) returns (r: Result<(), Failure>)
      modifies this
      ensures State() == AfterInsert(old(State()), sp)
      ensures r == InsertResult(old(State()), sp)
      ensures hits == old(hits) && misses == old(misses)
    {
      if sp.cached {
        return Ok(());
      }
      if sp.entry.meta.None? {
        return Err(NoMetadata);
      }
      if limit > 0 && |lines| >= limit {
        return Err(CacheFull);
      }
      if sp.entry.ino.None? {
        return Err(NoMetadata);
      }
      var m := sp.entry.meta.value;
      lines := lines[sp.entry.ino.value := CacheLine(m.ctime, LowByte(m.ctimeNsec), sp.refs, true)];
      dirty := true;
      return Ok(());
    }

    /** Drops the lines this run did not use and writes the others, if anything was inserted. */
    method Commit(saving: Saving) returns (ok: bool)
      modifies this
      ensures State() == AfterCommit(old(State()), saving)
      ensures ok <==> saving.Saved? || old(image).None? || !old(dirty)
      ensures hits == old(hits) && misses == old(misses)
    {
      if image.None? || !dirty {
        return true;
      }
      dirty := false;
      lines := Used(lines);
      match saving {
        case Saved => image := Some(Encoded(Strip(lines)));
        case Refused =>
        case CutOff(broken) => image := Some(if broken then Broken else Blank);
      }
      return saving.Saved?;
    }
  }

  // ---------------------------------------------------------------- sequences of operations

  datatype Event = Look(e: Entry) | Put(sp: StorePaths)

  function Apply(c: CacheState, ev: Event): CacheState {
    match ev
    case Look(e) => AfterLookup(c, e)
    case Put(sp) => AfterInsert(c, sp)
  }

  function Play(c: CacheState, events: seq<Event>): (after: CacheState)
    ensures after.image == c.image && after.limit == c.limit
    ensures c.dirty ==> after.dirty
  {
    if events == [] then c else Apply(Play(c, events[..|events| - 1]), events[|events| - 1])
  }

  // ---------------------------------------------------------------- the file and the map agree while clean

  /** A clean cache with a file: the file decodes to the map, up to the `used` flags. */
  predicate Synced(c: CacheState) {
    c.image.Some? && !c.dirty ==> Decoded(c.image.value) == Strip(c.lines)
  }

  lemma OpenSynced(limit: nat, image: Image)
    ensures var c := AfterOpen(limit, image);
            && Strip(c.lines) == (if image.Encoded? then image.lines else map[])
            && (c.dirty <==> image.Blank?) && c.limit == limit && c.image == Some(image)
    ensures Synced(AfterOpen(limit, image))
    ensures forall i | i in AfterOpen(limit, image).lines :: !AfterOpen(limit, image).lines[i].used
  {}

  lemma OperationsKeepSynced(c: CacheState, e: Entry, sp: StorePaths, saving: Saving)
    requires Synced(c)
    ensures Synced(AfterLookup(c, e)) && Synced(AfterInsert(c, sp))
    ensures Synced(AfterCommit(c, Saved))
    ensures c.dirty && c.image.Some? ==>
              (Synced(AfterCommit(c, saving)) <==>
               saving.Saved? || Strip(Used(c.lines)) == if saving.Refused? then Decoded(c.image.value) else map[])
  {}

  lemma LookupKeepsContents(c: CacheState, e: Entry)
    ensures Strip(AfterLookup(c, e).lines) == Strip(c.lines)
  {}

  /** In every state an opened cache can get into before its commit: clean means in agreement with the file. */
  lemma {:induction false} PlaySynced(c: CacheState, events: seq<Event>)
    requires Synced(c)
    ensures Synced(Play(c, events))
  {
    if events != [] {
      var before, ev := Play(c, events[..|events| - 1]), events[|events| - 1];
      PlaySynced(c, events[..|events| - 1]);
      match ev {
        case Look(e) => LookupKeepsContents(before, e);
        case Put(sp) =>
      }
    }
  }

  /** A failed save leaves a cache that calls itself clean although the file lost the line: for instance after
      the first file was ever inserted into a new cache. */
  lemma FailedSaveBreaksSync()
    ensures var e := Entry(Absolute([]), Some(1), Some(Meta(0, 10, 11)), NoError, Regular([], None));
            var c := Play(AfterOpen(0, Blank), [Put(StorePaths(e, [], false))]);
            Synced(c) && !Synced(AfterCommit(c, CutOff(true))) && !Synced(AfterCommit(c, Refused))
  {
    var e := Entry(Absolute([]), Some(1), Some(Meta(0, 10, 11)), NoError, Regular([], None));
    var events := [Put(StorePaths(e, [], false))];
    var c := Play(AfterOpen(0, Blank), events);
    assert events[..|events| - 1] == [];
    assert c == Apply(Play(AfterOpen(0, Blank), []), events[0]);
    assert 1 in Strip(Used(c.lines));
  }

  // ---------------------------------------------------------------- whole runs

  /** One run of the program: what it does to the cache between opening and committing. */
  datatype Session = Session(limit: nat, events: seq<Event>, saving: Saving)

  function AfterSession(image: Image, s: Session): Image {
    AfterCommit(Play(AfterOpen(s.limit, image), s.events), s.saving).image.value
  }

  function AfterSessions(image: Image, ss: seq<Session>): Image {
    if ss == [] then image else AfterSession(AfterSessions(image, ss[..|ss| - 1]), ss[|ss| - 1])
  }

  predicate SameFile(e: Entry, e': Entry) {
    && !e.body.Directory? && !e'.body.Directory?
    && e.ino.Some? && e.ino == e'.ino
    && e.meta.Some? && e'.meta.Some?
    && e.meta.value.ctime == e'.meta.value.ctime
    && LowByte(e.meta.value.ctimeNsec) == LowByte(e'.meta.value.ctimeNsec)
  }

  /** Among the entries of the world, inode and stamp determine the scan result. */
  ghost predicate StampsDetermine(world: set<Entry>, scan: ScanFunction) {
    forall e, e' | e in world && e' in world && SameFile(e, e') ::
      scan(e) == scan(e')
  }

  /** Whenever an entry of the world hits, the line holds what a fresh scan of the entry would find. */
  ghost predicate Sound(stored: map<Ino, StoredLine>, world: set<Entry>, scan: ScanFunction) {
    forall e | e in world && HitsIn(stored, e) :: scan(e) == Ok(stored[e.ino.value].refs)
  }

  /** The event concerns the world, and what is inserted comes from the scanner. */
  predicate FromScanner(ev: Event, world: set<Entry>, scan: ScanFunction) {
    match ev
    case Look(e) => e in world
    case Put(sp) =>
      sp.entry in world && (!sp.cached ==> !sp.entry.body.Directory? && scan(sp.entry) == Ok(sp.refs))
  }

  lemma ApplyKeepsSound(c: CacheState, ev: Event, world: set<Entry>, scan: ScanFunction)
    requires StampsDetermine(world, scan) && FromScanner(ev, world, scan)
    requires Sound(Strip(c.lines), world, scan)
    ensures Sound(Strip(Apply(c, ev).lines), world, scan)
  {}

  lemma {:induction false} PlayKeepsSound(c: CacheState, events: seq<Event>, world: set<Entry>, scan: ScanFunction)
    requires StampsDetermine(world, scan)
    requires forall ev | ev in events :: FromScanner(ev, world, scan)
    requires Sound(Strip(c.lines), world, scan)
    ensures Sound(Strip(Play(c, events).lines), world, scan)
  {
    if events != [] {
      PlayKeepsSound(c, events[..|events| - 1], world, scan);
      ApplyKeepsSound(Play(c, events[..|events| - 1]), events[|events| - 1], world, scan);
    }
  }

  lemma CommitKeepsSound(c: CacheState, saving: Saving, world: set<Entry>, scan: ScanFunction)
    requires c.image.Some?
    requires Sound(Strip(c.lines), world, scan) && Sound(Decoded(c.image.value), world, scan)
    ensures Sound(Decoded(AfterCommit(c, saving).image.value), world, scan)
  {}

  ghost predicate SessionsFromScanner(ss: seq<Session>, world: set<Entry>, scan: ScanFunction) {
    forall s | s in ss :: forall ev | ev in s.events :: FromScanner(ev, world, scan)
  }

  /** Over any number of runs, with saves that succeed or fail, the file stays sound. */
  lemma {:induction false} SessionsKeepSound(image: Image, ss: seq<Session>, world: set<Entry>, scan: ScanFunction)
    requires StampsDetermine(world, scan) && SessionsFromScanner(ss, world, scan)
    requires Sound(Decoded(image), world, scan)
    ensures Sound(Decoded(AfterSessions(image, ss)), world, scan)
  {
    if ss != [] {
      var before, s := AfterSessions(image, ss[..|ss| - 1]), ss[|ss| - 1];
      SessionsKeepSound(image, ss[..|ss| - 1], world, scan);
      OpenSynced(s.limit, before);
      PlayKeepsSound(AfterOpen(s.limit, before), s.events, world, scan);
      CommitKeepsSound(Play(AfterOpen(s.limit, before), s.events), s.saving, world, scan);
    }
  }

  /** Every hit, in any run after any number of earlier runs, delivers what a fresh scan would find. */
  lemma HitEqualsFreshScan(image: Image, ss: seq<Session>, limit: nat, events: seq<Event>, e: Entry,
                           world: set<Entry>, scan: ScanFunction)
    requires StampsDetermine(world, scan) && SessionsFromScanner(ss, world, scan)
    requires Sound(Decoded(image), world, scan)
    requires e in world && forall ev | ev in events :: FromScanner(ev, world, scan)
    ensures var r := LookupResult(Play(AfterOpen(limit, AfterSessions(image, ss)), events), e);
            r.Hit? ==> scan(e) == Ok(r.sp.refs)
  {
    SessionsKeepSound(image, ss, world, scan);
    var start := AfterOpen(limit, AfterSessions(image, ss));
    OpenSynced(limit, AfterSessions(image, ss));
    PlayKeepsSound(start, events, world, scan);
  }

  // ---------------------------------------------------------------- what a run leaves behind

  /** The inodes hit or inserted by a sequence of events. */
  function Touched(c: CacheState, events: seq<Event>): set<Ino> {
    if events == [] then {}
    else
      var before := Play(c, events[..|events| - 1]);
      Touched(c, events[..|events| - 1]) +
      match events[|events| - 1]
      case Look(e) => if IsHit(before, e) then {e.ino.value} else {}
      case Put(sp) => if !sp.cached && InsertResult(before, sp).Ok? then {sp.entry.ino.value} else {}
  }

  /** The `used` flags record exactly the inodes touched; nothing else about the map's domain changes unless a line
      is inserted. */
  lemma {:induction false} UsedIsTouched(c: CacheState, events: seq<Event>)
    requires forall i | i in c.lines :: !c.lines[i].used
    ensures Used(Play(c, events).lines).Keys == Touched(c, events)
    ensures !c.dirty && !Play(c, events).dirty ==> Strip(Play(c, events).lines) == Strip(c.lines)
  {
    if events != [] {
      UsedIsTouched(c, events[..|events| - 1]);
      var before, ev := Play(c, events[..|events| - 1]), events[|events| - 1];
      assert Used(Apply(before, ev).lines).Keys == Touched(c, events);
      if ev.Look? {
        assert Strip(Apply(before, ev).lines) == Strip(before.lines);
      }
    }
  }

  /** After a run whose save succeeded, the file holds exactly the inodes the run touched, if it inserted
      anything, and is untouched otherwise. */
  lemma SessionKeepsTouched(image: Image, s: Session)
    requires s.saving.Saved?
    ensures var start := AfterOpen(s.limit, image);
            var end := Play(start, s.events);
            && (end.dirty ==> Decoded(AfterSession(image, s)).Keys == Touched(start, s.events))
            && (!end.dirty ==> AfterSession(image, s) == image && Strip(end.lines) == Decoded(image))
  {
    OpenSynced(s.limit, image);
    UsedIsTouched(AfterOpen(s.limit, image), s.events);
  }

  predicate InsertsAt(c: CacheState, events: seq<Event>, k: nat)
    requires k < |events|
  {
    events[k].Put? && !events[k].sp.cached && InsertResult(Play(c, events[..k]), events[k].sp).Ok?
  }

  /** Something was inserted: a result that had not come from the cache, and there was room for it. */
  ghost predicate Inserts(c: CacheState, events: seq<Event>) {
    exists k | 0 <= k < |events| :: InsertsAt(c, events, k)
  }

  lemma {:induction false} DirtyExact(c: CacheState, events: seq<Event>)
    ensures Play(c, events).dirty <==> c.dirty || Inserts(c, events)
    decreases |events|
  {
    if events != [] {
      var n := |events| - 1;
      var init := events[..n];
      DirtyExact(c, init);
      assert forall k | 0 <= k < n :: init[..k] == events[..k] && init[k] == events[k];
      if k :| 0 <= k < n && InsertsAt(c, init, k) {
        assert InsertsAt(c, events, k);
      }
      if k :| 0 <= k < |events| && InsertsAt(c, events, k) {
        assert k < n ==> InsertsAt(c, init, k);
      }
      assert Play(c, events) == Apply(Play(c, init), events[n]);
      if Play(c, events).dirty && !Play(c, init).dirty {
        assert InsertsAt(c, events, n);
      }
    }
  }

  /** What a run does to its file, whatever the file held: a new file is always written; any other is left as it is,
      however damaged, unless something was inserted; and what is written, if it can be, are the inodes touched. */
  lemma SessionExact(image: Image, s: Session)
    ensures var start := AfterOpen(s.limit, image);
            if !image.Blank? && !Inserts(start, s.events) then AfterSession(image, s) == image
            else s.saving.Saved? ==>
              AfterSession(image, s).Encoded? && AfterSession(image, s).lines.Keys == Touched(start, s.events)
  {
    var start := AfterOpen(s.limit, image);
    OpenSynced(s.limit, image);
    UsedIsTouched(start, s.events);
    DirtyExact(start, s.events);
  }

  /** A line found after each of several saved, dirtying runs was touched in every one of them. */
  lemma SurvivorTouchedInEveryRun(image: Image, ss: seq<Session>, i: Ino)
    requires forall s | s in ss :: s.saving.Saved?
    requires forall n | 0 < n <= |ss| :: i in Decoded(AfterSessions(image, ss[..n]))
    ensures forall k | 0 <= k < |ss| ::
              var start := AfterOpen(ss[k].limit, AfterSessions(image, ss[..k]));
              Play(start, ss[k].events).dirty ==> i in Touched(start, ss[k].events)
  {
    forall k | 0 <= k < |ss|
      ensures var start := AfterOpen(ss[k].limit, AfterSessions(image, ss[..k]));
              Play(start, ss[k].events).dirty ==> i in Touched(start, ss[k].events)
    {
      assert ss[..k + 1][..k] == ss[..k];
      SessionKeepsTouched(AfterSessions(image, ss[..k]), ss[k]);
    }
  }

  /** An insertion that is not a replay of cached data fails once this many lines are in the map. */
  predicate Full(c: CacheState) {
    c.limit > 0 && |c.lines| >= c.limit
  }

  lemma StepSize(c: CacheState, ev: Event)
    ensures c.lines.Keys <= Apply(c, ev).lines.Keys
    ensures |c.lines| <= |Apply(c, ev).lines| <= |c.lines| + 1
    ensures Full(c) ==> Apply(c, ev).lines.Keys == c.lines.Keys && |Apply(c, ev).lines| == |c.lines|
  {}

  function Max(a: nat, b: nat): nat {
    if a > b then a else b
  }

  /** With a limit, no sequence of lookups and inserts lets the map outgrow both the limit and the loaded
      size; no line is lost before the commit, and a map loaded at or above the limit gets no new inode. */
  lemma {:induction false} SizeBounded(c: CacheState, events: seq<Event>)
    requires c.limit > 0
    ensures |Play(c, events).lines| <= Max(|c.lines|, c.limit)
    ensures c.lines.Keys <= Play(c, events).lines.Keys
    ensures |c.lines| >= c.limit ==> Play(c, events).lines.Keys == c.lines.Keys
  {
    if events != [] {
      var before := Play(c, events[..|events| - 1]);
      SizeBounded(c, events[..|events| - 1]);
      StepSize(before, events[|events| - 1]);
      assert |before.lines| == |before.lines.Keys| && |c.lines| == |c.lines.Keys|;
      assert |Play(c, events).lines| == |Play(c, events).lines.Keys|;
    }
  }

  /** At most limit minus loaded size new inodes are ever added. */
  lemma NewInodesBounded(c: CacheState, events: seq<Event>)
    requires c.limit > 0
    ensures |c.lines| + |Play(c, events).lines.Keys - c.lines.Keys| <= Max(|c.lines|, c.limit)
  {
    SizeBounded(c, events);
    var keys, keys' := c.lines.Keys, Play(c, events).lines.Keys;
    assert keys' == keys + (keys' - keys);
    assert |c.lines| == |keys| && |Play(c, events).lines| == |keys'|;
  }
}
