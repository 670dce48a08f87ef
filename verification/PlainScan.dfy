/** What the plain sequential scan finds, and when it gives up, in terms of the tree alone. */
module PlainScan {
  import opened StorePaths
  import opened Scanner
  import opened Walk

  // ---------------------------------------------------------------- when it gives up

  /** With the real scanner, an entry stops the walk exactly if it came with an error; if it has contents but no
      metadata; if its contents are refused for lack of permission; or if it was scanned, on the start device, but
      has no inode number to be cached under. In particular sockets, vanished files, damaged archives and other
      read errors do not stop it, and nor does an unreadable file that is too short to be opened. */
  lemma VisitQuitsIff(cfg: Config, e: Entry, quickcheck: nat)
    requires cfg.scan == ScannerWith(quickcheck)
    ensures VisitEntry(cfg, e).Quits? <==>
            || e.error.HardError?
            || (!e.body.Directory? && !e.body.Unknown? && e.meta.None?)
            || FaultIs(e.body, Unreadable(PermissionDenied))
            || (!e.body.Directory? && e.ino.None? && Fetch(cfg, e).Ok? && e.meta.value.dev == cfg.startdev)
  {
    ScanFailures(e, quickcheck);
  }

  /** The walk comes by this part of the tree. */
  ghost predicate Visited(cfg: Config, t: Tree, u: Tree) {
    t == u || (t.Item? && VisitEntry(cfg, t.entry).Goes? && exists k | k in t.kids :: Visited(cfg, k, u))
  }

  /** The walk stops there. */
  ghost predicate StopsAt(cfg: Config, u: Tree) {
    u.WalkError? || VisitEntry(cfg, u.entry).Quits?
  }

  lemma {:induction false} GivesUpExact(cfg: Config, t: Tree)
    ensures GivesUp(cfg, t) <==> exists u :: Visited(cfg, t, u) && StopsAt(cfg, u)
    decreases t
  {
    assert Visited(cfg, t, t);
    if t.Item? && VisitEntry(cfg, t.entry).Goes? {
      forall k | k in t.kids
        ensures GivesUp(cfg, k) <==> exists u :: Visited(cfg, k, u) && StopsAt(cfg, u)
      {
        GivesUpExact(cfg, k);
      }
      if k :| k in t.kids && GivesUp(cfg, k) {
        var u :| Visited(cfg, k, u) && StopsAt(cfg, u);
        assert Visited(cfg, t, u);
      }
      if u :| Visited(cfg, t, u) && StopsAt(cfg, u) {
        var k :| k in t.kids && Visited(cfg, k, u);
        assert GivesUp(cfg, k);
      }
    }
  }

  // ---------------------------------------------------------------- what it finds

  /** Only directories contain anything. */
  ghost predicate FoldersOnly(t: Tree) {
    t.Item? ==> (t.kids != [] ==> t.entry.body.Directory?) && forall k | k in t.kids :: FoldersOnly(k)
  }

  /** Only directories with metadata contain anything. */
  ghost predicate RealTree(t: Tree) {
    t.Item? ==>
      && (t.kids != [] ==> t.entry.body.Directory? && t.entry.meta.Some?)
      && forall k | k in t.kids :: RealTree(k)
  }

  predicate Here(cfg: Config, e: Entry) {
    e.meta.Some? && e.meta.value.dev == cfg.startdev
  }

  /** The entry is on the start device, and nothing above it is known to be on another one. */
  ghost predicate Unbarred(cfg: Config, t: Tree, e: Entry) {
    t.Item? && (
      || (t.entry == e && Here(cfg, e))
      || ((t.entry.meta.None? || Here(cfg, t.entry)) && exists k | k in t.kids :: Unbarred(cfg, k, e)))
  }

  /** The entry and everything above it are on the start device. */
  ghost predicate OnStartDevice(cfg: Config, t: Tree, e: Entry) {
    t.Item? && Here(cfg, t.entry) && (t.entry == e || exists k | k in t.kids :: OnStartDevice(cfg, k, e))
  }

  /** The entry can be scanned and holds some reference, and `x` says which. */
  predicate Found(cfg: Config, e: Entry, x: StorePaths) {
    && !e.body.Directory? && cfg.scan(e).Ok? && cfg.scan(e).value != []
    && x == StorePaths(e, cfg.scan(e).value, false)
  }

  lemma {:induction false} ScanMember(cfg: Config, ts: seq<Tree>, x: StorePaths)
    ensures x in ScanTrees(cfg, ts) <==> exists t | t in ts :: x in ScanTree(cfg, t)
  {
    if ts != [] {
      ScanMember(cfg, ts[1..], x);
      assert x in ScanTrees(cfg, ts) <==> x in ScanTree(cfg, ts[0]) || x in ScanTrees(cfg, ts[1..]);
      if t :| t in ts && x in ScanTree(cfg, t) {
        assert t == ts[0] || t in ts[1..];
      }
      if t :| t in ts[1..] && x in ScanTree(cfg, t) {
        assert t in ts;
      }
      assert ts[0] in ts;
    }
  }

  /** Unless it gives up, the plain scan finds exactly what the entries hold that are on the start device and not
      below something known to be elsewhere; whatever else in the tree cannot be read. */
  lemma {:induction false} PlainScanReached(cfg: Config, t: Tree, x: StorePaths)
    requires !GivesUp(cfg, t) && FoldersOnly(t)
    ensures x in ScanTree(cfg, t) <==>
            exists e :: Unbarred(cfg, t, e) && !e.body.Directory? && cfg.scan(e).Ok? && cfg.scan(e).value != []
                        && x == StorePaths(e, cfg.scan(e).value, false)
    decreases t
  {
    var v := VisitEntry(cfg, t.entry);
    if v.Goes? {
      forall k | k in t.kids
        ensures x in ScanTree(cfg, k) <==> exists e :: Unbarred(cfg, k, e) && Found(cfg, e, x)
      {
        PlainScanReached(cfg, k, x);
      }
      ScanMember(cfg, t.kids, x);
      if x in v.found {
        assert Unbarred(cfg, t, t.entry);
      }
      if k :| k in t.kids && x in ScanTree(cfg, k) {
        var e :| Unbarred(cfg, k, e) && Found(cfg, e, x);
        assert Unbarred(cfg, t, e);
      }
    }
    if e :| Unbarred(cfg, t, e) && Found(cfg, e, x) {
      if !(t.entry == e && Here(cfg, e)) {
        var k :| k in t.kids && Unbarred(cfg, k, e);
        assert x in ScanTree(cfg, k);
      }
    }
  }

  lemma {:induction false} UnbarredIsOnDevice(cfg: Config, t: Tree, e: Entry)
    requires RealTree(t)
    ensures FoldersOnly(t)
    ensures Unbarred(cfg, t, e) <==> OnStartDevice(cfg, t, e)
    decreases t
  {
    if t.Item? {
      forall k | k in t.kids
        ensures FoldersOnly(k) && (Unbarred(cfg, k, e) <==> OnStartDevice(cfg, k, e))
      {
        UnbarredIsOnDevice(cfg, k, e);
      }
    }
  }

  /** Unless it gives up, the plain scan finds exactly what the entries hold that are, with everything above
      them, on the start device. */
  lemma PlainScanExact(cfg: Config, t: Tree, x: StorePaths)
    requires !GivesUp(cfg, t) && RealTree(t)
    ensures x in ScanTree(cfg, t) <==>
            exists e :: OnStartDevice(cfg, t, e) && !e.body.Directory? && cfg.scan(e).Ok? && cfg.scan(e).value != []
                        && x == StorePaths(e, cfg.scan(e).value, false)
  {
    forall e ensures FoldersOnly(t) && (Unbarred(cfg, t, e) <==> OnStartDevice(cfg, t, e)) {
      UnbarredIsOnDevice(cfg, t, e);
    }
    UnbarredIsOnDevice(cfg, t, x.entry);
    PlainScanReached(cfg, t, x);
  }

  // ---------------------------------------------------------------- how often it finds it

  /** At how many places the entry occurs with everything above it on the start device. */
  function Occurrences(cfg: Config, t: Tree, e: Entry): nat {
    if t.Item? && Here(cfg, t.entry) then (if t.entry == e then 1 else 0) + AllOccurrences(cfg, t.kids, e) else 0
  }

  function AllOccurrences(cfg: Config, ts: seq<Tree>, e: Entry): nat {
    if ts == [] then 0 else Occurrences(cfg, ts[0], e) + AllOccurrences(cfg, ts[1..], e)
  }

  /** Unless it gives up, the plain scan reports what an entry holds once for every such place. */
  lemma {:induction false} PlainScanCounts(cfg: Config, t: Tree, x: StorePaths)
    requires !GivesUp(cfg, t) && RealTree(t)
    ensures multiset(ScanTree(cfg, t))[x] ==
            if !x.entry.body.Directory? && cfg.scan(x.entry).Ok? && cfg.scan(x.entry).value != []
               && x == StorePaths(x.entry, cfg.scan(x.entry).value, false)
            then Occurrences(cfg, t, x.entry) else 0
    decreases t
  {
    if t.Item? && VisitEntry(cfg, t.entry).Goes? {
      PlainScansCount(cfg, t.kids, x);
    }
  }

  lemma {:induction false} PlainScansCount(cfg: Config, ts: seq<Tree>, x: StorePaths)
    requires forall t | t in ts :: !GivesUp(cfg, t) && RealTree(t)
    ensures multiset(ScanTrees(cfg, ts))[x] == if Found(cfg, x.entry, x) then AllOccurrences(cfg, ts, x.entry) else 0
    decreases ts
  {
    if ts != [] {
      PlainScanCounts(cfg, ts[0], x);
      PlainScansCount(cfg, ts[1..], x);
    }
  }

  // ---------------------------------------------------------------- what it reports

  /** How many problems an entry is good for that does not stop the walk: none if it vanished or is of an unknown type;
      one if its contents cannot be read for another reason, or an archive is damaged; otherwise one for a partial
      error, and one for a directory without metadata. */
  ghost function Reported(e: Entry): nat {
    if e.body.Unknown? || FaultIs(e.body, Unreadable(NotFound)) then 0
    else if FaultIs(e.body, Unreadable(OtherIo)) || FaultIs(e.body, Damaged) then 1
    else (if e.error.PartialError? then 1 else 0) + if e.body.Directory? && e.meta.None? then 1 else 0
  }

  lemma ScanGoodFor(e: Entry, quickcheck: nat)
    requires !e.body.Directory?
    ensures match FindPathsResult(e, quickcheck)
            case Ok(_) => e.meta.Some? && Reported(e) == if e.error.PartialError? then 1 else 0
            case Err(f) =>
              && (f == Io(NotFound) || f == FiletypeUnknown ==> Reported(e) == 0)
              && (f == Io(OtherIo) || f == BadZip ==> Reported(e) == 1)
              && f in {Io(NotFound), Io(OtherIo), Io(PermissionDenied), FiletypeUnknown, BadZip, Traversal}
  {
    ScanFailures(e, quickcheck);
    match FindPathsResult(e, quickcheck) {
      case Err(Io(PermissionDenied)) =>
      case Err(Io(NotFound)) =>
      case Err(Io(OtherIo)) =>
      case _ =>
    }
  }

  /** The directory is on another device. */
  predicate Elsewhere(cfg: Config, e: Entry) {
    e.body.Directory? && e.meta.Some? && e.meta.value.dev != cfg.startdev
  }

  /** What the plain scan reports at an entry and below it: nothing below a directory on another device, and nothing at
      all where a failed scan makes it give up. */
  lemma ProblemsExact(cfg: Config, e: Entry, kids: seq<Tree>, quickcheck: nat)
    requires cfg.scan == ScannerWith(quickcheck) && FoldersOnly(Item(e, kids))
    ensures !GivesUp(cfg, Item(e, kids)) ==>
              Problems(cfg, Item(e, kids)) == Reported(e) + if Elsewhere(cfg, e) then 0 else AllProblems(cfg, kids)
    ensures !e.body.Directory? && !e.body.Unknown?
            && (e.error.HardError? || e.meta.None? || FaultIs(e.body, Unreadable(PermissionDenied))) ==>
              Problems(cfg, Item(e, kids)) == 0
  {
    ScanFailures(e, quickcheck);
  }

  /** The plain scan comes by the entry. */
  ghost predicate Reached(cfg: Config, t: Tree, e: Entry) {
    t.Item? && (t.entry == e || (!Elsewhere(cfg, t.entry) && exists k | k in t.kids :: Reached(cfg, k, e)))
  }

  lemma NoneOfThem(cfg: Config, t: Tree)
    requires FoldersOnly(t) && !GivesUp(cfg, t) && t.Item? && t.kids != [] && !Elsewhere(cfg, t.entry)
    ensures forall k | k in t.kids :: !GivesUp(cfg, k) && FoldersOnly(k)
  {}

  /** Something is reported exactly if the scan comes by an entry that is good for a problem. */
  lemma {:induction false} SomethingReported(cfg: Config, t: Tree, quickcheck: nat)
    requires cfg.scan == ScannerWith(quickcheck) && FoldersOnly(t) && !GivesUp(cfg, t)
    ensures Problems(cfg, t) > 0 <==> exists e :: Reached(cfg, t, e) && Reported(e) > 0
    decreases t
  {
    ProblemsExact(cfg, t.entry, t.kids, quickcheck);
    assert t == Item(t.entry, t.kids);
    assert Reached(cfg, t, t.entry);
    if !Elsewhere(cfg, t.entry) && t.kids != [] {
      NoneOfThem(cfg, t);
      SomeReported(cfg, t.kids, quickcheck);
      if k, e :| k in t.kids && Reached(cfg, k, e) && Reported(e) > 0 {
        assert Reached(cfg, t, e);
      }
    }
  }

  lemma {:induction false} SomeReported(cfg: Config, ts: seq<Tree>, quickcheck: nat)
    requires cfg.scan == ScannerWith(quickcheck) && forall t | t in ts :: FoldersOnly(t) && !GivesUp(cfg, t)
    ensures AllProblems(cfg, ts) > 0 <==> exists t, e :: t in ts && Reached(cfg, t, e) && Reported(e) > 0
    decreases ts
  {
    if ts != [] {
      SomethingReported(cfg, ts[0], quickcheck);
      SomeReported(cfg, ts[1..], quickcheck);
      assert forall t :: t in ts <==> t == ts[0] || t in ts[1..];
    }
  }
}
