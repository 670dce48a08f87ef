/** Scanning one entry (`src/scan.rs`). */
module Scanner {
  import opened Wrappers
  import opened StoreRegex
  import opened StorePaths

  const MIN_STOREREF_LEN := 45

  // ---------------------------------------------------------------- the match loop

  /** Leftmost, greedy, non-overlapping iteration: after a match the search resumes at its end.
      It nevertheless reports every position at which the pattern matches. */
  method CapturesIter(t: Bytes) returns (ms: seq<Match>, refs: seq<Bytes>)
    ensures ms == Matches(t, 0)
    ensures refs == Refs(t)
  {
    ms, refs := [], [];
    var at := 0;
    while at < |t|
      invariant 0 <= at <= |t|
      invariant ms + Matches(t, at) == Matches(t, 0)
      invariant refs + RefsFrom(t, at) == Refs(t)
    {
      RefsStep(t, at);
      if StartsAt(t, at) {
        var q := at + 45;
        while q < |t| && NameByte(t[q])
          invariant at + 45 <= q <= |t|
          invariant NameEnd(t, q) == MatchEnd(t, at)
        {
          q := q + 1;
        }
        GreedyIsLongest(t, at, at + 45);
        JumpLosesNothing(t, at, q, at + 1);
        Associate(ms, [Match(at, q)], Matches(t, q));
        Associate(refs, [t[at + 11..q]], RefsFrom(t, q));
        ms, refs := ms + [Match(at, q)], refs + [t[at + 11..q]];
        at := q;
      } else {
        at := at + 1;
      }
    }
  }

  /** The leftmost match only. */
  method FirstCapture(t: Bytes) returns (refs: seq<Bytes>)
    ensures refs == if Refs(t) == [] then [] else [Refs(t)[0]]
  {
    var at := 0;
    while at < |t|
      invariant 0 <= at <= |t|
      invariant RefsFrom(t, at) == Refs(t)
    {
      RefsStep(t, at);
      if StartsAt(t, at) {
        return [t[at + 11..MatchEnd(t, at)]];
      }
      at := at + 1;
    }
    return [];
  }

  // ---------------------------------------------------------------- regular files

  /** `/nix/store/` occurs somewhere in `t`. */
  predicate HasStore(t: Bytes) {
    exists p | 0 <= p < |t| :: StoreAt(t, p)
  }

  /** The references reported for a regular file with these contents. */
  function RegularRefs(data: Bytes, quickcheck: nat): seq<Bytes> {
    if |data| < MIN_STOREREF_LEN then []
    else if quickcheck > 0 && |data| > quickcheck && !HasStore(data[..quickcheck]) then []
    else Refs(data)
  }

  lemma {:induction false} NoStartNoRefs(t: Bytes, p: nat)
    requires forall s: nat | p <= s :: !StartsAt(t, s)
    ensures RefsFrom(t, p) == []
    decreases |t| - p
  {
    RefsStep(t, p);
    if p < |t| {
      NoStartNoRefs(t, p + 1);
    }
  }

  /** The minimum-length shortcut loses nothing, and the bound cannot be raised: 45 bytes may hold a reference. */
  lemma MinimumLength(data: Bytes, r: Bytes)
    ensures |data| < MIN_STOREREF_LEN ==> Refs(data) == []
    ensures WellFormedRef(r) && |r| == 34 ==> |STORE + r| == MIN_STOREREF_LEN && Refs(STORE + r) == [r]
  {
    if |data| < MIN_STOREREF_LEN {
      NoStartNoRefs(data, 0);
    }
    if WellFormedRef(r) {
      RefsOfOne(r);
    }
  }

  /** The quick check yields the full scan or nothing; it loses references exactly when the file is longer
      than the limit, has references, and no occurrence of `/nix/store/` ends within the limit. In that case
      every match starts after byte `quickcheck - 11`. */
  lemma QuickcheckRefines(data: Bytes, quickcheck: nat)
    ensures RegularRefs(data, quickcheck) == Refs(data) || RegularRefs(data, quickcheck) == []
    ensures RegularRefs(data, quickcheck) != Refs(data) <==>
            && 0 < quickcheck < |data|
            && Refs(data) != []
            && forall p: nat | StoreAt(data, p) :: p + 11 > quickcheck
    ensures RegularRefs(data, quickcheck) != Refs(data) ==>
              forall m | m in Matches(data, 0) :: m.start + 11 > quickcheck
  {
    MinimumLength(data, []);
    MatchesExact(data, 0);
    if quickcheck < |data| {
      var head := data[..quickcheck];
      forall p: nat | p + 11 <= quickcheck
        ensures StoreAt(head, p) <==> StoreAt(data, p)
      {
        assert head[p..p + 11] == data[p..p + 11];
      }
      if HasStore(head) {
        var p: nat :| p < |head| && StoreAt(head, p);
        assert StoreAt(data, p) && p + 11 <= quickcheck;
      } else {
        forall p: nat | StoreAt(data, p)
          ensures p + 11 > quickcheck
        {
          assert p + 11 <= quickcheck ==> StoreAt(head, p);
        }
      }
    }
  }

  /** Files below the minimum length are never opened, so their read errors go unnoticed. */
  function RegularResult(data: Bytes, fault: Option<IoKind>, quickcheck: nat): Result<seq<Bytes>, Failure> {
    if fault.Some? && |data| >= MIN_STOREREF_LEN then Err(Io(fault.value))
    else Ok(RegularRefs(data, quickcheck))
  }

  method ScanRegular(data: Bytes, fault: Option<IoKind>, quickcheck: nat) returns (r: Result<seq<Bytes>, Failure>)
    ensures r == RegularResult(data, fault, quickcheck)
  {
    if |data| < MIN_STOREREF_LEN {
      return Ok([]);
    }
    if fault.Some? {
      return Err(Io(fault.value));
    }
    if quickcheck > 0 && |data| > quickcheck && !HasStore(data[..quickcheck]) {
      return Ok([]);
    }
    var _, refs := CapturesIter(data);
    return Ok(refs);
  }

  // ---------------------------------------------------------------- ZIP archives

  /** All references found while the members are appended, one after the other, to `buf`. */
  function ZipRefs(buf: Bytes, members: seq<Bytes>): seq<Bytes>
    decreases |members|
  {
    if members == [] then []
    else Refs(buf + members[0]) + ZipRefs(buf + members[0], members[1..])
  }

  function AsFailure(f: ArchiveFault): Failure {
    match f
    case Unreadable(kind) => Io(kind)
    case Damaged => BadZip
  }

  /** The members before the first unreadable one, and its error. */
  function Readable(members: seq<Result<Bytes, ArchiveFault>>): (seq<Bytes>, Option<ArchiveFault>) {
    if members == [] then ([], None)
    else if members[0].Err? then ([], Some(members[0].error))
    else var (rest, e) := Readable(members[1..]); ([members[0].value] + rest, e)
  }

  function ZipResult(damage: Option<ArchiveFault>, members: seq<Result<Bytes, ArchiveFault>>)
    : Result<seq<Bytes>, Failure>
  {
    if damage.Some? then Err(AsFailure(damage.value))
    else
      var (good, e) := Readable(members);
      if e.Some? then Err(AsFailure(e.value)) else Ok(ZipRefs([], good))
  }

  method ScanZipArchive(damage: Option<ArchiveFault>, members: seq<Result<Bytes, ArchiveFault>>)
    returns (r: Result<seq<Bytes>, Failure>)
    ensures r == ZipResult(damage, members)
  {
    if damage.Some? {
      return Err(AsFailure(damage.value));
    }
    var buf: Bytes, refs: seq<Bytes> := [], [];
    assert members[0..] == members;
    for i := 0 to |members|
      invariant Readable(members).1 == Readable(members[i..]).1
      invariant refs + ZipRefs(buf, Readable(members[i..]).0) == ZipRefs([], Readable(members).0)
    {
      assert members[i..][1..] == members[i + 1..];
      if members[i].Err? {
        return Err(AsFailure(members[i].error));
      }
      buf := buf + members[i].value;
      var _, found := CapturesIter(buf);
      refs := refs + found;
    }
    assert members[|members|..] == [];
    assert refs == ZipRefs([], Readable(members).0);
    return Ok(refs);
  }

  /** `r` occurs in some member on its own. */
  ghost predicate InSomeMember(members: seq<Bytes>, r: Bytes) {
    exists i | 0 <= i < |members| :: r in Refs(members[i])
  }

  /** `r` is captured by a match of `b + e` that begins in `b` and ends in `e`. */
  ghost predicate CrossesInto(b: Bytes, e: Bytes, r: Bytes) {
    exists p: nat ::
      p < |b| && StartsAt(b + e, p) && MatchEnd(b + e, p) > |b| && r == (b + e)[p + 11..MatchEnd(b + e, p)]
  }

  /** `r` is captured by a match that straddles the boundary before one of the members appended to `buf`. */
  ghost predicate Straddles(buf: Bytes, members: seq<Bytes>, r: Bytes)
    decreases |members|
  {
    members != [] && (CrossesInto(buf, members[0], r) || Straddles(buf + members[0], members[1..], r))
  }

  lemma FoundAt(b: Bytes, e: Bytes, s: nat)
    requires StartsAt(b + e, s)
    ensures var r := (b + e)[s + 11..MatchEnd(b + e, s)];
            r in Refs(b) || r in Refs(e) || CrossesInto(b, e, r)
  {
    var r := (b + e)[s + 11..MatchEnd(b + e, s)];
    if s >= |b| {
      StartInSuffix(b, e, s - |b|);
      RefsExact(e, 0, r);
    } else if MatchEnd(b + e, s) <= |b| {
      StartInPrefix(b, e, s);
      RefsExact(b, 0, r);
    }
  }

  lemma AppendFinds(b: Bytes, e: Bytes, r: Bytes)
    requires r in Refs(b + e)
    ensures r in Refs(b) || r in Refs(e) || CrossesInto(b, e, r)
  {
    RefsExact(b + e, 0, r);
    var s: nat :| StartsAt(b + e, s) && r == (b + e)[s + 11..MatchEnd(b + e, s)];
    FoundAt(b, e, s);
  }

  lemma AppendKeeps(b: Bytes, e: Bytes, r: Bytes)
    requires r in Refs(e) || CrossesInto(b, e, r)
    ensures r in Refs(b + e)
  {
    RefsExact(b + e, 0, r);
    if r in Refs(e) {
      RefsExact(e, 0, r);
      var s: nat :| StartsAt(e, s) && r == e[s + 11..MatchEnd(e, s)];
      StartInSuffix(b, e, s);
    }
  }

  lemma RefsOfAppend(b: Bytes, e: Bytes, r: Bytes)
    ensures r in Refs(b + e) ==> r in Refs(b) || r in Refs(e) || CrossesInto(b, e, r)
    ensures r in Refs(e) || CrossesInto(b, e, r) ==> r in Refs(b + e)
  {
    if r in Refs(b + e) { AppendFinds(b, e, r); }
    if r in Refs(e) || CrossesInto(b, e, r) { AppendKeeps(b, e, r); }
  }

  /** The growing buffer, for any start of the buffer. */
  lemma {:induction false} ZipFrom(buf: Bytes, members: seq<Bytes>, r: Bytes)
    ensures r in ZipRefs(buf, members) || r in Refs(buf) <==>
            InSomeMember(members, r) || Straddles(buf, members, r) || r in Refs(buf)
    decreases |members|
  {
    if members != [] {
      var rest := members[1..];
      ZipFrom(buf + members[0], rest, r);
      RefsOfAppend(buf, members[0], r);
      assert InSomeMember(members, r) <==> r in Refs(members[0]) || InSomeMember(rest, r) by {
        assert forall i | 1 <= i < |members| :: members[i] == rest[i - 1];
        if InSomeMember(rest, r) {
          var i :| 0 <= i < |rest| && r in Refs(rest[i]);
          assert r in Refs(members[i + 1]);
        }
      }
    }
  }

  /** An archive scan reports exactly the references of the single members and those of straddling matches. */
  lemma ZipExact(members: seq<Bytes>, r: Bytes)
    ensures r in ZipRefs([], members) <==> InSomeMember(members, r) || Straddles([], members, r)
  {
    ZipFrom([], members, r);
  }

  /** Every member is empty or ends in a byte that no match can contain. */
  predicate SeparatedMembers(members: seq<Bytes>) {
    forall i | 0 <= i < |members| :: members[i] == [] || !Alphabet(members[i][|members[i]| - 1])
  }

  lemma {:induction false} SeparatedNeverStraddle(buf: Bytes, members: seq<Bytes>, r: Bytes)
    requires buf == [] || !Alphabet(buf[|buf| - 1])
    requires SeparatedMembers(members)
    ensures !Straddles(buf, members, r)
    decreases |members|
  {
    if members != [] {
      var t := buf + members[0];
      assert buf != [] ==> t[|buf| - 1] == buf[|buf| - 1];
      if CrossesInto(buf, members[0], r) {
        var p: nat :| p < |buf| && StartsAt(t, p) && MatchEnd(t, p) > |buf|;
        GreedyIsLongest(t, p, p + 45);
        MatchBytes(t, p, MatchEnd(t, p));
      }
      assert t != [] ==> t[|t| - 1] == if members[0] == [] then buf[|buf| - 1] else members[0][|members[0]| - 1];
      SeparatedNeverStraddle(t, members[1..], r);
    }
  }

  /** When is the archive scan the union of the scans of its members? Exactly when straddling matches
      capture nothing new; for separated members they capture nothing at all. */
  lemma ZipIsUnion(members: seq<Bytes>)
    ensures (forall r :: r in ZipRefs([], members) <==> InSomeMember(members, r)) <==>
            (forall r :: Straddles([], members, r) ==> InSomeMember(members, r))
    ensures SeparatedMembers(members) ==> forall r :: r in ZipRefs([], members) <==> InSomeMember(members, r)
  {
    forall r
      ensures r in ZipRefs([], members) <==> InSomeMember(members, r) || Straddles([], members, r)
      ensures SeparatedMembers(members) ==> !Straddles([], members, r)
    {
      ZipExact(members, r);
      if SeparatedMembers(members) {
        SeparatedNeverStraddle([], members, r);
      }
    }
  }

  /** Two members without any reference, whose archive is reported to contain one. */
  lemma ZipInventsReference()
    ensures var zeros := seq(32, _ => 48 as Byte);
            var members := [STORE + zeros, [45, 97]];
            && (forall r :: !InSomeMember(members, r))
            && zeros + [45, 97] in ZipRefs([], members)
  {
    var zeros := seq(32, _ => 48 as Byte);
    var ref := zeros + [45, 97];
    var members := [STORE + zeros, [45, 97]];
    assert WellFormedRef(ref);
    MinimumLength(members[0], ref);
    MinimumLength(members[1], ref);
    assert [] + members[0] == members[0];
    assert members[0] + members[1] == STORE + ref;
    assert members[1..] == [members[1]];
    assert ZipRefs([], members) == Refs(members[0]) + ZipRefs(members[0], members[1..]);
    assert ZipRefs(members[0], members[1..]) == Refs(STORE + ref) + ZipRefs(STORE + ref, []);
  }

  // ---------------------------------------------------------------- sorting and deduplication

  /** Byte-wise lexicographic order: how single path components compare. */
  predicate Less(a: Bytes, b: Bytes) {
    b != [] && (a == [] || a[0] < b[0] || (a[0] == b[0] && Less(a[1..], b[1..])))
  }

  /** Bytes are compared one by one, and a proper prefix comes first. */
  lemma {:induction false} LessExact(a: Bytes, b: Bytes)
    ensures Less(a, b) <==>
            exists k: nat :: k <= |a| && k < |b| && a[..k] == b[..k] && (k == |a| || a[k] < b[k])
    decreases |a|
  {
    if b != [] && a != [] && a[0] == b[0] {
      var a', b' := a[1..], b[1..];
      LessExact(a', b');
      if k: nat :| k <= |a'| && k < |b'| && a'[..k] == b'[..k] && (k == |a'| || a'[k] < b'[k]) {
        assert a[..k + 1] == [a[0]] + a'[..k] && b[..k + 1] == [b[0]] + b'[..k];
      }
      if k: nat :| k <= |a| && k < |b| && a[..k] == b[..k] && (k == |a| || a[k] < b[k]) {
        assert k > 0;
        assert a'[..k - 1] == a[..k][1..] && b'[..k - 1] == b[..k][1..];
      }
    } else if b != [] {
      assert a[..0] == b[..0];
      if k: nat :| k <= |a| && k < |b| && a[..k] == b[..k] && (k == |a| || a[k] < b[k]) {
        assert k > 0 ==> a[..k][0] == b[..k][0];
      }
    }
  }

  lemma {:induction false} LessTotal(a: Bytes, b: Bytes)
    ensures Less(a, b) || a == b || Less(b, a)
    ensures !(Less(a, b) && Less(b, a))
    ensures !Less(a, a)
    decreases |a|
  {
    if a != [] {
      LessTotal(a[1..], a[1..]);
      if b != [] {
        LessTotal(a[1..], b[1..]);
        assert a == [a[0]] + a[1..] && b == [b[0]] + b[1..];
      }
    }
  }

  lemma {:induction false} LessTransitive(a: Bytes, b: Bytes, c: Bytes)
    requires Less(a, b) && Less(b, c)
    ensures Less(a, c)
  {
    if a != [] && a[0] == b[0] == c[0] {
      LessTransitive(a[1..], b[1..], c[1..]);
    }
  }

  predicate StrictlySorted(s: seq<Bytes>) {
    forall i, j | 0 <= i < j < |s| :: Less(s[i], s[j])
  }

  predicate Sorted(s: seq<Bytes>) {
    forall i, j | 0 <= i < j < |s| :: Less(s[i], s[j]) || s[i] == s[j]
  }

  function Insert(r: Bytes, s: seq<Bytes>): (out: seq<Bytes>)
    ensures multiset(out) == multiset(s) + multiset{r}
  {
    if s == [] then [r]
    else if Less(s[0], r) then
      assert s == [s[0]] + s[1..];
      [s[0]] + Insert(r, s[1..])
    else [r] + s
  }

  function SortRefs(s: seq<Bytes>): (out: seq<Bytes>)
    ensures multiset(out) == multiset(s)
  {
    if s == [] then [] else
      assert s == [s[0]] + s[1..];
      Insert(s[0], SortRefs(s[1..]))
  }

  /** Drops every element that equals its predecessor. */
  function DedupRefs(s: seq<Bytes>): (out: seq<Bytes>)
    ensures forall r :: r in out <==> r in s
  {
    if |s| < 2 then s
    else
      assert s == [s[0]] + s[1..];
      if s[0] == s[1] then DedupRefs(s[1..]) else [s[0]] + DedupRefs(s[1..])
  }

  function Canonical(s: seq<Bytes>): seq<Bytes> {
    DedupRefs(SortRefs(s))
  }

  /** A first element that nothing comes before. */
  ghost predicate Leads(r: Bytes, s: seq<Bytes>) {
    forall x | x in s :: Less(r, x) || r == x
  }

  lemma SortedCons(r: Bytes, s: seq<Bytes>)
    requires Sorted(s) && Leads(r, s)
    ensures Sorted([r] + s)
  {}

  lemma LeaderLeads(r: Bytes, s: seq<Bytes>)
    requires Sorted(s) && s != [] && (Less(r, s[0]) || r == s[0])
    ensures Leads(r, s)
  {
    forall x | x in s ensures Less(r, x) || r == x {
      var j :| 0 <= j < |s| && s[j] == x;
      if j > 0 && Less(r, s[0]) && Less(s[0], x) {
        LessTransitive(r, s[0], x);
      }
    }
  }

  lemma {:induction false} InsertSorted(r: Bytes, s: seq<Bytes>)
    requires Sorted(s)
    ensures Sorted(Insert(r, s))
  {
    if s != [] {
      LessTotal(s[0], r);
      if Less(s[0], r) {
        InsertSorted(r, s[1..]);
        LeaderLeads(s[0], s);
        forall x | x in Insert(r, s[1..]) ensures Less(s[0], x) || s[0] == x {
          assert x in multiset(Insert(r, s[1..]));
          assert x == r || x in s[1..];
        }
        SortedCons(s[0], Insert(r, s[1..]));
      } else {
        LeaderLeads(r, s);
        SortedCons(r, s);
      }
    }
  }

  lemma {:induction false} SortSorts(s: seq<Bytes>)
    ensures Sorted(SortRefs(s))
  {
    if s != [] {
      SortSorts(s[1..]);
      InsertSorted(s[0], SortRefs(s[1..]));
    }
  }

  lemma {:induction false} DedupStrict(s: seq<Bytes>)
    requires Sorted(s)
    ensures StrictlySorted(DedupRefs(s))
  {
    if |s| >= 2 {
      var rest := DedupRefs(s[1..]);
      DedupStrict(s[1..]);
      if s[0] != s[1] {
        forall j | 0 <= j < |rest| ensures Less(s[0], rest[j]) {
          assert rest[j] in s[1..];
          var k :| 1 <= k < |s| && s[k] == rest[j];
          if k > 1 && s[1] != s[k] {
            LessTransitive(s[0], s[1], s[k]);
          }
        }
      }
    }
  }

  lemma {:induction false} StrictlySortedUnique(a: seq<Bytes>, b: seq<Bytes>)
    requires StrictlySorted(a) && StrictlySorted(b)
    requires forall r :: r in a <==> r in b
    ensures a == b
  {
    if a == [] {
      assert |b| == |multiset(b)|;
      assert multiset(b) == multiset{} by {
        forall r ensures r !in multiset(b) { assert r in b <==> r in multiset(b); }
      }
    } else {
      assert a[0] in b;
      var k :| 0 <= k < |b| && b[k] == a[0];
      assert b[0] in a;
      var l :| 0 <= l < |a| && a[l] == b[0];
      LessTotal(a[0], b[0]);
      assert a[0] == b[0];
      LessTotal(a[0], a[0]);
      forall r ensures r in a[1..] <==> r in b[1..] {
        assert a == [a[0]] + a[1..] && b == [b[0]] + b[1..];
        if r in a[1..] {
          var i :| 1 <= i < |a| && a[i] == r;
          assert r in a && r != a[0];
        }
        if r in b[1..] {
          var i :| 1 <= i < |b| && b[i] == r;
          assert r in b && r != b[0];
        }
      }
      StrictlySortedUnique(a[1..], b[1..]);
      assert a == [a[0]] + a[1..] && b == [b[0]] + b[1..];
    }
  }

  lemma CanonicalSorted(s: seq<Bytes>)
    ensures StrictlySorted(Canonical(s)) && forall r :: r in Canonical(s) <==> r in s
  {
    SortSorts(s);
    DedupStrict(SortRefs(s));
    forall r ensures r in Canonical(s) <==> r in s {
      assert r in SortRefs(s) <==> r in multiset(SortRefs(s));
      assert r in s <==> r in multiset(s);
    }
  }

  /** Sorting and deduplicating yields the one strictly sorted list of the elements, so the order and
      the multiplicity in which references were found do not matter. */
  lemma CanonicalForm(s: seq<Bytes>, s': seq<Bytes>)
    ensures StrictlySorted(Canonical(s)) && forall r :: r in Canonical(s) <==> r in s
    ensures (forall r :: r in s <==> r in s') <==> Canonical(s) == Canonical(s')
  {
    CanonicalSorted(s);
    CanonicalSorted(s');
    if forall r :: r in s <==> r in s' {
      StrictlySortedUnique(Canonical(s), Canonical(s'));
    }
  }

  // ---------------------------------------------------------------- a whole entry

  /** The raw references of an entry, or the failure that stops its scan. */
  function Scan(e: Entry, quickcheck: nat): Result<seq<Bytes>, Failure> {
    if e.error.HardError? then Err(Traversal)
    else if e.body.Directory? || e.body.Unknown? then Err(FiletypeUnknown)
    else if e.meta.None? then Err(Traversal)
    else match e.body
      case Regular(data, fault) => RegularResult(data, fault, quickcheck)
      case Archive(damage, members) => ZipResult(damage, members)
      case Symlink(target) =>
        if target.Err? then Err(Io(target.error))
        else Ok(if Refs(target.value) == [] then [] else [Refs(target.value)[0]])
  }

  function FindPathsResult(e: Entry, quickcheck: nat): Result<seq<Bytes>, Failure> {
    var r := Scan(e, quickcheck);
    if r.Err? then r else Ok(Canonical(r.value))
  }

  /** Scanning as a function of the entry, as the cache and the walk see it. */
  type ScanFunction = Entry -> Result<seq<Bytes>, Failure>

  function ScannerWith(quickcheck: nat): ScanFunction {
    e => FindPathsResult(e, quickcheck)
  }

  method FindPaths(e: Entry, quickcheck: nat) returns (r: Result<StorePaths, Failure>)
    ensures r.Err? <==> FindPathsResult(e, quickcheck).Err?
    ensures r.Err? ==> r.error == FindPathsResult(e, quickcheck).error
    ensures r.Ok? ==> r.value == StorePaths(e, FindPathsResult(e, quickcheck).value, false)
  {
    var raw: Result<seq<Bytes>, Failure>;
    if e.error.HardError? {
      raw := Err(Traversal);
    } else if e.body.Directory? || e.body.Unknown? {
      raw := Err(FiletypeUnknown);
    } else if e.meta.None? {
      raw := Err(Traversal);
    } else {
      match e.body {
        case Regular(data, fault) => raw := ScanRegular(data, fault, quickcheck);
        case Archive(damage, members) => raw := ScanZipArchive(damage, members);
        case Symlink(target) =>
          if target.Err? {
            raw := Err(Io(target.error));
          } else {
            var refs := FirstCapture(target.value);
            raw := Ok(refs);
          }
      }
    }
    if raw.Err? {
      return Err(raw.error);
    }
    return Ok(StorePaths(e, DedupRefs(SortRefs(raw.value)), false));
  }

  lemma {:induction false} ZipRefsWellFormed(buf: Bytes, members: seq<Bytes>)
    ensures forall r | r in ZipRefs(buf, members) :: WellFormedRef(r)
    decreases |members|
  {
    if members != [] {
      RefsWellFormed(buf + members[0], 0);
      ZipRefsWellFormed(buf + members[0], members[1..]);
    }
  }

  lemma RawRefs(e: Entry, quickcheck: nat)
    requires Scan(e, quickcheck).Ok?
    ensures forall r | r in Scan(e, quickcheck).value :: WellFormedRef(r)
  {
    match e.body {
      case Regular(data, _) => RefsWellFormed(data, 0);
      case Archive(_, members) => ZipRefsWellFormed([], Readable(members).0);
      case Symlink(target) => RefsWellFormed(target.value, 0);
    }
  }

  /** A scan result is strictly sorted and holds well-formed references only. */
  lemma FoundRefs(e: Entry, quickcheck: nat)
    requires FindPathsResult(e, quickcheck).Ok?
    ensures StrictlySorted(FindPathsResult(e, quickcheck).value)
    ensures forall r | r in FindPathsResult(e, quickcheck).value :: WellFormedRef(r)
  {
    CanonicalSorted(Scan(e, quickcheck).value);
    RawRefs(e, quickcheck);
  }

  predicate FirstFault(members: seq<Result<Bytes, ArchiveFault>>, i: nat, f: ArchiveFault)
    requires i < |members|
  {
    members[i] == Err(f) && forall j | 0 <= j < i :: members[j].Ok?
  }

  /** What keeps the contents from being read, before anything else goes wrong with them; files too short to be
      opened have no such fault. */
  ghost predicate FaultIs(body: Body, f: ArchiveFault) {
    match body
    case Regular(data, fault) => |data| >= 45 && fault.Some? && f == Unreadable(fault.value)
    case Symlink(target) => target.Err? && f == Unreadable(target.error)
    case Archive(damage, members) =>
      damage == Some(f) || (damage.None? && exists i | 0 <= i < |members| :: FirstFault(members, i, f))
    case _ => false
  }

  lemma {:induction false} ReadableStopsAt(members: seq<Result<Bytes, ArchiveFault>>, f: ArchiveFault)
    ensures Readable(members).1 == Some(f) <==> exists i | 0 <= i < |members| :: FirstFault(members, i, f)
  {
    if members != [] {
      var rest := members[1..];
      ReadableStopsAt(rest, f);
      if members[0].Err? {
        assert FirstFault(members, 0, members[0].error);
      } else {
        if i :| 0 <= i < |rest| && FirstFault(rest, i, f) {
          assert FirstFault(members, i + 1, f);
        }
        if i :| 0 <= i < |members| && FirstFault(members, i, f) {
          assert FirstFault(rest, i - 1, f);
        }
      }
    }
  }

  lemma ScanFault(e: Entry, quickcheck: nat, f: ArchiveFault)
    ensures !e.error.HardError? && e.meta.Some? && FaultIs(e.body, f) <==>
            FindPathsResult(e, quickcheck) == Err(if f.Damaged? then BadZip else Io(f.kind))
  {
    if e.body.Archive? {
      ReadableStopsAt(e.body.members, f);
    }
  }

  /** Every way a scan can fail, and exactly when: with the error that reading the contents first hits; as a broken
      traversal if the entry came with an error or without metadata; as an unknown type; in no other way. */
  lemma ScanFailures(e: Entry, quickcheck: nat)
    ensures forall k :: FindPathsResult(e, quickcheck) == Err(Io(k)) <==>
                        !e.error.HardError? && e.meta.Some? && FaultIs(e.body, Unreadable(k))
    ensures FindPathsResult(e, quickcheck) == Err(BadZip) <==>
            !e.error.HardError? && e.meta.Some? && FaultIs(e.body, Damaged)
    ensures FindPathsResult(e, quickcheck) == Err(Traversal) <==>
            e.error.HardError? || (!e.body.Directory? && !e.body.Unknown? && e.meta.None?)
    ensures FindPathsResult(e, quickcheck) == Err(FiletypeUnknown) <==>
            !e.error.HardError? && (e.body.Directory? || e.body.Unknown?)
    ensures var r := FindPathsResult(e, quickcheck);
            r != Err(WalkAbort) && r != Err(NoMetadata) && r != Err(CacheFull)
  {
    forall k ensures FindPathsResult(e, quickcheck) == Err(Io(k)) <==>
                     !e.error.HardError? && e.meta.Some? && FaultIs(e.body, Unreadable(k))
    {
      ScanFault(e, quickcheck, Unreadable(k));
    }
    ScanFault(e, quickcheck, Damaged);
  }

  // ---------------------------------------------------------------- what a successful scan finds

  lemma {:induction false} SkipTo(t: Bytes, p: nat, s: nat)
    requires p <= s <= |t| && forall q: nat | p <= q < s :: !StartsAt(t, q)
    ensures RefsFrom(t, p) == RefsFrom(t, s)
    decreases s - p
  {
    if p < s {
      RefsStep(t, p);
      SkipTo(t, p + 1, s);
    }
  }

  lemma {:induction false} LeastStart(t: Bytes, p: nat) returns (s: nat)
    requires StartsAt(t, p)
    ensures s <= p && StartsAt(t, s) && forall q: nat | q < s :: !StartsAt(t, q)
  {
    if q: nat :| q < p && StartsAt(t, q) {
      s := LeastStart(t, q);
    } else {
      s := p;
    }
  }

  /** `refs` is what the first match in the text captures, or nothing if there is no match. */
  ghost predicate FirstOnly(t: Bytes, refs: seq<Bytes>) {
    if refs == [] then forall p: nat :: !StartsAt(t, p)
    else exists p: nat :: StartsAt(t, p) && (forall q: nat | q < p :: !StartsAt(t, q))
                          && refs == [t[p + 11..MatchEnd(t, p)]]
  }

  lemma FirstOfRefs(t: Bytes)
    ensures FirstOnly(t, if Refs(t) == [] then [] else [Refs(t)[0]])
  {
    if p: nat :| StartsAt(t, p) {
      var s := LeastStart(t, p);
      SkipTo(t, 0, s);
      RefsStep(t, s);
    } else {
      NoStartNoRefs(t, 0);
    }
  }

  lemma CanonicalShort(s: seq<Bytes>)
    requires |s| <= 1
    ensures Canonical(s) == s
  {
    if s != [] {
      assert s[1..] == [] && SortRefs(s) == Insert(s[0], []) == s;
    }
  }

  /** A symlink that can be read yields what its first match captures, or nothing if there is no match. */
  lemma SymlinkScan(e: Entry, quickcheck: nat)
    requires !e.error.HardError? && e.meta.Some? && e.body.Symlink? && e.body.target.Ok?
    ensures FindPathsResult(e, quickcheck).Ok?
    ensures FirstOnly(e.body.target.value, FindPathsResult(e, quickcheck).value)
  {
    var refs := Refs(e.body.target.value);
    FirstOfRefs(e.body.target.value);
    CanonicalShort(if refs == [] then [] else [refs[0]]);
  }

  /** A regular file that can be read, or is too short to be opened, yields what its matches capture, unless the
      quick check ends the scan: no occurrence of `/nix/store/` ends within the limit. */
  lemma RegularScan(e: Entry, quickcheck: nat, r: Bytes)
    requires !e.error.HardError? && e.meta.Some? && e.body.Regular? && (e.body.fault.None? || |e.body.data| < 45)
    ensures FindPathsResult(e, quickcheck).Ok?
    ensures var data := e.body.data;
            r in FindPathsResult(e, quickcheck).value <==>
            && (exists p: nat :: StartsAt(data, p) && r == data[p + 11..MatchEnd(data, p)])
            && !(0 < quickcheck < |data| && forall p: nat | StoreAt(data, p) :: p + 11 > quickcheck)
  {
    var data := e.body.data;
    QuickcheckRefines(data, quickcheck);
    RefsExact(data, 0, r);
    CanonicalSorted(RegularRefs(data, quickcheck));
  }

  /** The contents of readable members. */
  function Contents(members: seq<Result<Bytes, ArchiveFault>>): (contents: seq<Bytes>)
    requires forall i | 0 <= i < |members| :: members[i].Ok?
    ensures |contents| == |members| && forall i | 0 <= i < |members| :: contents[i] == members[i].value
  {
    seq(|members|, i requires 0 <= i < |members| => members[i].value)
  }

  lemma {:induction false} AllReadable(members: seq<Result<Bytes, ArchiveFault>>)
    requires forall i | 0 <= i < |members| :: members[i].Ok?
    ensures Readable(members) == (Contents(members), None)
  {
    if members != [] {
      AllReadable(members[1..]);
      assert Contents(members) == [members[0].value] + Contents(members[1..]);
    }
  }

  lemma ReadableZip(members: seq<Result<Bytes, ArchiveFault>>)
    requires forall i | 0 <= i < |members| :: members[i].Ok?
    ensures ZipResult(None, members) == Ok(ZipRefs([], Contents(members)))
  {
    AllReadable(members);
  }

  lemma ArchiveIsZip(e: Entry, quickcheck: nat)
    requires !e.error.HardError? && e.meta.Some? && e.body.Archive? && ZipResult(e.body.damage, e.body.members).Ok?
    ensures FindPathsResult(e, quickcheck) == Ok(Canonical(ZipResult(e.body.damage, e.body.members).value))
  {}

  /** An archive that can be read yields the references of its members and those that straddle their boundaries. */
  lemma ArchiveScan(e: Entry, quickcheck: nat, r: Bytes)
    requires !e.error.HardError? && e.meta.Some? && e.body.Archive? && e.body.damage.None?
    requires forall i | 0 <= i < |e.body.members| :: e.body.members[i].Ok?
    ensures FindPathsResult(e, quickcheck).Ok?
    ensures var contents := Contents(e.body.members);
            r in FindPathsResult(e, quickcheck).value <==> InSomeMember(contents, r) || Straddles([], contents, r)
  {
    ReadableZip(e.body.members);
    ArchiveIsZip(e, quickcheck);
    var raw := ZipRefs([], Contents(e.body.members));
    assert r in Canonical(raw) <==> r in raw by {
      CanonicalSorted(raw);
    }
    ZipExact(Contents(e.body.members), r);
  }
}
