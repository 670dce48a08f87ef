/** The one regular expression of the scanner, `/nix/store/([0-9a-z]{32}-[0-9a-zA-Z+._?=-]+)`:
    its meaning as a language, its greedy match at a position, and the list of all matches. */
module StoreRegex {

  newtype Byte = x: int | 0 <= x < 256

  type Bytes = seq<Byte>

  const SLASH: Byte := 47
  const DASH: Byte := 45

  /** The text `/nix/store/`. */
  const STORE: Bytes := [47, 110, 105, 120, 47, 115, 116, 111, 114, 101, 47]

  /** `[0-9a-z]` */
  predicate HashByte(b: Byte) {
    48 <= b <= 57 || 97 <= b <= 122
  }

  /** `[0-9a-zA-Z+._?=-]` */
  predicate NameByte(b: Byte) {
    HashByte(b) || 65 <= b <= 90 || b == 43 || b == 46 || b == 95 || b == 63 || b == 61 || b == DASH
  }

  /** The bytes that can occur anywhere in a match. */
  predicate Alphabet(b: Byte) {
    NameByte(b) || b == SLASH
  }

  // ---------------------------------------------------------------- the language

  datatype ByteClass = HashClass | NameClass

  datatype Regex =
    | Text(text: Bytes)
    | OneOf(cls: ByteClass)
    | Then(first: Regex, second: Regex)
    | Repeat(body: Regex, times: nat)
    | Plus(body: Regex)

  /** The capture group, with a hash of `n` bytes. */
  function Group(n: nat): Regex {
    Then(Repeat(OneOf(HashClass), n), Then(Text([DASH]), Plus(OneOf(NameClass))))
  }

  const STORE_RE: Regex := Then(Text(STORE), Group(32))

  predicate InClass(c: ByteClass, b: Byte) {
    match c
    case HashClass => HashByte(b)
    case NameClass => NameByte(b)
  }

  /** `s` belongs to the language of `re`. */
  ghost predicate Denotes(re: Regex, s: Bytes)
    decreases re, 0
  {
    match re
    case Text(text) => s == text
    case OneOf(c) => |s| == 1 && InClass(c, s[0])
    case Then(a, b) => exists k :: 0 <= k <= |s| && Denotes(a, s[..k]) && Denotes(b, s[k..])
    case Repeat(body, n) => DenotesPower(body, n, s)
    case Plus(body) => exists n: nat :: n >= 1 && DenotesPower(body, n, s)
  }

  ghost predicate DenotesPower(body: Regex, n: nat, s: Bytes)
    decreases body, n + 1
  {
    if n == 0 then s == []
    else exists k :: 0 <= k <= |s| && Denotes(body, s[..k]) && DenotesPower(body, n - 1, s[k..])
  }

  // ---------------------------------------------------------------- matching at a position

  predicate HashRun(t: Bytes, lo: nat, hi: nat)
    requires hi <= |t|
  {
    forall i | lo <= i < hi :: HashByte(t[i])
  }

  predicate NameRun(t: Bytes, lo: nat, hi: nat)
    requires hi <= |t|
  {
    forall i | lo <= i < hi :: NameByte(t[i])
  }

  predicate StoreAt(t: Bytes, p: nat) {
    p + 11 <= |t| && t[p..p + 11] == STORE
  }

  /** The pattern matches exactly the bytes from `p` up to `q`. */
  predicate MatchAt(t: Bytes, p: nat, q: nat) {
    && p + 45 <= q <= |t|
    && StoreAt(t, p)
    && HashRun(t, p + 11, p + 43)
    && t[p + 43] == DASH
    && NameRun(t, p + 44, q)
  }

  /** A match begins at `p`. */
  predicate StartsAt(t: Bytes, p: nat) {
    p + 45 <= |t| && MatchAt(t, p, p + 45)
  }

  /** The first position from `i` on that is not a name byte. */
  function NameEnd(t: Bytes, i: nat): (e: nat)
    requires i <= |t|
    ensures i <= e <= |t|
    ensures NameRun(t, i, e)
    ensures e < |t| ==> !NameByte(t[e])
    decreases |t| - i
  {
    if i < |t| && NameByte(t[i]) then NameEnd(t, i + 1) else i
  }

  /** Where the greedy match that starts at `p` ends. */
  function MatchEnd(t: Bytes, p: nat): (e: nat)
    requires StartsAt(t, p)
    ensures p + 45 <= e <= |t|
  {
    NameEnd(t, p + 45)
  }

  /** The capture group, for a hash of `n` bytes: hash, dash, and at least one name byte. */
  predicate GroupShape(n: nat, s: Bytes) {
    |s| >= n + 2 && HashRun(s, 0, n) && s[n] == DASH && NameRun(s, n + 1, |s|)
  }

  /** A reference as the capture group delivers it. */
  predicate WellFormedRef(r: Bytes) {
    GroupShape(32, r)
  }

  lemma {:induction false} PowerOfClass(c: ByteClass, n: nat, s: Bytes)
    ensures DenotesPower(OneOf(c), n, s) <==> |s| == n && forall i | 0 <= i < n :: InClass(c, s[i])
  {
    if n > 0 {
      if DenotesPower(OneOf(c), n, s) {
        var k :| 0 <= k <= |s| && Denotes(OneOf(c), s[..k]) && DenotesPower(OneOf(c), n - 1, s[k..]);
        PowerOfClass(c, n - 1, s[k..]);
        assert s == s[..k] + s[k..] && k == 1;
      }
      if |s| == n && forall i | 0 <= i < n :: InClass(c, s[i]) {
        PowerOfClass(c, n - 1, s[1..]);
        assert Denotes(OneOf(c), s[..1]) && DenotesPower(OneOf(c), n - 1, s[1..]);
      }
    }
  }

  lemma TailLanguage(s: Bytes)
    ensures Denotes(Then(Text([DASH]), Plus(OneOf(NameClass))), s) <==>
            |s| >= 2 && s[0] == DASH && NameRun(s, 1, |s|)
  {
    var tail := Plus(OneOf(NameClass));
    if Denotes(Then(Text([DASH]), tail), s) {
      var k :| 0 <= k <= |s| && Denotes(Text([DASH]), s[..k]) && Denotes(tail, s[k..]);
      assert s[..k][0] == s[0] && k == 1;
      var n: nat :| n >= 1 && DenotesPower(OneOf(NameClass), n, s[1..]);
      PowerOfClass(NameClass, n, s[1..]);
      forall i | 1 <= i < |s| ensures NameByte(s[i]) { assert s[i] == s[1..][i - 1]; }
    }
    if |s| >= 2 && s[0] == DASH && NameRun(s, 1, |s|) {
      PowerOfClass(NameClass, |s| - 1, s[1..]);
      assert Denotes(tail, s[1..]);
      assert s[..1] == [DASH];
    }
  }

  lemma GroupToShape(n: nat, s: Bytes)
    requires Denotes(Group(n), s)
    ensures GroupShape(n, s)
  {
    var a, b := Repeat(OneOf(HashClass), n), Then(Text([DASH]), Plus(OneOf(NameClass)));
    var k :| 0 <= k <= |s| && Denotes(a, s[..k]) && Denotes(b, s[k..]);
    PowerOfClass(HashClass, n, s[..k]);
    TailLanguage(s[k..]);
    forall i | 0 <= i < n ensures HashByte(s[i]) { assert s[i] == s[..k][i]; }
    forall i | n + 1 <= i < |s| ensures NameByte(s[i]) { assert s[i] == s[k..][i - n]; }
  }

  lemma ShapeToGroup(n: nat, s: Bytes)
    requires GroupShape(n, s)
    ensures Denotes(Group(n), s)
  {
    PowerOfClass(HashClass, n, s[..n]);
    assert Denotes(Repeat(OneOf(HashClass), n), s[..n]);
    TailLanguage(s[n..]);
  }

  lemma StoreLanguage(n: nat, s: Bytes)
    ensures Denotes(Then(Text(STORE), Group(n)), s) <==> |s| >= 11 && s[..11] == STORE && GroupShape(n, s[11..])
  {
    if Denotes(Then(Text(STORE), Group(n)), s) {
      var k :| 0 <= k <= |s| && Denotes(Text(STORE), s[..k]) && Denotes(Group(n), s[k..]);
      assert k == |s[..k]| == 11;
      GroupToShape(n, s[k..]);
    }
    if |s| >= 11 && s[..11] == STORE && GroupShape(n, s[11..]) {
      ShapeToGroup(n, s[11..]);
      assert Denotes(Text(STORE), s[..11]);
    }
  }

  lemma MatchIsShape(t: Bytes, p: nat, q: nat)
    requires p + 11 <= q <= |t|
    ensures MatchAt(t, p, q) <==> StoreAt(t, p) && WellFormedRef(t[p + 11..q])
  {}

  /** The positional predicate is membership in the language of the regular expression. */
  lemma MatchIsLanguage(t: Bytes, p: nat, q: nat)
    requires p <= q <= |t|
    ensures MatchAt(t, p, q) <==> Denotes(STORE_RE, t[p..q])
  {
    var s := t[p..q];
    StoreLanguage(32, s);
    if |s| >= 11 {
      assert s[..11] == t[p..p + 11];
      MatchIsShape(t, p, q);
    }
  }

  /** The greedy end is the end of the longest match at `p`. */
  lemma GreedyIsLongest(t: Bytes, p: nat, q: nat)
    requires MatchAt(t, p, q)
    ensures StartsAt(t, p) && q <= MatchEnd(t, p) && MatchAt(t, p, MatchEnd(t, p))
  {}

  // ---------------------------------------------------------------- where slashes can be

  lemma StoreBytes(t: Bytes, p: nat)
    requires StoreAt(t, p)
    ensures t[p] == SLASH && t[p + 4] == SLASH && t[p + 10] == SLASH
    ensures t[p + 1] == 110 && t[p + 5] == 115
    ensures forall i | p <= i < p + 11 && t[i] == SLASH :: i == p || i == p + 4 || i == p + 10
    ensures forall i | p <= i < p + 11 :: Alphabet(t[i])
  {
    assert forall i | 0 <= i < 11 :: t[p + i] == STORE[i];
    forall i | p <= i < p + 11
      ensures Alphabet(t[i])
      ensures t[i] == SLASH ==> i == p || i == p + 4 || i == p + 10
    {
      assert t[i] == STORE[i - p];
    }
  }

  /** Every byte of a match lies in the alphabet; slashes occur in the store prefix only. */
  lemma MatchBytes(t: Bytes, p: nat, q: nat)
    requires MatchAt(t, p, q)
    ensures forall i | p <= i < q :: Alphabet(t[i])
    ensures forall i | p <= i < q && t[i] == SLASH :: i == p || i == p + 4 || i == p + 10
  {}

  /** No match begins inside another one. */
  lemma NoOverlap(t: Bytes, p: nat, q: nat, p': nat)
    requires MatchAt(t, p, q) && p < p' < q
    ensures !StartsAt(t, p')
  {
    MatchBytes(t, p, q);
    StoreBytes(t, p);
    assert HashByte(t[p + 14]);
    if StartsAt(t, p') {
      StoreBytes(t, p');
    }
  }

  // ---------------------------------------------------------------- all matches

  datatype Match = Match(start: nat, end: nat)

  predicate Within(t: Bytes, m: Match) {
    m.start + 45 <= m.end <= |t|
  }

  /** Every position from `p` on at which the pattern matches, with its greedy end: no position is skipped. */
  function Matches(t: Bytes, p: nat): (ms: seq<Match>)
    ensures forall m | m in ms :: Within(t, m)
    decreases |t| - p
  {
    if p >= |t| then []
    else if StartsAt(t, p) then [Match(p, MatchEnd(t, p))] + Matches(t, p + 1)
    else Matches(t, p + 1)
  }

  /** Capture group 1 of a match. */
  function Capture(t: Bytes, m: Match): Bytes
    requires Within(t, m)
  {
    t[m.start + 11..m.end]
  }

  function Captures(t: Bytes, ms: seq<Match>): seq<Bytes>
    requires forall m | m in ms :: Within(t, m)
  {
    if ms == [] then [] else [Capture(t, ms[0])] + Captures(t, ms[1..])
  }

  /** The references captured from position `p` on. */
  function RefsFrom(t: Bytes, p: nat): seq<Bytes> {
    Captures(t, Matches(t, p))
  }

  function Refs(t: Bytes): seq<Bytes> {
    RefsFrom(t, 0)
  }

  lemma RefsStep(t: Bytes, p: nat)
    ensures RefsFrom(t, p) ==
            if p >= |t| then []
            else if StartsAt(t, p) then [t[p + 11..MatchEnd(t, p)]] + RefsFrom(t, p + 1)
            else RefsFrom(t, p + 1)
  {
    if p < |t| && StartsAt(t, p) {
      assert Matches(t, p)[1..] == Matches(t, p + 1);
    }
  }

  lemma {:induction false} CapturesExact(t: Bytes, ms: seq<Match>, r: Bytes)
    requires forall m | m in ms :: Within(t, m)
    ensures r in Captures(t, ms) <==> exists m | m in ms :: r == Capture(t, m)
  {
    if ms != [] {
      CapturesExact(t, ms[1..], r);
      assert forall m :: m in ms <==> m == ms[0] || m in ms[1..];
    }
  }

  /** `Matches` lists exactly the matching positions, in order, and the matches are disjoint. */
  lemma {:induction false} MatchesExact(t: Bytes, p: nat)
    ensures forall m :: m in Matches(t, p) <==> p <= m.start && StartsAt(t, m.start) && m.end == MatchEnd(t, m.start)
    ensures forall i, j | 0 <= i < j < |Matches(t, p)| :: Matches(t, p)[i].end <= Matches(t, p)[j].start
    decreases |t| - p
  {
    if p < |t| {
      var rest := Matches(t, p + 1);
      MatchesExact(t, p + 1);
      if StartsAt(t, p) {
        GreedyIsLongest(t, p, p + 45);
        forall j | 0 <= j < |rest| ensures MatchEnd(t, p) <= rest[j].start {
          assert rest[j] in rest;
          if rest[j].start < MatchEnd(t, p) {
            NoOverlap(t, p, MatchEnd(t, p), rest[j].start);
          }
        }
      }
    }
  }

  /** Jumping to the end of a match loses nothing. */
  lemma {:induction false} JumpLosesNothing(t: Bytes, p: nat, q: nat, at: nat)
    requires MatchAt(t, p, q) && p < at <= q
    ensures Matches(t, at) == Matches(t, q) && RefsFrom(t, at) == RefsFrom(t, q)
    decreases q - at
  {
    if at < q {
      NoOverlap(t, p, q, at);
      JumpLosesNothing(t, p, q, at + 1);
    }
  }

  /** A reference is listed exactly when some match captures it. */
  lemma RefsExact(t: Bytes, p: nat, r: Bytes)
    ensures r in RefsFrom(t, p) <==>
            exists s: nat :: p <= s && StartsAt(t, s) && r == t[s + 11..MatchEnd(t, s)]
  {
    MatchesExact(t, p);
    CapturesExact(t, Matches(t, p), r);
    if s: nat :| p <= s && StartsAt(t, s) && r == t[s + 11..MatchEnd(t, s)] {
      var m := Match(s, MatchEnd(t, s));
      assert m in Matches(t, p) && r == Capture(t, m);
    }
  }

  /** Every captured reference has the shape the registry relies on. */
  lemma RefsWellFormed(t: Bytes, p: nat)
    ensures forall r | r in RefsFrom(t, p) :: WellFormedRef(r)
  {
    forall r | r in RefsFrom(t, p) ensures WellFormedRef(r) {
      RefsExact(t, p, r);
      var s: nat :| p <= s && StartsAt(t, s) && r == t[s + 11..MatchEnd(t, s)];
      assert forall i | 0 <= i < |r| :: r[i] == t[s + 11 + i];
      GreedyIsLongest(t, s, s + 45);
    }
  }

  // ---------------------------------------------------------------- concatenation

  lemma {:induction false} NameEndShift(b: Bytes, e: Bytes, i: nat)
    requires i <= |e|
    ensures NameEnd(b + e, |b| + i) == |b| + NameEnd(e, i)
    decreases |e| - i
  {
    if i < |e| {
      assert (b + e)[|b| + i] == e[i];
      NameEndShift(b, e, i + 1);
    }
  }

  /** Matches of a suffix are the matches of the whole text that begin in it. */
  lemma StartInSuffix(b: Bytes, e: Bytes, p: nat)
    ensures StartsAt(b + e, |b| + p) <==> StartsAt(e, p)
    ensures StartsAt(e, p) ==>
              && MatchEnd(b + e, |b| + p) == |b| + MatchEnd(e, p)
              && (b + e)[|b| + p + 11..MatchEnd(b + e, |b| + p)] == e[p + 11..MatchEnd(e, p)]
  {
    var t := b + e;
    assert forall i | 0 <= i < |e| :: t[|b| + i] == e[i];
    if p + 45 <= |e| {
      assert t[|b| + p..|b| + p + 11] == e[p..p + 11];
      forall i | p + 11 <= i < |e| ensures t[|b| + i] == e[i] {}
      if StartsAt(t, |b| + p) {
        forall i | p + 11 <= i < p + 45 ensures e[i] == t[|b| + i] {}
        assert HashRun(e, p + 11, p + 43) by {
          forall i | p + 11 <= i < p + 43 ensures HashByte(e[i]) { assert HashByte(t[|b| + i]); }
        }
        assert e[p + 44] == t[|b| + p + 44];
      }
      if StartsAt(e, p) {
        forall i | |b| + p + 11 <= i < |b| + p + 43 ensures HashByte(t[i]) { assert HashByte(e[i - |b|]); }
        assert t[|b| + p + 44] == e[p + 44];
        NameEndShift(b, e, p + 45);
      }
    }
  }

  /** Where the greedy name run of `b` ends before the end of `b`, appending changes nothing. */
  lemma {:induction false} NameEndPrefix(b: Bytes, e: Bytes, i: nat)
    requires i <= |b|
    ensures NameEnd(b, i) <= NameEnd(b + e, i)
    ensures NameEnd(b, i) < |b| || NameEnd(b + e, i) == |b| ==> NameEnd(b + e, i) == NameEnd(b, i)
    ensures NameEnd(b + e, i) <= |b| ==> NameEnd(b, i) == NameEnd(b + e, i)
    decreases |b| - i
  {
    if i < |b| {
      assert (b + e)[i] == b[i];
      NameEndPrefix(b, e, i + 1);
    }
  }

  /** A match of `b + e` that ends inside `b` is a match of `b`, and conversely up to its greedy end. */
  lemma StartInPrefix(b: Bytes, e: Bytes, p: nat)
    ensures p + 45 <= |b| ==> (StartsAt(b + e, p) <==> StartsAt(b, p))
    ensures StartsAt(b, p) && MatchEnd(b + e, p) <= |b| ==>
              MatchEnd(b, p) == MatchEnd(b + e, p) && b[p + 11..MatchEnd(b, p)] == (b + e)[p + 11..MatchEnd(b + e, p)]
  {
    var t := b + e;
    if p + 45 <= |b| {
      assert forall i | 0 <= i < |b| :: t[i] == b[i];
      assert t[p..p + 11] == b[p..p + 11];
      if StartsAt(b, p) {
        NameEndPrefix(b, e, p + 45);
        if MatchEnd(t, p) <= |b| {
          assert b[p + 11..MatchEnd(b, p)] == t[p + 11..MatchEnd(t, p)];
        }
      }
    }
  }

  lemma {:induction false} RefsOfSuffix(b: Bytes, e: Bytes, p: nat)
    ensures RefsFrom(b + e, |b| + p) == RefsFrom(e, p)
    decreases |e| - p
  {
    RefsStep(b + e, |b| + p);
    RefsStep(e, p);
    if p < |e| {
      StartInSuffix(b, e, p);
      RefsOfSuffix(b, e, p + 1);
    }
  }

  /** No match reaches across a byte outside the alphabet. */
  lemma SeparatorStops(a: Bytes, sep: Byte, c: Bytes, p: nat)
    requires !Alphabet(sep) && p <= |a|
    ensures var t := a + [sep] + c;
            && (StartsAt(t, p) <==> StartsAt(a, p))
            && (StartsAt(a, p) ==> t[p + 11..MatchEnd(t, p)] == a[p + 11..MatchEnd(a, p)])
  {
    var t := a + [sep] + c;
    assert t[|a|] == sep;
    assert t == a + ([sep] + c);
    StartInPrefix(a, [sep] + c, p);
    if StartsAt(t, p) {
      var q := MatchEnd(t, p);
      GreedyIsLongest(t, p, p + 45);
      MatchBytes(t, p, q);
      assert q <= |a|;
    }
  }

  /** A byte outside the alphabet separates: the text before it and the text after it are scanned independently. */
  lemma {:induction false} SeparatorSplits(a: Bytes, sep: Byte, c: Bytes, p: nat)
    requires !Alphabet(sep) && p <= |a|
    ensures RefsFrom(a + [sep] + c, p) == RefsFrom(a, p) + Refs(c)
    decreases |a| - p
  {
    SeparatorStops(a, sep, c, p);
    RefsStep(a + [sep] + c, p);
    RefsStep(a, p);
    if p < |a| {
      SeparatorSplits(a, sep, c, p + 1);
    } else {
      RefsOfSuffix(a + [sep], c, 0);
    }
  }

  /** The text `/nix/store/` followed by a reference contains exactly that reference. */
  lemma RefsOfOne(r: Bytes)
    requires WellFormedRef(r)
    ensures Refs(STORE + r) == [r]
  {
    var t := STORE + r;
    assert t[..11] == STORE;
    assert forall i | 0 <= i < |r| :: t[11 + i] == r[i];
    assert HashRun(t, 11, 43) by {
      forall i | 11 <= i < 43 ensures HashByte(t[i]) { assert HashByte(r[i - 11]); }
    }
    assert NameRun(t, 44, |t|) by {
      forall i | 44 <= i < |t| ensures NameByte(t[i]) { assert NameByte(r[i - 11]); }
    }
    assert t[0..11] == STORE;
    assert MatchAt(t, 0, |t|);
    GreedyIsLongest(t, 0, |t|);
    JumpLosesNothing(t, 0, |t|, 1);
    RefsStep(t, 0);
    RefsStep(t, |t|);
    assert t[11..|t|] == r;
  }
}
