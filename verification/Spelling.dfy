/** Constants and formats, spelled out as text (`src/scan.rs:24-25`, `src/output.rs:69-81`). */
module Spelling {
  import opened Wrappers
  import opened StoreRegex
  import opened StorePaths
  import opened Output

  // ---------------------------------------------------------------- the pattern

  /** The bytes of a text. */
  function Ascii(s: string): (b: Bytes)
    requires forall i | 0 <= i < |s| :: s[i] < 128 as char
    ensures |b| == |s| && forall i | 0 <= i < |s| :: b[i] as int == s[i] as int
  {
    seq(|s|, i requires 0 <= i < |s| => s[i] as int as Byte)
  }

  const DIGITS := "0123456789"
  const LOWER := "abcdefghijklmnopqrstuvwxyz"
  const UPPER := "ABCDEFGHIJKLMNOPQRSTUVWXYZ"

  lemma Consecutive()
    ensures forall i | 0 <= i < 10 :: DIGITS[i] as int == 48 + i
    ensures forall i | 0 <= i < 26 :: LOWER[i] as int == 97 + i && UPPER[i] as int == 65 + i
  {}

  /** The constants and the two classes of bytes, spelled out. */
  lemma Letters(b: Byte)
    ensures STORE == Ascii("/nix/store/") && [SLASH] == Ascii("/") && [DASH] == Ascii("-")
    ensures HashByte(b) <==> b as int as char in DIGITS + LOWER
    ensures NameByte(b) <==> b as int as char in DIGITS + LOWER + UPPER + "+._?=-"
  {
    Consecutive();
    var c := b as int as char;
    assert c in DIGITS <==> 48 <= b <= 57 by {
      if 48 <= b <= 57 { assert DIGITS[b as int - 48] == c; }
    }
    assert c in LOWER <==> 97 <= b <= 122 by {
      if 97 <= b <= 122 { assert LOWER[b as int - 97] == c; }
    }
    assert c in UPPER <==> 65 <= b <= 90 by {
      if 65 <= b <= 90 { assert UPPER[b as int - 65] == c; }
    }
    var marks := "+._?=-";
    assert marks[0] == '+' && marks[1] == '.' && marks[2] == '_';
    assert marks[3] == '?' && marks[4] == '=' && marks[5] == '-';
  }

  /** A match that can begin at a position, spelled out. */
  lemma StartSpelled(t: Bytes, p: nat)
    ensures StartsAt(t, p) <==>
            && p + 45 <= |t| && t[p..p + 11] == Ascii("/nix/store/")
            && (forall i | p + 11 <= i < p + 43 :: t[i] as int as char in DIGITS + LOWER)
            && t[p + 43] as int == '-' as int
            && t[p + 44] as int as char in DIGITS + LOWER + UPPER + "+._?=-"
  {
    Letters(0);
    if p + 45 <= |t| {
      forall i | p + 11 <= i < p + 43 ensures HashByte(t[i]) <==> t[i] as int as char in DIGITS + LOWER {
        Letters(t[i]);
      }
      Letters(t[p + 44]);
    }
  }

  // ---------------------------------------------------------------- the listing

  lemma TwoLines(oneline: bool, a: Bytes, b: Bytes)
    ensures RefLines(oneline, [a, b]) == RefLine(oneline, []) + a + RefLine(oneline, []) + b
  {
    assert [a, b][1..] == [b] && [b][1..] == [];
    assert RefLines(oneline, [b]) == RefLine(oneline, []) + b;
  }

  lemma Unbracket(n: Bytes, l: Bytes, a: Bytes, b: Bytes)
    ensures n + (l + a + l + b) == n + l + a + l + b
  {
    Associate(n, l + a + l, b);
    Associate(n, l + a, l);
    Associate(n, l, a);
  }

  /** The listing of a file with two references, in one line. */
  lemma OneLineText(name: Bytes, a: Bytes, b: Bytes)
    ensures Listing(true, Listed(name, [a, b])) ==
            name + Ascii(": /nix/store/") + a + Ascii(" /nix/store/") + b + Ascii("\n")
  {
    var l := RefLine(true, []);
    Letters(0);
    assert Ascii(": /nix/store/") == Colon(true) + l && Ascii(" /nix/store/") == l && Ascii("\n") == Ending(true);
    TwoLines(true, a, b);
    Unbracket(name + Colon(true), l, a, b);
    Associate(name, Colon(true), l);
  }

  /** The same in several lines. */
  lemma LinesText(name: Bytes, a: Bytes, b: Bytes)
    ensures Listing(false, Listed(name, [a, b])) ==
            name + Ascii("\n/nix/store/") + a + Ascii("\n/nix/store/") + b + Ascii("\n\n")
  {
    var l := RefLine(false, []);
    Letters(0);
    assert Ascii("\n/nix/store/") == l && Ascii("\n\n") == Ending(false);
    TwoLines(false, a, b);
    Unbracket(name + Colon(false), l, a, b);
    assert name + Colon(false) == name;
  }

  // ---------------------------------------------------------------- paths

  /** The pieces of a text between slashes. */
  function Pieces(t: Bytes): (ps: seq<Bytes>)
    ensures ps != []
  {
    if t == [] then [[]]
    else
      var rest := Pieces(t[1..]);
      if t[0] == SLASH then [[]] + rest else [[t[0]] + rest[0]] + rest[1..]
  }

  /** A component of a path: not empty, and without a slash. */
  predicate IsComponent(c: Name) {
    c != [] && SLASH !in c
  }

  lemma {:induction false} PiecesAppend(c: Name, rest: Bytes)
    requires SLASH !in c
    ensures Pieces(c) == [c]
    ensures Pieces(c + [SLASH] + rest) == [c] + Pieces(rest)
  {
    if c == [] {
      assert [] + [SLASH] + rest == [SLASH] + rest;
      assert ([SLASH] + rest)[1..] == rest;
    } else {
      PiecesAppend(c[1..], rest);
      assert (c + [SLASH] + rest)[1..] == c[1..] + [SLASH] + rest;
      assert [c[0]] + c[1..] == c;
    }
  }

  lemma {:induction false} PiecesOfPath(c: Name, comps: Path)
    requires SLASH !in c && forall d | d in comps :: IsComponent(d)
    ensures Pieces(c + WithSlashes(comps)) == [c] + comps
    decreases comps
  {
    PiecesAppend(c, []);
    if comps == [] {
      assert c + [] == c;
    } else {
      assert IsComponent(comps[0]);
      PiecesOfPath(comps[0], comps[1..]);
      var rest := comps[0] + WithSlashes(comps[1..]);
      assert c + WithSlashes(comps) == c + [SLASH] + rest;
      PiecesAppend(c, rest);
      assert [c] + ([comps[0]] + comps[1..]) == [c] + comps;
    }
  }

  lemma PathPieces(p: ScannedPath)
    requires forall c | c in p.comps :: IsComponent(c)
    ensures p.comps != [] ==> Pieces(PathText(p)) == if p.Absolute? then [[]] + p.comps else p.comps
  {
    if p.comps != [] {
      if p.Absolute? {
        assert [] + WithSlashes(p.comps) == WithSlashes(p.comps);
        PiecesOfPath([], p.comps);
      } else {
        assert IsComponent(p.comps[0]);
        PiecesOfPath(p.comps[0], p.comps[1..]);
        assert [p.comps[0]] + p.comps[1..] == p.comps;
      }
    }
  }

  /** The text of a path: its components with slashes between them, after another slash if it is absolute. Different
      paths have different texts. */
  lemma PathTextExact(p: ScannedPath, q: ScannedPath)
    requires forall c | c in p.comps || c in q.comps :: IsComponent(c)
    ensures p.comps == [] ==> PathText(p) == if p.Absolute? then [SLASH] else []
    ensures p.comps != [] ==> Pieces(PathText(p)) == if p.Absolute? then [[]] + p.comps else p.comps
    ensures PathText(p) == PathText(q) ==> p == q
  {
    PathPieces(p);
    PathPieces(q);
    assert [SLASH][1..] == [] && Pieces([SLASH]) == [[], []];
    assert p.comps != [] ==> IsComponent(p.comps[0]);
    assert q.comps != [] ==> IsComponent(q.comps[0]);
    if PathText(p) == PathText(q) && p.comps != [] && q.comps != [] && p.Absolute? && q.Absolute? {
      assert ([[]] + p.comps)[1..] == p.comps && ([[]] + q.comps)[1..] == q.comps;
    }
  }
}
