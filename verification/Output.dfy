/** The uncoloured listing of found references, and scanning it again (`src/output.rs`). */
module Output {
  import opened Wrappers
  import opened StoreRegex
  import opened StorePaths

  const NEWLINE: Byte := 10
  const SPACE: Byte := 32
  const COLON: Byte := 58

  /** One listed file: its displayed name and its references. */
  datatype Listed = Listed(name: Bytes, refs: seq<Bytes>)

  function WithSlashes(comps: Path): Bytes {
    if comps == [] then [] else [SLASH] + comps[0] + WithSlashes(comps[1..])
  }

  function PathText(p: ScannedPath): Bytes {
    match p
    case Absolute(comps) => if comps == [] then [SLASH] else WithSlashes(comps)
    case Relative(comps) => if comps == [] then [] else comps[0] + WithSlashes(comps[1..])
  }

  function AsListed(sp: StorePaths): Listed {
    Listed(PathText(sp.entry.path), sp.refs)
  }

  function Sep(oneline: bool): Bytes {
    if oneline then [SPACE] else [NEWLINE]
  }

  function RefLine(oneline: bool, r: Bytes): Bytes {
    Sep(oneline) + (STORE + r)
  }

  function RefLines(oneline: bool, refs: seq<Bytes>): Bytes {
    if refs == [] then [] else RefLine(oneline, refs[0]) + RefLines(oneline, refs[1..])
  }

  function Colon(oneline: bool): Bytes {
    if oneline then [COLON] else []
  }

  function Ending(oneline: bool): Bytes {
    if oneline then [NEWLINE] else [NEWLINE, NEWLINE]
  }

  function Listing(oneline: bool, sp: Listed): Bytes {
    (sp.name + Colon(oneline)) + RefLines(oneline, sp.refs) + Ending(oneline)
  }

  /** An output stream. */
  class Writer {
    var written: Bytes

    constructor ()
      ensures written == []
    {
      written := [];
    }

    method Write(b: Bytes)
      modifies this
      ensures written == old(written) + b
    {
      written := written + b;
    }
  }

  lemma {:induction false} RefLinesSnoc(oneline: bool, refs: seq<Bytes>, r: Bytes)
    ensures RefLines(oneline, refs + [r]) == RefLines(oneline, refs) + RefLine(oneline, r)
  {
    if refs == [] {
      assert ([] + [r])[1..] == [];
    } else {
      assert (refs + [r])[1..] == refs[1..] + [r];
      RefLinesSnoc(oneline, refs[1..], r);
      assert RefLines(oneline, refs + [r]) ==
             RefLine(oneline, refs[0]) + (RefLines(oneline, refs[1..]) + RefLine(oneline, r));
    }
  }

  method WriteStorePaths(w: Writer, oneline: bool, sp: Listed)
    modifies w
    ensures w.written == old(w.written) + Listing(oneline, sp)
  {
    w.Write(sp.name + Colon(oneline));
    ghost var head := w.written;
    for i := 0 to |sp.refs|
      invariant w.written == head + RefLines(oneline, sp.refs[..i])
    {
      ghost var before := w.written;
      w.Write(RefLine(oneline, sp.refs[i]));
      RefLinesSnoc(oneline, sp.refs[..i], sp.refs[i]);
      assert sp.refs[..i + 1] == sp.refs[..i] + [sp.refs[i]];
      Associate(head, RefLines(oneline, sp.refs[..i]), RefLine(oneline, sp.refs[i]));
    }
    assert sp.refs[..|sp.refs|] == sp.refs;
    w.Write(Ending(oneline));
    ghost var name, lines := sp.name + Colon(oneline), RefLines(oneline, sp.refs);
    Associate(old(w.written), name, lines);
    Associate(old(w.written), name + lines, Ending(oneline));
  }

  /** A byte no match can contain begins `rest`: what precedes it and what follows it are scanned independently. */
  lemma RefsAroundSeparator(a: Bytes, rest: Bytes)
    requires rest != [] && !Alphabet(rest[0])
    ensures Refs(a + rest) == Refs(a) + Refs(rest[1..])
  {
    assert a + rest == a + [rest[0]] + rest[1..];
    SeparatorSplits(a, rest[0], rest[1..], 0);
  }

  lemma RefsOfLine(oneline: bool, r: Bytes, rest: Bytes)
    requires WellFormedRef(r)
    requires rest != [] && !Alphabet(rest[0])
    ensures var line := RefLine(oneline, r) + rest;
            !Alphabet(line[0]) && Refs(line[1..]) == [r] + Refs(rest[1..])
  {
    var text := STORE + r;
    var line := RefLine(oneline, r) + rest;
    Associate(Sep(oneline), text, rest);
    assert line[1..] == text + rest;
    RefsAroundSeparator(text, rest);
    RefsOfOne(r);
  }

  lemma {:induction false} RefsOfLines(oneline: bool, refs: seq<Bytes>, tail: Bytes)
    requires forall r | r in refs :: WellFormedRef(r)
    requires tail != [] && !Alphabet(tail[0])
    ensures var lines := RefLines(oneline, refs) + tail;
            !Alphabet(lines[0]) && Refs(lines[1..]) == refs + Refs(tail[1..])
  {
    if refs == [] {
      assert [] + tail == tail;
    } else {
      var rest := RefLines(oneline, refs[1..]) + tail;
      RefsOfLines(oneline, refs[1..], tail);
      RefsOfLine(oneline, refs[0], rest);
      Associate(RefLine(oneline, refs[0]), RefLines(oneline, refs[1..]), tail);
      assert [refs[0]] + (refs[1..] + Refs(tail[1..])) == refs + Refs(tail[1..]);
    }
  }

  /** Scanning a listing, followed by any text, gives back the matches in the file name, then the listed
      references in order, then the references of the text. */
  lemma PrintThenScan(oneline: bool, sp: Listed, after: Bytes)
    requires forall r | r in sp.refs :: WellFormedRef(r)
    ensures Refs(Listing(oneline, sp) + after) == Refs(sp.name) + sp.refs + Refs(after)
  {
    var tail := Ending(oneline) + after;
    var lines := RefLines(oneline, sp.refs) + tail;
    RefsOfLines(oneline, sp.refs, tail);
    assert Refs(tail[1..]) == Refs(after) by {
      if oneline {
        assert tail[1..] == after;
      } else {
        assert tail[1..] == [] + tail[1..] && tail[1..][1..] == after;
        RefsAroundSeparator([], tail[1..]);
      }
    }
    Associate(sp.name + Colon(oneline) + RefLines(oneline, sp.refs), Ending(oneline), after);
    Associate(sp.name + Colon(oneline), RefLines(oneline, sp.refs), tail);
    assert Listing(oneline, sp) + after == sp.name + Colon(oneline) + lines;
    if oneline {
      Associate(sp.name, Colon(oneline), lines);
      var body := Colon(oneline) + lines;
      assert body[1..] == lines == [] + lines;
      RefsAroundSeparator(sp.name, body);
      RefsAroundSeparator([], lines);
    } else {
      assert sp.name + Colon(oneline) == sp.name;
      RefsAroundSeparator(sp.name, lines);
    }
  }

  function Listings(oneline: bool, sps: seq<StorePaths>): Bytes {
    if sps == [] then [] else Listing(oneline, AsListed(sps[0])) + Listings(oneline, sps[1..])
  }

  lemma {:induction false} ListingsSnoc(oneline: bool, sps: seq<StorePaths>, sp: StorePaths)
    ensures Listings(oneline, [sp]) == Listing(oneline, AsListed(sp))
    ensures Listings(oneline, sps + [sp]) == Listings(oneline, sps) + Listings(oneline, [sp])
  {
    assert [sp][1..] == [] && Listing(oneline, AsListed(sp)) + [] == Listing(oneline, AsListed(sp));
    if sps == [] {
      assert [] + [sp] == [sp];
      assert [] + Listings(oneline, [sp]) == Listings(oneline, [sp]);
    } else {
      assert (sps + [sp])[1..] == sps[1..] + [sp];
      ListingsSnoc(oneline, sps[1..], sp);
      Associate(Listing(oneline, AsListed(sps[0])), Listings(oneline, sps[1..]), Listings(oneline, [sp]));
    }
  }

  function NamesAndRefs(sps: seq<StorePaths>): seq<Bytes> {
    if sps == [] then []
    else Refs(PathText(sps[0].entry.path)) + sps[0].refs + NamesAndRefs(sps[1..])
  }

  /** The same for the listing of a whole run. */
  lemma {:induction false} PrintAllThenScan(oneline: bool, sps: seq<StorePaths>)
    requires forall sp | sp in sps :: forall r | r in sp.refs :: WellFormedRef(r)
    ensures Refs(Listings(oneline, sps)) == NamesAndRefs(sps)
  {
    if sps != [] {
      PrintThenScan(oneline, AsListed(sps[0]), Listings(oneline, sps[1..]));
      PrintAllThenScan(oneline, sps[1..]);
    }
  }

  function Newlines(b: Bytes): nat {
    if b == [] then 0 else (if b[0] == NEWLINE then 1 else 0) + Newlines(b[1..])
  }

  lemma {:induction false} NewlinesAppend(a: Bytes, b: Bytes)
    ensures Newlines(a + b) == Newlines(a) + Newlines(b)
  {
    if a == [] {
      assert a + b == b;
    } else {
      assert (a + b)[1..] == a[1..] + b;
      NewlinesAppend(a[1..], b);
    }
  }

  lemma {:induction false} NameHasNoNewline(b: Bytes)
    requires forall i | 0 <= i < |b| :: Alphabet(b[i])
    ensures Newlines(b) == 0
  {
    if b != [] {
      NameHasNoNewline(b[1..]);
    }
  }

  lemma NewlinesOfLine(oneline: bool, r: Bytes)
    requires WellFormedRef(r)
    ensures Newlines(RefLine(oneline, r)) == if oneline then 0 else 1
  {
    var text := STORE + r;
    assert Sep(oneline)[1..] == [];
    NewlinesAppend(Sep(oneline), text);
    forall i | 0 <= i < |text| ensures Alphabet(text[i]) {
      assert i < |STORE| ==> text[i] == STORE[i];
      assert i >= |STORE| ==> text[i] == r[i - |STORE|];
    }
    NameHasNoNewline(text);
  }

  lemma {:induction false} NewlinesOfLines(oneline: bool, refs: seq<Bytes>)
    requires forall r | r in refs :: WellFormedRef(r)
    ensures Newlines(RefLines(oneline, refs)) == if oneline then 0 else |refs|
  {
    if refs != [] {
      NewlinesAppend(RefLine(oneline, refs[0]), RefLines(oneline, refs[1..]));
      NewlinesOfLine(oneline, refs[0]);
      NewlinesOfLines(oneline, refs[1..]);
    }
  }

  /** In one-line format a file takes exactly one line; otherwise one line for its name, one for each
      reference, and an empty one. */
  lemma ListingLines(oneline: bool, sp: Listed)
    requires Newlines(sp.name) == 0 && forall r | r in sp.refs :: WellFormedRef(r)
    ensures Newlines(Listing(oneline, sp)) == if oneline then 1 else |sp.refs| + 2
    ensures Listing(oneline, sp)[|Listing(oneline, sp)| - 1] == NEWLINE
  {
    NewlinesAppend(sp.name + Colon(oneline) + RefLines(oneline, sp.refs), Ending(oneline));
    NewlinesAppend(sp.name + Colon(oneline), RefLines(oneline, sp.refs));
    NewlinesAppend(sp.name, Colon(oneline));
    NewlinesOfLines(oneline, sp.refs);
    assert Colon(oneline) != [] ==> Colon(oneline)[1..] == [];
    assert Ending(oneline)[1..] == if oneline then [] else [NEWLINE];
    assert [NEWLINE][1..] == [];
  }
}
