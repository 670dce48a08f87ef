/** An abstract file system: a map from paths to nodes, and the system calls the registry makes on it. */
module FileTree {
  import opened StoreRegex
  import opened StorePaths

  datatype Node = Folder | File | Link(target: Bytes)

  type Nodes = map<Path, Node>

  predicate Under(top: Path, p: Path) {
    |top| <= |p| && p[..|top|] == top
  }

  function Parent(p: Path): Path
    requires p != []
  {
    p[..|p| - 1]
  }

  /** The root is a directory, and so is the parent of every node. */
  ghost predicate WellFormed(nodes: Nodes) {
    && [] in nodes && nodes[[]].Folder?
    && forall p {:trigger Parent(p)} | p in nodes && p != [] :: Parent(p) in nodes && nodes[Parent(p)].Folder?
  }

  function Children(nodes: Nodes, p: Path): set<Path> {
    set q | q in nodes && |q| == |p| + 1 && Under(p, q)
  }

  /** The path itself and all directories above it. */
  function Prefixes(p: Path): set<Path> {
    set n | 0 <= n <= |p| :: p[..n]
  }

  /** The directories strictly above the path. */
  function Above(p: Path): set<Path> {
    set n | 0 <= n < |p| :: p[..n]
  }

  lemma PrefixesUnder(p: Path, q: Path)
    ensures q in Prefixes(p) <==> Under(q, p)
    ensures q in Above(p) <==> Under(q, p) && q != p
    ensures p != [] ==> Prefixes(p) == Prefixes(Parent(p)) + {p} && Above(p) == Prefixes(Parent(p))
  {
    assert Under(q, p) ==> q == p[..|q|];
    if p != [] {
      assert p[..|p|] == p;
      forall n | 0 <= n < |p| ensures p[..n] == Parent(p)[..n] {}
      forall r ensures r in Prefixes(p) <==> r in Prefixes(Parent(p)) + {p} {
        if r in Prefixes(p) {
          var n :| 0 <= n <= |p| && r == p[..n];
          assert n < |p| ==> r == Parent(p)[..n];
        }
        if r in Prefixes(Parent(p)) {
          var n :| 0 <= n <= |p| - 1 && r == Parent(p)[..n];
          assert r == p[..n];
        }
      }
      forall r ensures r in Above(p) <==> r in Prefixes(Parent(p)) {
        if r in Above(p) {
          var n :| 0 <= n < |p| && r == p[..n];
          assert r == Parent(p)[..n];
        }
        if r in Prefixes(Parent(p)) {
          var n :| 0 <= n <= |p| - 1 && r == Parent(p)[..n];
          assert r == p[..n];
        }
      }
    }
  }

  lemma UnderTransitive(a: Path, b: Path, c: Path)
    requires Under(a, b) && Under(b, c)
    ensures Under(a, c)
  {}

  lemma UnderLinear(a: Path, b: Path, c: Path)
    requires Under(a, c) && Under(b, c) && |a| <= |b|
    ensures Under(a, b)
  {}

  /** Everything above an existing node exists and is a directory. */
  lemma {:induction false} AboveAreFolders(nodes: Nodes, p: Path)
    requires WellFormed(nodes) && p in nodes
    ensures forall q | q in Above(p) :: q in nodes && nodes[q].Folder?
    decreases |p|
  {
    if p != [] {
      PrefixesUnder(p, p);
      PrefixesUnder(Parent(p), Parent(p));
      AboveAreFolders(nodes, Parent(p));
      forall q | q in Above(p) ensures q in nodes && nodes[q].Folder? {
        PrefixesUnder(Parent(p), q);
      }
    }
  }

  /** Creating `p` and all its missing parents can succeed. */
  ghost predicate CanMake(nodes: Nodes, denied: set<Path>, p: Path) {
    forall q | q in Prefixes(p) :: if q in nodes then nodes[q].Folder? else q !in denied
  }

  ghost function WithFolders(nodes: Nodes, p: Path): Nodes {
    map q | q in nodes.Keys + Prefixes(p) :: if q in nodes then nodes[q] else Folder
  }

  /** `nodes'` differs from `nodes` by additional directories at most. */
  ghost predicate OnlyFoldersAdded(nodes: Nodes, nodes': Nodes) {
    && (forall q | q in nodes :: q in nodes' && nodes'[q] == nodes[q])
    && (forall q | q in nodes' && q !in nodes :: nodes'[q].Folder?)
  }

  datatype LinkRead = Target(target: Bytes) | NothingThere | NotALink

  /** No file and no link stands where `p` needs a directory. */
  predicate Reachable(nodes: Nodes, p: Path) {
    forall q | q in Above(p) :: q in nodes ==> nodes[q].Folder?
  }

  /** The system calls. Changing a path in `denied` fails for lack of permission. */
  class FileSystem {
    var nodes: Nodes
    const denied: set<Path>

    constructor (nodes: Nodes, denied: set<Path>)
      ensures this.nodes == nodes && this.denied == denied
    {
      this.nodes := nodes;
      this.denied := denied;
    }

    method ReadLink(p: Path) returns (r: LinkRead)
      ensures r == if p in nodes then (if nodes[p].Link? then Target(nodes[p].target) else NotALink)
                   else if Reachable(nodes, p) then NothingThere else NotALink
    {
      if p in nodes {
        return if nodes[p].Link? then Target(nodes[p].target) else NotALink;
      }
      return if Reachable(nodes, p) then NothingThere else NotALink;
    }

    method RemoveFile(p: Path) returns (ok: bool)
      modifies this
      ensures ok <==> p in old(nodes) && !old(nodes)[p].Folder? && p !in denied
      ensures nodes == if ok then old(nodes) - {p} else old(nodes)
    {
      ok := p in nodes && !nodes[p].Folder? && p !in denied;
      if ok { nodes := nodes - {p}; }
    }

    method RemoveDir(p: Path) returns (ok: bool)
      modifies this
      ensures ok <==>
                p != [] && p in old(nodes) && old(nodes)[p].Folder? && Children(old(nodes), p) == {} && p !in denied
      ensures nodes == if ok then old(nodes) - {p} else old(nodes)
    {
      ok := p != [] && p in nodes && nodes[p].Folder? && Children(nodes, p) == {} && p !in denied;
      if ok { nodes := nodes - {p}; }
    }

    method Symlink(target: Bytes, p: Path) returns (ok: bool)
      modifies this
      ensures ok <==>
                && p != [] && p !in old(nodes) && p !in denied
                && Parent(p) in old(nodes) && old(nodes)[Parent(p)].Folder?
      ensures nodes == if ok then old(nodes)[p := Link(target)] else old(nodes)
    {
      ok := p != [] && p !in nodes && Parent(p) in nodes && nodes[Parent(p)].Folder? && p !in denied;
      if ok { nodes := nodes[p := Link(target)]; }
    }

    method CreateDir(p: Path) returns (ok: bool)
      modifies this
      ensures ok <==>
                && p != [] && p !in old(nodes) && p !in denied
                && Parent(p) in old(nodes) && old(nodes)[Parent(p)].Folder?
      ensures nodes == if ok then old(nodes)[p := Folder] else old(nodes)
    {
      ok := p != [] && p !in nodes && Parent(p) in nodes && nodes[Parent(p)].Folder? && p !in denied;
      if ok { nodes := nodes[p := Folder]; }
    }

    /** Creates a directory and all that is missing above it. A failure may leave some of them behind. */
    method CreateDirAll(p: Path) returns (ok: bool)
      requires WellFormed(nodes)
      modifies this
      ensures ok <==> CanMake(old(nodes), denied, p)
      ensures ok ==> nodes == WithFolders(old(nodes), p)
      ensures WellFormed(nodes) && OnlyFoldersAdded(old(nodes), nodes)
      decreases |p|
    {
      PrefixesUnder(p, p);
      if p in nodes {
        AboveAreFolders(nodes, p);
        forall q | q in Prefixes(p) ensures q in nodes && (q != p ==> nodes[q].Folder?) {
          PrefixesUnder(p, q);
        }
        assert nodes[p].Folder? ==> nodes == WithFolders(nodes, p);
        return nodes[p].Folder?;
      }
      ok := CreateDirAll(Parent(p));
      if ok {
        PrefixesUnder(Parent(p), Parent(p));
        ok := CreateDir(p);
      }
    }
  }
}
