/** Merkle batching of the audit log: the tree builder and the path checker. */
module Merkle {
  import opened Text

  /** SHA-256 digests as terms, so that equal digests have equal preimages. A preimage is
      an event's payload, which contains '|', or two digests in hexadecimal, or empty. */
  datatype Hash = Empty | Digest(payload: Payload) | Pair(left: Hash, right: Hash)

  datatype Payload = Payload(id: string, agent: string, method_: string, resource: string,
                             content: string, prev: Option<Hash>, nanos: int)

  /** A tree node with the batch hashes below it. */
  datatype Node = Node(hash: Hash, leaves: seq<Hash>)

  type Paths = map<Hash, seq<Hash>>

  function Get(paths: Paths, h: Hash): seq<Hash> { if h in paths then paths[h] else [] }

  // ----- Building -----

  function Leaves(hashes: seq<Hash>): seq<Node> {
    seq(|hashes|, i requires 0 <= i < |hashes| => Node(hashes[i], [hashes[i]]))
  }

  function EmptyPaths(hashes: seq<Hash>): Paths { map h | h in hashes :: [] }

  function Half(n: nat): nat { (n + 1) / 2 }

  function Pad(level: seq<Node>): (padded: seq<Node>)
    ensures |padded| == 2 * Half(|level|)
  {
    if |level| % 2 == 1 then level + [level[|level| - 1]] else level
  }

  /** `sibling` appended to the path of every listed leaf that is not skipped, once for
      each time it is listed. */
  function Extend(paths: Paths, leaves: seq<Hash>, sibling: Hash, skip: seq<Hash>): Paths
    decreases |leaves|
  {
    if leaves == [] then paths
    else
      var n := |leaves| - 1;
      var before := Extend(paths, leaves[..n], sibling, skip);
      if leaves[n] in skip then before else before[leaves[n] := Get(before, leaves[n]) + [sibling]]
  }

  function ExtendPair(paths: Paths, l: Node, r: Node): Paths {
    Extend(Extend(paths, l.leaves, r.hash, []), r.leaves, l.hash, if l.hash == r.hash then l.leaves else [])
  }

  /** The parent of two nodes. The source lists the leaves of a duplicated node twice;
      with `once` they would be listed once. */
  function Join(l: Node, r: Node, once: bool): Node {
    Node(Pair(l.hash, r.hash), if once && l.hash == r.hash then l.leaves else l.leaves + r.leaves)
  }

  /** The parents of the first `n` pairs of a level. */
  function Parents(level: seq<Node>, n: nat, once: bool): seq<Node>
    requires 2 * n <= |level|
  {
    seq(n, j requires 0 <= j < n => Join(level[2 * j], level[2 * j + 1], once))
  }

  function ExtendPairs(paths: Paths, level: seq<Node>, n: nat): Paths
    requires 2 * n <= |level|
    decreases n
  {
    if n == 0 then paths else ExtendPair(ExtendPairs(paths, level, n - 1), level[2 * n - 2], level[2 * n - 1])
  }

  function Climb(level: seq<Node>, paths: Paths, once: bool): (Hash, Paths)
    requires level != []
    decreases |level|
  {
    if |level| == 1 then (level[0].hash, paths)
    else
      var padded, n := Pad(level), Half(|level|);
      Climb(Parents(padded, n, once), ExtendPairs(paths, padded, n), once)
  }

  function Build(hashes: seq<Hash>, once: bool): (Hash, Paths) {
    if hashes == [] then (Empty, map[]) else Climb(Leaves(hashes), EmptyPaths(hashes), once)
  }

  method BuildMerkle(hashes: seq<Hash>) returns (root: Hash, paths: Paths)
    ensures (root, paths) == Build(hashes, false)
  {
    paths := map[];
    if |hashes| == 0 {
      return Empty, paths;
    }
    var level := [];
    for i := 0 to |hashes|
      invariant level == Leaves(hashes[..i])
      invariant paths == EmptyPaths(hashes[..i])
    {
      level := level + [Node(hashes[i], [hashes[i]])];
      paths := paths[hashes[i] := []];
      assert hashes[..i + 1] == hashes[..i] + [hashes[i]];
    }
    assert hashes[..|hashes|] == hashes;
    while |level| > 1
      invariant level != []
      invariant Climb(level, paths, false) == Build(hashes, false)
      decreases |level|
    {
      level, paths := Round(level, paths);
    }
    root := level[0].hash;
  }

  /** The two loops over the leaves of a pair of nodes. */
  method AppendSiblings(from: Paths, left: Node, right: Node) returns (paths: Paths)
    ensures paths == ExtendPair(from, left, right)
  {
    paths := from;
    for k := 0 to |left.leaves|
      invariant paths == Extend(from, left.leaves[..k], right.hash, [])
    {
      assert left.leaves[..k + 1][..k] == left.leaves[..k];
      var leaf := left.leaves[k];
      paths := paths[leaf := Get(paths, leaf) + [right.hash]];
    }
    assert left.leaves[..|left.leaves|] == left.leaves;
    ghost var skip := if left.hash == right.hash then left.leaves else [];
    ghost var middle := paths;
    for k := 0 to |right.leaves|
      invariant paths == Extend(middle, right.leaves[..k], left.hash, skip)
    {
      assert right.leaves[..k + 1][..k] == right.leaves[..k];
      var leaf := right.leaves[k];
      if left.hash == right.hash && leaf in left.leaves {
        continue;
      }
      paths := paths[leaf := Get(paths, leaf) + [left.hash]];
    }
    assert right.leaves[..|right.leaves|] == right.leaves;
  }

  /** The body of the builder's loop over the levels. */
  method Round(start: seq<Node>, from: Paths) returns (next: seq<Node>, paths: Paths)
    requires |start| > 1
    ensures next == Parents(Pad(start), Half(|start|), false)
    ensures paths == ExtendPairs(from, Pad(start), Half(|start|))
  {
    var level := start;
    if |level| % 2 == 1 {
      level := level + [level[|level| - 1]];
    }
    assert level == Pad(start);
    next, paths := PairUp(level, from, Half(|start|));
  }

  /** The loop of a round, which takes the nodes two by two. */
  method PairUp(level: seq<Node>, from: Paths, ghost half: nat) returns (next: seq<Node>, paths: Paths)
    requires |level| == 2 * half
    ensures next == Parents(level, half, false)
    ensures paths == ExtendPairs(from, level, half)
  {
    next, paths := [], from;
    var i := 0;
    ghost var n := 0;
    while i < |level|
      invariant i == 2 * n && n <= half
      invariant next == Parents(level, n, false)
      invariant paths == ExtendPairs(from, level, n)
    {
      var left, right := level[i], level[i + 1];
      paths := AppendSiblings(paths, left, right);
      ParentsStep(level, n);
      next := next + [Node(Pair(left.hash, right.hash), left.leaves + right.leaves)];
      n := n + 1;
      i := i + 2;
    }
  }

  lemma ParentsStep(level: seq<Node>, n: nat)
    requires 2 * n + 2 <= |level|
    ensures Parents(level, n + 1, false) == Parents(level, n, false) + [Join(level[2 * n], level[2 * n + 1], false)]
  {
  }

  // ----- Checking -----

  /** The digests that come from `leaf` along `path`, with the sibling on either side. */
  function Candidates(leaf: Hash, path: seq<Hash>): seq<Hash> {
    if path == [] then [leaf] else Both(Candidates(leaf, path[..|path| - 1]), path[|path| - 1])
  }

  function Both(cands: seq<Hash>, sibling: Hash): seq<Hash> {
    if cands == [] then []
    else
      var n := |cands| - 1;
      Both(cands[..n], sibling) + [Pair(cands[n], sibling), Pair(sibling, cands[n])]
  }

  /** The checker also accepts when the leaf and the last sibling alone make the root. */
  predicate Accepts(leaf: Hash, path: seq<Hash>, root: Hash) {
    || (path != [] && (root == Pair(leaf, path[|path| - 1]) || root == Pair(path[|path| - 1], leaf)))
    || root in Candidates(leaf, path)
  }

  /** The source first folds `path` to the right into a value that it never uses. */
  method VerifyMerkle(leaf: Hash, path: seq<Hash>, root: Hash) returns (ok: bool)
    ensures ok == Accepts(leaf, path, root)
  {
    for i := 0 to |path|
      invariant i == |path| && path != [] ==>
                  root != Pair(leaf, path[|path| - 1]) && root != Pair(path[|path| - 1], leaf)
    {
      var a, b := Pair(leaf, path[i]), Pair(path[i], leaf);
      if i == |path| - 1 {
        if a == root {
          return true;
        }
        if b == root {
          return true;
        }
      }
    }
    ok := VerifyMerkleCandidates(leaf, path, root);
  }

  method VerifyMerkleCandidates(leaf: Hash, path: seq<Hash>, root: Hash) returns (ok: bool)
    ensures ok == (root in Candidates(leaf, path))
  {
    var cands := [leaf];
    for i := 0 to |path|
      invariant cands == Candidates(leaf, path[..i])
    {
      assert path[..i + 1][..i] == path[..i];
      var next := [];
      for k := 0 to |cands|
        invariant next == Both(cands[..k], path[i])
      {
        assert cands[..k + 1][..k] == cands[..k];
        next := next + [Pair(cands[k], path[i]), Pair(path[i], cands[k])];
      }
      assert cands[..|cands|] == cands;
      cands := next;
    }
    assert path[..|path|] == path;
    for k := 0 to |cands|
      invariant root !in cands[..k]
    {
      if cands[k] == root {
        return true;
      }
    }
    return false;
  }
}
