/** Which leaves a batch proves, and what any accepted path proves. */
module MerkleProofs {
  import opened Merkle

  // ----- Soundness: what an accepted path says -----

  /** The digests from which a digest is built by pairing, itself included. */
  ghost predicate Within(h: Hash, root: Hash)
    decreases root
  {
    h == root || (root.Pair? && (Within(h, root.left) || Within(h, root.right)))
  }

  lemma {:induction false} BothMembers(cands: seq<Hash>, sibling: Hash, x: Hash)
    ensures x in Both(cands, sibling)
            <==> exists c :: c in cands && (x == Pair(c, sibling) || x == Pair(sibling, c))
    decreases |cands|
  {
    if cands != [] {
      var n := |cands| - 1;
      BothMembers(cands[..n], sibling, x);
      assert cands == cands[..n] + [cands[n]];
    }
  }

  lemma {:induction false} CandidatesContainLeaf(leaf: Hash, path: seq<Hash>, x: Hash)
    requires x in Candidates(leaf, path)
    ensures Within(leaf, x)
    decreases |path|
  {
    if path != [] {
      var n := |path| - 1;
      BothMembers(Candidates(leaf, path[..n]), path[n], x);
      var c :| c in Candidates(leaf, path[..n]) && (x == Pair(c, path[n]) || x == Pair(path[n], c));
      CandidatesContainLeaf(leaf, path[..n], c);
    }
  }

  /** A path from an inner digest up to the root. */
  lemma {:induction false} PathTo(h: Hash, root: Hash) returns (path: seq<Hash>)
    requires Within(h, root)
    ensures root in Candidates(h, path)
    decreases root
  {
    if h == root {
      path := [];
    } else {
      var below, sibling := if Within(h, root.left) then root.left else root.right,
                            if Within(h, root.left) then root.right else root.left;
      var p := PathTo(h, below);
      path := p + [sibling];
      assert path[..|p|] == p;
      BothMembers(Candidates(h, p), sibling, root);
    }
  }

  /** Some path is accepted for exactly the digests that the root is built from. */
  lemma AcceptedExactlyWithin(h: Hash, root: Hash)
    ensures (exists path :: Accepts(h, path, root)) <==> Within(h, root)
  {
    if path :| Accepts(h, path, root) {
      if root in Candidates(h, path) {
        CandidatesContainLeaf(h, path, root);
      }
    }
    if Within(h, root) {
      var path := PathTo(h, root);
      assert Accepts(h, path, root);
    }
  }

  ghost predicate WithinLevel(h: Hash, level: seq<Node>) {
    exists q :: 0 <= q < |level| && Within(h, level[q].hash)
  }

  lemma ParentsKeepEvents(level: seq<Node>, once: bool, h: Hash)
    requires h.Digest?
    ensures WithinLevel(h, Parents(Pad(level), Half(|level|), once)) <==> WithinLevel(h, level)
  {
    var padded, n := Pad(level), Half(|level|);
    var next := Parents(padded, n, once);
    if j :| 0 <= j < n && Within(h, next[j].hash) {
      var q := if Within(h, padded[2 * j].hash) then 2 * j else 2 * j + 1;
      assert Within(h, padded[q].hash);
      assert padded[q] == level[if q < |level| then q else q - 1];
    }
    if q :| 0 <= q < |level| && Within(h, level[q].hash) {
      assert padded[q] == level[q];
      assert q == 2 * (q / 2) || q == 2 * (q / 2) + 1;
      assert Within(h, next[q / 2].hash);
    }
  }

  lemma {:induction false} ClimbKeepsEvents(level: seq<Node>, paths: Paths, once: bool, h: Hash)
    requires level != [] && h.Digest?
    ensures Within(h, Climb(level, paths, once).0) <==> WithinLevel(h, level)
    decreases |level|
  {
    if |level| > 1 {
      var padded, n := Pad(level), Half(|level|);
      ParentsKeepEvents(level, once, h);
      ClimbKeepsEvents(Parents(padded, n, once), ExtendPairs(paths, padded, n), once, h);
    }
  }

  /** Soundness, and its converse: for the root of a batch of event hashes, an event hash
      is accepted with some path exactly when it is one of the batch. */
  lemma AcceptedExactlyBatch(hashes: seq<Hash>, once: bool, h: Hash)
    requires forall i :: 0 <= i < |hashes| ==> hashes[i].Digest?
    requires h.Digest?
    ensures (exists path :: Accepts(h, path, Build(hashes, once).0)) <==> h in hashes
  {
    AcceptedExactlyWithin(h, Build(hashes, once).0);
    if hashes != [] {
      var level := Leaves(hashes);
      ClimbKeepsEvents(level, EmptyPaths(hashes), once, h);
      if h in hashes {
        var i :| 0 <= i < |hashes| && hashes[i] == h;
        assert Within(h, level[i].hash);
      }
    }
  }

  // ----- Completeness: which built paths are accepted -----

  function Count(leaves: seq<Hash>, h: Hash): nat {
    if leaves == [] then 0
    else Count(leaves[..|leaves| - 1], h) + if leaves[|leaves| - 1] == h then 1 else 0
  }

  lemma {:induction false} CountConcat(a: seq<Hash>, b: seq<Hash>, h: Hash)
    ensures Count(a + b, h) == Count(a, h) + Count(b, h)
    decreases |b|
  {
    if b == [] {
      assert a + b == a;
    } else {
      assert (a + b)[..|a + b| - 1] == a + b[..|b| - 1];
      CountConcat(a, b[..|b| - 1], h);
    }
  }

  lemma {:induction false} CountedIsMember(leaves: seq<Hash>, h: Hash)
    ensures Count(leaves, h) > 0 <==> h in leaves
    decreases |leaves|
  {
    if leaves != [] {
      var n := |leaves| - 1;
      CountedIsMember(leaves[..n], h);
      assert leaves == leaves[..n] + [leaves[n]];
    }
  }

  /** `path` with `n` times `x` behind it. */
  function AddCopies(path: seq<Hash>, x: Hash, n: nat): (r: seq<Hash>)
    ensures |r| == |path| + n
  {
    if n == 0 then path else AddCopies(path, x, n - 1) + [x]
  }

  /** What a pass over the leaves does to the path of one of them. */
  lemma {:induction false} ExtendOne(paths: Paths, leaves: seq<Hash>, sibling: Hash, skip: seq<Hash>, h: Hash)
    ensures Get(Extend(paths, leaves, sibling, skip), h)
         == AddCopies(Get(paths, h), sibling, if h in skip then 0 else Count(leaves, h))
    decreases |leaves|
  {
    if leaves != [] {
      ExtendOne(paths, leaves[..|leaves| - 1], sibling, skip, h);
    }
  }

  /** All branches of a digest have the same length. */
  ghost predicate Perfect(h: Hash, k: nat) {
    if k == 0 then !h.Pair? else h.Pair? && Perfect(h.left, k - 1) && Perfect(h.right, k - 1)
  }

  /** The digest that node `p`, of pair `c`, is paired with. */
  function Sibling(level: seq<Node>, p: nat, c: nat): Hash
    requires p < |level| && (p == 2 * c || p == 2 * c + 1)
  {
    Pad(level)[if p == 2 * c then p + 1 else p - 1].hash
  }

  ghost predicate Distinct(level: seq<Node>) {
    forall q, r :: 0 <= q < r < |level| ==> level[q].hash != level[r].hash
  }

  /** Node `p` alone lists `h`, `m` times. */
  ghost predicate Lists(level: seq<Node>, h: Hash, p: nat, m: nat) {
    p < |level| && forall q :: 0 <= q < |level| ==> Count(level[q].leaves, h) == if q == p then m else 0
  }

  ghost predicate Holds(level: seq<Node>, h: Hash, p: nat, k: nat, m: nat) {
    && Lists(level, h, p, m) && Distinct(level)
    && forall q :: 0 <= q < |level| ==> Perfect(level[q].hash, k)
  }

  /** What a pair of nodes does to the path of a leaf that at most one of them lists. */
  lemma PairEffect(paths: Paths, l: Node, r: Node, h: Hash)
    requires Count(l.leaves, h) == 0 || Count(r.leaves, h) == 0 || l == r
    requires l.hash == r.hash ==> l == r
    ensures Get(ExtendPair(paths, l, r), h)
         == if Count(l.leaves, h) > 0 then AddCopies(Get(paths, h), r.hash, Count(l.leaves, h))
            else AddCopies(Get(paths, h), l.hash, Count(r.leaves, h))
  {
    var skip := if l.hash == r.hash then l.leaves else [];
    ExtendOne(paths, l.leaves, r.hash, [], h);
    ExtendOne(Extend(paths, l.leaves, r.hash, []), r.leaves, l.hash, skip, h);
    CountedIsMember(l.leaves, h);
  }

  lemma PadAt(level: seq<Node>, q: nat)
    requires q < |Pad(level)|
    ensures q < |level| ==> Pad(level)[q] == level[q]
    ensures q >= |level| ==> q == |level| && |level| % 2 == 1 && Pad(level)[q] == level[q - 1]
  {
  }

  /** What a pair does to the path of `h`: nothing, or `m` times `sibling`. */
  ghost predicate PairAdds(l: Node, r: Node, h: Hash, sibling: Hash, m: nat, adds: bool) {
    forall paths: Paths ::
      Get(ExtendPair(paths, l, r), h) == if adds then AddCopies(Get(paths, h), sibling, m) else Get(paths, h)
  }

  lemma PairAddsTo(paths: Paths, l: Node, r: Node, h: Hash, sibling: Hash, m: nat, adds: bool)
    requires PairAdds(l, r, h, sibling, m, adds)
    ensures Get(ExtendPair(paths, l, r), h) == if adds then AddCopies(Get(paths, h), sibling, m) else Get(paths, h)
  {
  }

  lemma PairOne(level: seq<Node>, h: Hash, p: nat, c: nat, m: nat, j: nat)
    requires Lists(level, h, p, m) && Distinct(level) && m > 0 && j < Half(|level|)
    requires p == 2 * c || p == 2 * c + 1
    ensures PairAdds(Pad(level)[2 * j], Pad(level)[2 * j + 1], h, Sibling(level, p, c), m, j == c)
  {
    var l, r := Pad(level)[2 * j], Pad(level)[2 * j + 1];
    PadAt(level, 2 * j);
    PadAt(level, 2 * j + 1);
    var a, b := Count(l.leaves, h), Count(r.leaves, h);
    assert a == if p == 2 * j then m else 0;
    assert l == r || b == if p == 2 * j + 1 then m else 0;
    assert l.hash == r.hash ==> l == r;
    PairCounts(l, r, h, a, b);
    if j == c {
      assert Sibling(level, p, c) == if a > 0 then r.hash else l.hash;
    } else {
      NothingAdded(l, r, h, l.hash, b, Sibling(level, p, c), m);
    }
  }

  lemma NothingAdded(l: Node, r: Node, h: Hash, s1: Hash, m1: nat, s2: Hash, m2: nat)
    requires PairAdds(l, r, h, s1, m1, false)
    ensures PairAdds(l, r, h, s2, m2, false)
  {
  }

  lemma PairCounts(l: Node, r: Node, h: Hash, a: nat, b: nat)
    requires a == Count(l.leaves, h) && b == Count(r.leaves, h)
    requires a == 0 || b == 0 || l == r
    requires l.hash == r.hash ==> l == r
    ensures PairAdds(l, r, h, if a > 0 then r.hash else l.hash, if a > 0 then a else b, a > 0 || b > 0)
  {
    forall paths: Paths {
      PairEffect(paths, l, r, h);
    }
  }

  lemma {:induction false} PairsOne(paths: Paths, padded: seq<Node>, h: Hash, sibling: Hash, c: nat, m: nat, n: nat)
    requires 2 * n <= |padded|
    requires forall j {:trigger padded[2 * j]} :: 0 <= j < n ==>
               PairAdds(padded[2 * j], padded[2 * j + 1], h, sibling, m, j == c)
    ensures Get(ExtendPairs(paths, padded, n), h)
         == if c < n then AddCopies(Get(paths, h), sibling, m) else Get(paths, h)
    decreases n
  {
    if n > 0 {
      var j := n - 1;
      PairsOne(paths, padded, h, sibling, c, m, j);
      PairAddsTo(ExtendPairs(paths, padded, j), padded[2 * j], padded[2 * j + 1], h, sibling, m, j == c);
    }
  }

  /** Whether node `p` of a level of `n` is duplicated by the padding. */
  predicate Duplicated(n: nat, p: nat) { n % 2 == 1 && p == n - 1 }

  lemma ParentsHold(level: seq<Node>, once: bool, h: Hash, p: nat, k: nat, m: nat)
    requires Holds(level, h, p, k, m) && |level| > 1
    ensures Holds(Parents(Pad(level), Half(|level|), once), h, p / 2, k + 1,
                  if Duplicated(|level|, p) && !once then 2 * m else m)
  {
    var padded, n := Pad(level), Half(|level|);
    var next := Parents(padded, n, once);
    forall j | 0 <= j < n
      ensures Perfect(next[j].hash, k + 1)
      ensures Count(next[j].leaves, h)
           == if j != p / 2 then 0 else if Duplicated(|level|, p) && !once then 2 * m else m
    {
      var l, r := padded[2 * j], padded[2 * j + 1];
      CountConcat(l.leaves, r.leaves, h);
      assert l == level[2 * j];
      if 2 * j + 1 < |level| {
        assert r == level[2 * j + 1];
      } else {
        assert r == l;
      }
    }
    forall q, r | 0 <= q < r < n
      ensures next[q].hash != next[r].hash
    {
      assert padded[2 * q] == level[2 * q] && padded[2 * r] == level[2 * r];
    }
  }

  /** What holds of the path of a leaf: one sibling for each level while the leaf is
      listed once; more than that later. */
  ghost predicate PathHolds(level: seq<Node>, path: seq<Hash>, h: Hash, p: nat, k: nat, m: nat)
    requires p < |level|
  {
    && m >= 1
    && (m == 1 ==> |path| == k && level[p].hash in Candidates(h, path))
    && (m > 1 ==> |path| >= k >= 1 && (|level| > 1 || (|path| > k && k > 1)))
  }

  /** What a round adds to the path of a leaf leads one level up. */
  lemma SiblingLeadsUp(level: seq<Node>, once: bool, h: Hash, path: seq<Hash>, p: nat, c: nat)
    requires p < |level| && level[p].hash in Candidates(h, path)
    requires (p == 2 * c || p == 2 * c + 1) && c < Half(|level|)
    ensures Parents(Pad(level), Half(|level|), once)[c].hash in Candidates(h, path + [Sibling(level, p, c)])
  {
    var sibling, below := Sibling(level, p, c), level[p].hash;
    var parent := Parents(Pad(level), Half(|level|), once)[c].hash;
    assert (path + [sibling])[..|path|] == path;
    PadAt(level, p);
    assert parent == Pair(below, sibling) || parent == Pair(sibling, below);
    BothMembers(Candidates(h, path), sibling, parent);
  }

  lemma RoundOne(level: seq<Node>, paths: Paths, once: bool, h: Hash, p: nat, k: nat, m: nat)
    requires Holds(level, h, p, k, m) && |level| > 1 && PathHolds(level, Get(paths, h), h, p, k, m)
    ensures var n := Half(|level|);
            var next := Parents(Pad(level), n, once);
            p / 2 < |next| &&
            PathHolds(next, Get(ExtendPairs(paths, Pad(level), n), h), h, p / 2, k + 1,
                      if Duplicated(|level|, p) && !once then 2 * m else m)
  {
    var c, path := p / 2, Get(paths, h);
    var sibling := Sibling(level, p, c);
    assert c < Half(|level|);
    forall j | 0 <= j < Half(|level|) {
      PairOne(level, h, p, c, m, j);
    }
    PairsOne(paths, Pad(level), h, sibling, c, m, Half(|level|));
    if m == 1 {
      assert AddCopies(path, sibling, 1) == path + [sibling];
      SiblingLeadsUp(level, once, h, path, p, c);
    }
  }

  /** Only paths of the height of the root lead to it. */
  lemma {:induction false} CandidateHeight(h: Hash, path: seq<Hash>, x: Hash, k: nat)
    requires !h.Pair? && Perfect(x, k) && x in Candidates(h, path)
    ensures |path| == k
    decreases |path|
  {
    if path != [] {
      var n := |path| - 1;
      BothMembers(Candidates(h, path[..n]), path[n], x);
      var c :| c in Candidates(h, path[..n]) && (x == Pair(c, path[n]) || x == Pair(path[n], c));
      CandidateHeight(h, path[..n], c, k - 1);
    }
  }

  /** Leaf `i` of `n` never sits in a node that the padding duplicates. */
  predicate NeverDuplicated(n: nat, i: nat)
    decreases n
  {
    n <= 1 || (!Duplicated(n, i) && NeverDuplicated(Half(n), i / 2))
  }

  lemma LastVerdict(h: Hash, path: seq<Hash>, root: Hash, k: nat, m: nat)
    requires !h.Pair? && Perfect(root, k)
    requires m == 1 ==> root in Candidates(h, path)
    requires m != 1 ==> |path| > k > 1
    ensures Accepts(h, path, root) <==> m == 1
  {
    if m != 1 {
      if root in Candidates(h, path) {
        CandidateHeight(h, path, root, k);
      }
      assert !Perfect(h, k - 1);
    }
  }

  lemma {:induction false} ClimbVerdict(level: seq<Node>, paths: Paths, once: bool, h: Hash, p: nat, k: nat, m: nat)
    requires !h.Pair?
    requires Holds(level, h, p, k, m) && PathHolds(level, Get(paths, h), h, p, k, m)
    ensures var (root, built) := Climb(level, paths, once);
            Accepts(h, Get(built, h), root) <==> m == 1 && (once || NeverDuplicated(|level|, p))
    decreases |level|
  {
    if |level| == 1 {
      LastVerdict(h, Get(paths, h), level[0].hash, k, m);
    } else {
      var n := Half(|level|);
      ParentsHold(level, once, h, p, k, m);
      RoundOne(level, paths, once, h, p, k, m);
      ClimbVerdict(Parents(Pad(level), n, once), ExtendPairs(paths, Pad(level), n), once, h, p / 2, k + 1,
                   if Duplicated(|level|, p) && !once then 2 * m else m);
    }
  }

  /** The checker accepts an event with the path built for it exactly when the event was
      never below a duplicated node. Were duplicated leaves listed once, it would accept
      every event of every batch. */
  lemma BuiltPathVerdict(hashes: seq<Hash>, once: bool, i: nat)
    requires forall q :: 0 <= q < |hashes| ==> hashes[q].Digest?
    requires forall q, r :: 0 <= q < r < |hashes| ==> hashes[q] != hashes[r]
    requires i < |hashes|
    ensures var (root, paths) := Build(hashes, once);
            Accepts(hashes[i], Get(paths, hashes[i]), root) <==> once || NeverDuplicated(|hashes|, i)
  {
    var level, paths, h := Leaves(hashes), EmptyPaths(hashes), hashes[i];
    forall q | 0 <= q < |level|
      ensures Count(level[q].leaves, h) == if q == i then 1 else 0
    {
      assert [hashes[q]][..0] == [];
      assert Count([], h) == 0;
    }
    assert Candidates(h, []) == [h];
    ClimbVerdict(level, paths, once, h, i, 0, 1);
  }

  predicate PowerOfTwo(n: nat) { n == 1 || (n > 1 && n % 2 == 0 && PowerOfTwo(n / 2)) }

  lemma {:induction false} DuplicationFree(n: nat, i: nat)
    requires i < n
    ensures PowerOfTwo(n) ==> NeverDuplicated(n, i)
    ensures NeverDuplicated(n, n - 1) <==> PowerOfTwo(n)
    decreases n
  {
    if n > 1 {
      DuplicationFree(Half(n), i / 2);
      if n % 2 == 0 {
        assert Half(n) == n / 2 && (n - 1) / 2 == n / 2 - 1;
      }
    }
  }

  /** Every event of a batch verifies exactly when the batch size is a power of two; in
      any other batch at least the last event fails. */
  lemma WholeBatchVerdict(hashes: seq<Hash>)
    requires forall q :: 0 <= q < |hashes| ==> hashes[q].Digest?
    requires forall q, r :: 0 <= q < r < |hashes| ==> hashes[q] != hashes[r]
    requires hashes != []
    ensures var (root, paths) := Build(hashes, false);
            && ((forall i :: 0 <= i < |hashes| ==> Accepts(hashes[i], Get(paths, hashes[i]), root))
                <==> PowerOfTwo(|hashes|))
            && (Accepts(hashes[|hashes| - 1], Get(paths, hashes[|hashes| - 1]), root) <==> PowerOfTwo(|hashes|))
  {
    forall i | 0 <= i < |hashes|
      ensures var (root, paths) := Build(hashes, false);
              Accepts(hashes[i], Get(paths, hashes[i]), root) <==> NeverDuplicated(|hashes|, i)
      ensures PowerOfTwo(|hashes|) ==> NeverDuplicated(|hashes|, i)
    {
      BuiltPathVerdict(hashes, false, i);
      DuplicationFree(|hashes|, i);
    }
    DuplicationFree(|hashes|, 0);
  }
}
