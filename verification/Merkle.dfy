/** The Merkle tree over order hashes of swap-core/dex-core/src/book.rs. */
module Merkle {
  import opened Common
  import opened Orders
  import opened Book

  /** Hashes as free terms: an order hash, or the node hash of two hashes.  The empty book's
      root is the all-zero value, which is neither. */
  datatype Digest = Zero | OrderHash(order: Hash) | Node(left: Digest, right: Digest)

  datatype Sibling = Sibling(hash: Digest, isRight: bool)

  // ---------- layers ----------

  /** An odd layer repeats its last hash. */
  function Padded(layer: seq<Digest>): seq<Digest> {
    if |layer| % 2 == 1 then layer + [layer[|layer| - 1]] else layer
  }

  function Paired(layer: seq<Digest>): seq<Digest>
    requires |layer| % 2 == 0
  {
    seq(|layer| / 2, i requires 0 <= i < |layer| / 2 => Node(layer[2 * i], layer[2 * i + 1]))
  }

  function Above(layer: seq<Digest>): seq<Digest> {
    Paired(Padded(layer))
  }

  function Root(leaves: seq<Digest>): Digest
    decreases |leaves|
  {
    if leaves == [] then Zero
    else if |leaves| == 1 then leaves[0]
    else Root(Above(leaves))
  }

  /** How many layers lie between the leaves and the root. */
  function Height(leaves: seq<Digest>): nat
    decreases |leaves|
  {
    if |leaves| <= 1 then 0 else 1 + Height(Above(leaves))
  }

  function SiblingIndex(i: nat): nat { if i % 2 == 0 then i + 1 else i - 1 }

  function Path(leaves: seq<Digest>, i: nat): seq<Sibling>
    requires i < |leaves|
    decreases |leaves|
  {
    if |leaves| == 1 then []
    else
      var s := SiblingIndex(i);
      [Sibling(Padded(leaves)[s], s > i)] + Path(Above(leaves), i / 2)
  }

  function Step(acc: Digest, s: Sibling): Digest {
    if s.isRight then Node(acc, s.hash) else Node(s.hash, acc)
  }

  function Climb(leaf: Digest, path: seq<Sibling>): Digest
    decreases |path|
  {
    if path == [] then leaf else Climb(Step(leaf, path[0]), path[1..])
  }

  predicate Accepts(leaf: Digest, path: seq<Sibling>, root: Digest) {
    Climb(leaf, path) == root
  }

  // ---------- completeness ----------

  /** One level: hashing an entry of a layer with its sibling gives its parent. */
  lemma OneLevel(layer: seq<Digest>, i: nat)
    requires i < |layer| && |layer| > 1
    ensures SiblingIndex(i) < |Padded(layer)| && i / 2 < |Above(layer)|
    ensures var s := SiblingIndex(i);
            Step(layer[i], Sibling(Padded(layer)[s], s > i)) == Above(layer)[i / 2]
  {
  }

  /** COMPLETENESS.  Every leaf's path, of the tree's height, is accepted against the root. */
  lemma {:induction false} PathsVerify(leaves: seq<Digest>, i: nat)
    requires i < |leaves|
    ensures |Path(leaves, i)| == Height(leaves)
    ensures Accepts(leaves[i], Path(leaves, i), Root(leaves))
    decreases |leaves|
  {
    if |leaves| > 1 {
      OneLevel(leaves, i);
      PathsVerify(Above(leaves), i / 2);
      assert Path(leaves, i)[1..] == Path(Above(leaves), i / 2);
    }
  }

  // ---------- soundness ----------

  /** SOUNDNESS.  A path of the tree's height is accepted only for a leaf of the tree. */
  lemma {:induction false} AcceptedIsLeaf(leaves: seq<Digest>, leaf: Digest, path: seq<Sibling>)
    requires leaves != [] && |path| == Height(leaves)
    requires Accepts(leaf, path, Root(leaves))
    ensures leaf in leaves
    decreases |leaves|
  {
    if |leaves| > 1 {
      AcceptedIsLeaf(Above(leaves), Step(leaf, path[0]), path[1..]);
    }
  }

  // ---------- without fixing the path's length ----------

  predicate Proper(leaves: seq<Digest>) {
    forall i :: 0 <= i < |leaves| ==> leaves[i].OrderHash?
  }

  /** A tree of the given height: order hashes at the bottom, node hashes all the way up. */
  predicate Perfect(d: Digest, height: nat) {
    if height == 0 then d.OrderHash? else d.Node? && Perfect(d.left, height - 1) && Perfect(d.right, height - 1)
  }

  lemma {:induction false} LayersArePerfect(layer: seq<Digest>, height: nat)
    requires layer != [] && forall i :: 0 <= i < |layer| ==> Perfect(layer[i], height)
    ensures Perfect(Root(layer), height + Height(layer))
    decreases |layer|
  {
    if |layer| > 1 {
      LayersArePerfect(Above(layer), height + 1);
    }
  }

  lemma {:induction false} ClimbLast(acc: Digest, path: seq<Sibling>)
    requires path != []
    ensures Climb(acc, path) == Step(Climb(acc, path[..|path| - 1]), path[|path| - 1])
    decreases |path|
  {
    if |path| > 1 {
      var front := path[..|path| - 1];
      assert path[1..][..|path| - 2] == front[1..];
      ClimbLast(Step(acc, path[0]), path[1..]);
    }
  }

  lemma {:induction false} OrderHashAtTheBottom(acc: Digest, path: seq<Sibling>, height: nat)
    requires acc.OrderHash? && Perfect(Climb(acc, path), height)
    ensures |path| == height
    decreases |path|
  {
    if path != [] {
      ClimbLast(acc, path);
      OrderHashAtTheBottom(acc, path[..|path| - 1], height - 1);
    }
  }

  /** SOUNDNESS FOR ORDERS.  Whatever a proof's length, an order hash is accepted against the
      root of a book only if the book lists it. */
  lemma AcceptedOrderIsListed(leaves: seq<Digest>, leaf: Digest, path: seq<Sibling>)
    requires Proper(leaves) && leaf.OrderHash?
    requires Accepts(leaf, path, Root(leaves))
    ensures leaf in leaves
  {
    if leaves == [] {
      if path != [] { ClimbLast(leaf, path); }
    } else {
      LayersArePerfect(leaves, 0);
      OrderHashAtTheBottom(leaf, path, Height(leaves));
      AcceptedIsLeaf(leaves, leaf, path);
    }
  }

  /** EXACTLY.  Against the root of a book that lists something, an accepted hash is a leaf if
      and only if its path is as long as the tree is high: a length a verifier can check. */
  lemma LeafExactly(leaves: seq<Digest>, leaf: Digest, path: seq<Sibling>)
    requires Proper(leaves) && leaves != [] && Accepts(leaf, path, Root(leaves))
    ensures leaf in leaves <==> |path| == Height(leaves)
  {
    if leaf in leaves {
      LayersArePerfect(leaves, 0);
      OrderHashAtTheBottom(leaf, path, Height(leaves));
    } else if |path| == Height(leaves) {
      AcceptedIsLeaf(leaves, leaf, path);
    }
  }

  /** Neither condition can go: a node hash is accepted by a path cut short, and the empty
      book's root accepts itself. */
  lemma ShortPathsAcceptInnerNodes(a: Digest, b: Digest)
    ensures Accepts(Node(a, b), [], Root([a, b])) && Node(a, b) !in [a, b]
    ensures Accepts(Zero, [], Root([]))
  {
    Contains(a, b);
    assert Above([a, b]) == [Node(a, b)];
  }

  function Size(d: Digest): nat {
    match d
    case Node(l, r) => 1 + Size(l) + Size(r)
    case _ => 0
  }

  lemma Contains(a: Digest, b: Digest)
    ensures Node(a, b) != a && Node(a, b) != b
  {
    assert Size(Node(a, b)) == 1 + Size(a) + Size(b);
  }

  // ---------- the book's root ----------

  function Leaves(es: seq<BookEntry>): seq<Digest> {
    seq(|es|, i requires 0 <= i < |es| => OrderHash(Key(es[i])))
  }

  lemma FirstIsLeast(a: seq<BookEntry>, b: seq<BookEntry>)
    requires Sorted(a) && Sorted(b) && Hashes(a) == Hashes(b) && a != []
    ensures b != [] && Key(a[0]) == Key(b[0])
  {
    assert a[0] in a && Key(a[0]) in Hashes(b);
    var i :| 0 <= i < |b| && Key(b[i]) == Key(a[0]);
    assert b[0] in b && Key(b[0]) in Hashes(a);
    var j :| 0 <= j < |a| && Key(a[j]) == Key(b[0]);
    LessIsTotal(a[0], a[j]);
    LessIsTotal(b[0], b[i]);
    assert Less(a[0], a[j]) <==> Less(b[i], b[0]);
  }

  lemma TailHashes(a: seq<BookEntry>)
    requires Sorted(a) && a != []
    ensures Sorted(a[1..]) && Hashes(a[1..]) == Hashes(a) - {Key(a[0])}
  {
    assert a == [a[0]] + a[1..];
    forall x <- a[1..] ensures Key(x) != Key(a[0]) {
      LessIsTotal(a[0], x);
    }
  }

  /** Two clients holding the same orders list them alike and compute the same root, however
      and whenever each came by them. */
  lemma {:induction false} SameOrdersSameRoot(a: seq<BookEntry>, b: seq<BookEntry>)
    requires Sorted(a) && Sorted(b) && Hashes(a) == Hashes(b)
    ensures Leaves(a) == Leaves(b) && Root(Leaves(a)) == Root(Leaves(b))
    decreases |a|
  {
    if a == [] {
      assert forall x <- b :: Key(x) in Hashes(b);
    } else {
      FirstIsLeast(a, b);
      TailHashes(a);
      TailHashes(b);
      SameOrdersSameRoot(a[1..], b[1..]);
      assert Leaves(a) == [OrderHash(Key(a[0]))] + Leaves(a[1..]);
      assert Leaves(b) == [OrderHash(Key(b[0]))] + Leaves(b[1..]);
    }
  }

  // ---------- the loops ----------

  method NextLayer(layer: seq<Digest>) returns (next: seq<Digest>)
    requires layer != []
    ensures next == Above(layer)
  {
    var padded := if |layer| % 2 == 1 then layer + [layer[|layer| - 1]] else layer;
    next := [];
    var k := 0;
    while k < |padded|
      invariant k % 2 == 0 && 0 <= k <= |padded|
      invariant next == Above(layer)[..k / 2]
    {
      next := next + [Node(padded[k], padded[k + 1])];
      k := k + 2;
    }
  }

  /** `merkle_root`. */
  method MerkleRoot(leaves: seq<Digest>) returns (root: Digest)
    ensures root == Root(leaves)
  {
    if |leaves| == 0 {
      return Zero;
    }
    var layer := leaves;
    while |layer| > 1
      invariant layer != [] && Root(layer) == Root(leaves)
      decreases |layer|
    {
      layer := NextLayer(layer);
    }
    root := layer[0];
  }

  lemma PathStep(layer: seq<Digest>, i: nat, s: Sibling)
    requires i < |layer| && |layer| > 1 && SiblingIndex(i) < |Padded(layer)|
    requires s == Sibling(Padded(layer)[SiblingIndex(i)], SiblingIndex(i) > i)
    ensures i / 2 < |Above(layer)| < |layer|
    ensures forall done: seq<Sibling> :: done + Path(layer, i) == (done + [s]) + Path(Above(layer), i / 2)
  {
    OneLevel(layer, i);
  }

  /** `merkle_path`: the path a verifier accepts, for every leaf. */
  method MerklePath(leaves: seq<Digest>, i: nat) returns (path: seq<Sibling>)
    requires i < |leaves|
    ensures path == Path(leaves, i)
    ensures |path| == Height(leaves) && Accepts(leaves[i], path, Root(leaves))
  {
    path := [];
    var layer, idx: nat := leaves, i;
    while |layer| > 1
      invariant idx < |layer|
      invariant path + Path(layer, idx) == Path(leaves, i)
      decreases |layer|
    {
      var padded := if |layer| % 2 == 1 then layer + [layer[|layer| - 1]] else layer;
      var sib := if idx % 2 == 0 then idx + 1 else idx - 1;
      PathStep(layer, idx, Sibling(padded[sib], sib > idx));
      path := path + [Sibling(padded[sib], sib > idx)];
      layer := NextLayer(layer);
      idx := idx / 2;
    }
    PathsVerify(leaves, i);
  }

  /** `verify_inclusion`. */
  method VerifyInclusion(leaf: Digest, path: seq<Sibling>, root: Digest) returns (ok: bool)
    ensures ok == Accepts(leaf, path, root)
  {
    var acc := leaf;
    for k := 0 to |path|
      invariant Climb(leaf, path) == Climb(acc, path[k..])
    {
      assert path[k..][1..] == path[k + 1..];
      acc := if path[k].isRight then Node(acc, path[k].hash) else Node(path[k].hash, acc);
    }
    ok := acc == root;
  }

  /** `inclusion_proof`: there is a proof exactly for the listed orders, and it verifies. */
  method InclusionProof(leaves: seq<Digest>, order: Digest) returns (proof: Option<seq<Sibling>>)
    ensures proof.Some? <==> order in leaves
    ensures proof.Some? ==> Accepts(order, proof.value, Root(leaves))
  {
    for i := 0 to |leaves|
      invariant order !in leaves[..i]
    {
      if leaves[i] == order {
        var path := MerklePath(leaves, i);
        return Some(path);
      }
    }
    proof := None;
  }
}
