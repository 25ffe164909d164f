/**
 * Merkle commitment to a codeword (src/utils/merkle.rs).
 *
 * A tree is a list of layers, index 0 holding the root and the last holding the
 * leaf hashes; every internal node hashes the 64-byte concatenation of its two
 * children. Keccak-256 is not modelled: it is the parameter `keccak`, any
 * function from byte strings to 32-byte digests.
 */
module Merkle {
  import opened Field
  import opened Errors

  function ZeroBytes(n: nat): (s: seq<Byte>)
    ensures |s| == n
  {
    if n == 0 then [] else ZeroBytes(n - 1) + [0]
  }

  /** A Keccak-256 digest. */
  type Digest = d: seq<Byte> | |d| == 32 witness ZeroBytes(32)

  /** Keccak-256 over a byte string. */
  type Hasher = seq<Byte> -> Digest

  /** Layers of hashes: index 0 is the root layer, the last is the leaf layer. */
  datatype MerkleTree = MerkleTree(data: seq<seq<Digest>>)

  /** The root of a tree and the number of hashing rounds from a leaf to it. */
  datatype VectorCommitment = VectorCommitment(root: Digest, depth: nat)

  /**
   * `FriCommitment` of src/prover.rs: the commitment to the encoded polynomial and the
   * tower level of its coefficient field. Declared here so that the channel can absorb it.
   */
  datatype FriCommitment = FriCommitment(vectorCommitment: VectorCommitment, packingFactor: nat)

  /**
   * `hash_tuple`: the two elements' little-endian bytes, hashed one after the other,
   * which are the bytes of the two-element vector [pair.0, pair.1].
   */
  function HashTuple(keccak: Hasher, pair: (Elem, Elem)): (h: Digest)
    ensures h == keccak(ElemsLeBytes([pair.0, pair.1]))
  {
    assert [pair.0, pair.1][..1] == [pair.0];
    assert ElemsLeBytes([pair.0]) == ToLeBytes(pair.0) by {
      assert [pair.0][..0] == [];
    }
    assert ElemsLeBytes([pair.0, pair.1]) == ElemsLeBytes([pair.0]) + ToLeBytes(pair.1);
    keccak(ToLeBytes(pair.0) + ToLeBytes(pair.1))
  }

  /** The hash of an internal node: Keccak-256 of the left digest followed by the right. */
  function NodeHash(keccak: Hasher, left: Digest, right: Digest): Digest
  {
    keccak(left + right)
  }

  /** `hash_concatenation`: fills a 64-byte buffer with both digests, then hashes it. */
  method HashConcatenation(keccak: Hasher, data1: Digest, data2: Digest) returns (h: Digest)
    ensures h == NodeHash(keccak, data1, data2)
  {
    var val := new Byte[64];
    for i := 0 to 32
      invariant forall j :: 0 <= j < i ==> val[j] == data1[j] && val[j + 32] == data2[j]
    {
      val[i] := data1[i];
      val[i + 32] := data2[i];
    }
    assert val[..] == data1 + data2;
    h := keccak(val[..]);
  }

  /** `compute_leaf_hashes`: one leaf per pair of consecutive symbols. */
  function ComputeLeafHashes(keccak: Hasher, vals: seq<Elem>): (leaves: seq<Digest>)
    requires |vals| % 2 == 0
    ensures |leaves| == |vals| / 2
    ensures forall i :: 0 <= i < |leaves| ==> leaves[i] == HashTuple(keccak, (vals[2 * i], vals[2 * i + 1]))
  {
    seq(|vals| / 2, i requires 0 <= i < |vals| / 2 =>
      keccak(ToLeBytes(vals[2 * i]) + ToLeBytes(vals[2 * i + 1])))
  }

  /** `build_parent_layer`: hashes each pair of consecutive children. */
  function BuildParentLayer(keccak: Hasher, child: seq<Digest>): (parent: seq<Digest>)
    requires |child| % 2 == 0
    ensures |parent| == |child| / 2
  {
    seq(|child| / 2, i requires 0 <= i < |child| / 2 => NodeHash(keccak, child[2 * i], child[2 * i + 1]))
  }

  /** Layer k has 2^k nodes. */
  ghost predicate Shaped(data: seq<seq<Digest>>)
  {
    |data| >= 1 && forall k :: 0 <= k < |data| ==> |data[k]| == Pow2(k)
  }

  /** `data` is the tree over `leaves`: shaped, ending in the leaves, every node the hash of its children. */
  ghost predicate IsTree(keccak: Hasher, data: seq<seq<Digest>>, leaves: seq<Digest>)
  {
    && Shaped(data)
    && data[|data| - 1] == leaves
    && forall k, i {:trigger NodeOk(keccak, data, k, i)} :: 0 <= k < |data| - 1 && 0 <= i < |data[k]| ==> NodeOk(keccak, data, k, i)
  }

  /** Node i of layer k hashes its two children in layer k + 1. */
  ghost predicate NodeOk(keccak: Hasher, data: seq<seq<Digest>>, k: nat, i: nat)
    requires Shaped(data) && k < |data| - 1 && i < |data[k]|
  {
    assert |data[k + 1]| == 2 * |data[k]|;
    data[k][i] == NodeHash(keccak, data[k + 1][2 * i], data[k + 1][2 * i + 1])
  }

  function Reverse<T>(s: seq<T>): (r: seq<T>)
    ensures |r| == |s| && forall i :: 0 <= i < |s| ==> r[i] == s[|s| - 1 - i]
  {
    seq(|s|, i requires 0 <= i < |s| => s[|s| - 1 - i])
  }

  /**
   * The layers `merklize` has built so far over `leaves`, leaf layer first: layer t
   * has 2^(depth - t) nodes and each node of layer t + 1 hashes two of layer t.
   */
  ghost predicate LayersBuilt(keccak: Hasher, layers: seq<seq<Digest>>, leaves: seq<Digest>, depth: nat)
  {
    && 1 <= |layers| <= depth + 1
    && layers[0] == leaves
    && (forall t :: 0 <= t < |layers| ==> |layers[t]| == Pow2(depth - t))
    && forall t, i :: 0 <= t < |layers| - 1 && 0 <= i < |layers[t + 1]| ==>
         2 * i + 1 < |layers[t]| && layers[t + 1][i] == NodeHash(keccak, layers[t][2 * i], layers[t][2 * i + 1])
  }

  /** Building the parent of the last layer built extends the layers by one. */
  lemma LayersBuiltExtend(keccak: Hasher, layers: seq<seq<Digest>>, leaves: seq<Digest>, depth: nat)
    requires LayersBuilt(keccak, layers, leaves, depth) && |layers| <= depth
    ensures |layers[|layers| - 1]| % 2 == 0
    ensures LayersBuilt(keccak, layers + [BuildParentLayer(keccak, layers[|layers| - 1])], leaves, depth)
  {
    var j := |layers| - 1;
    assert Pow2(depth - j) == 2 * Pow2(depth - j - 1);
  }

  /** The full set of layers, reversed, is the tree over the leaves. */
  lemma LayersBuiltIsTree(keccak: Hasher, layers: seq<seq<Digest>>, leaves: seq<Digest>, depth: nat)
    requires LayersBuilt(keccak, layers, leaves, depth) && |layers| == depth + 1
    ensures IsTree(keccak, Reverse(layers), leaves)
  {
    LayersBuiltShaped(keccak, layers, leaves, depth);
    forall k, i | 0 <= k < depth && 0 <= i < |Reverse(layers)[k]|
      ensures NodeOk(keccak, Reverse(layers), k, i)
    {
      LayersBuiltNode(keccak, layers, leaves, depth, k, i);
    }
  }

  /** Node i of layer k of the reversed layers hashes its two children in layer k + 1. */
  lemma LayersBuiltNode(keccak: Hasher, layers: seq<seq<Digest>>, leaves: seq<Digest>, depth: nat, k: nat, i: nat)
    requires LayersBuilt(keccak, layers, leaves, depth) && |layers| == depth + 1
    requires Shaped(Reverse(layers)) && k < depth && i < |Reverse(layers)[k]|
    ensures NodeOk(keccak, Reverse(layers), k, i)
  {
    LayersBuiltParent(keccak, layers, leaves, depth, depth - k - 1, i);
  }

  /** Node i of built layer t + 1 hashes nodes 2i and 2i + 1 of layer t. */
  lemma LayersBuiltParent(keccak: Hasher, layers: seq<seq<Digest>>, leaves: seq<Digest>, depth: nat, t: nat, i: nat)
    requires LayersBuilt(keccak, layers, leaves, depth) && t + 1 < |layers| && i < |layers[t + 1]|
    ensures 2 * i + 1 < |layers[t]| && layers[t + 1][i] == NodeHash(keccak, layers[t][2 * i], layers[t][2 * i + 1])
  {
  }

  /** Layer k of the reversed layers has 2^k nodes. */
  lemma LayersBuiltShaped(keccak: Hasher, layers: seq<seq<Digest>>, leaves: seq<Digest>, depth: nat)
    requires LayersBuilt(keccak, layers, leaves, depth) && |layers| == depth + 1
    ensures Shaped(Reverse(layers))
  {
    var data := Reverse(layers);
    forall k | 0 <= k < |data|
      ensures |data[k]| == Pow2(k)
    {
      assert data[k] == layers[depth - k];
      assert depth - (depth - k) == k;
    }
  }

  /** `merklize`: pushes parent layers onto the leaf layer, then reverses the list. */
  method Merklize(keccak: Hasher, leafHashes: seq<Digest>) returns (tree: MerkleTree)
    requires IsPowerOfTwo(|leafHashes|)
    ensures |tree.data| == TrailingZeros(|leafHashes|) + 1
    ensures IsTree(keccak, tree.data, leafHashes)
  {
    var depth := TrailingZeros(|leafHashes|);
    var layers: seq<seq<Digest>> := [leafHashes];
    for j := 0 to depth
      invariant |layers| == j + 1
      invariant LayersBuilt(keccak, layers, leafHashes, depth)
    {
      LayersBuiltExtend(keccak, layers, leafHashes, depth);
      var parent := BuildParentLayer(keccak, layers[j]);
      layers := layers + [parent];
    }
    LayersBuiltIsTree(keccak, layers, leafHashes, depth);
    tree := MerkleTree(Reverse(layers));
  }

  /** `get_root`. */
  function GetRoot(tree: MerkleTree): (root: Digest)
    requires |tree.data| >= 1 && |tree.data[0]| >= 1
    ensures root == tree.data[0][0]
  {
    tree.data[0][0]
  }

  /** `index ^ 1`: the other child of the same parent. */
  function Sibling(i: nat): nat
  {
    if i % 2 == 0 then i + 1 else i - 1
  }

  /** The index of leaf `leafIndex`'s ancestor k levels up, and its bound. */
  lemma AncestorBound(leafIndex: nat, depth: nat, k: nat)
    requires leafIndex < Pow2(depth) && k <= depth
    ensures Shr(leafIndex, k) < Pow2(depth - k)
    ensures k < depth ==> Sibling(Shr(leafIndex, k)) < Pow2(depth - k)
  {
    ShrBound(leafIndex, k, depth);
    if k < depth {
      assert Pow2(depth - k) == 2 * Pow2(depth - k - 1);
      SiblingBound(Shr(leafIndex, k), Pow2(depth - k - 1));
    }
  }

  /** A node below 2m has its sibling below 2m too. */
  lemma SiblingBound(x: nat, m: nat)
    requires x < 2 * m
    ensures Sibling(x) < 2 * m
  {
    if x % 2 == 0 {
      assert x != 2 * m - 1;
    }
  }

  /** Sibling k of the authentication path: the sibling of the ancestor k levels above the leaf. */
  function PathNode(data: seq<seq<Digest>>, leafIndex: nat, k: nat): Digest
    requires Shaped(data) && leafIndex < |data[|data| - 1]| && k < |data| - 1
  {
    AncestorBound(leafIndex, |data| - 1, k);
    data[|data| - 1 - k][Sibling(Shr(leafIndex, k))]
  }

  /** The authentication path of a leaf, from the leaf's sibling up to a child of the root. */
  function MerklePath(data: seq<seq<Digest>>, leafIndex: nat): (path: seq<Digest>)
    requires Shaped(data) && leafIndex < |data[|data| - 1]|
    ensures |path| == |data| - 1
  {
    seq(|data| - 1, k requires 0 <= k < |data| - 1 => PathNode(data, leafIndex, k))
  }

  /** `get_merkle_path`: walks from the leaf layer up, halving the index each level. */
  method GetMerklePath(data: seq<seq<Digest>>, leafIndex: nat) returns (path: seq<Digest>)
    requires Shaped(data) && leafIndex < |data[|data| - 1]|
    ensures |path| == |data| - 1
    ensures forall k :: 0 <= k < |path| ==>
              Shr(leafIndex, k) < |data[|data| - 1 - k]| &&
              path[k] == data[|data| - 1 - k][Sibling(Shr(leafIndex, k))]
    ensures path == MerklePath(data, leafIndex)
  {
    var leafDepth := |data| - 1;
    var index := leafIndex;
    path := [];
    var depth := leafDepth;
    while depth >= 1
      invariant 0 <= depth <= leafDepth
      invariant |path| == leafDepth - depth
      invariant index == Shr(leafIndex, leafDepth - depth)
      invariant forall k :: 0 <= k < |path| ==> path[k] == PathNode(data, leafIndex, k)
    {
      AncestorBound(leafIndex, leafDepth, leafDepth - depth);
      path := path + [data[depth][Sibling(index)]];
      ShiftRightStep(leafIndex, leafDepth - depth);
      index := index / 2;
      depth := depth - 1;
    }
    forall k | 0 <= k < |path|
      ensures Shr(leafIndex, k) < |data[|data| - 1 - k]|
    {
      AncestorBound(leafIndex, leafDepth, k);
    }
  }

  /** One step up the tree: the current hash is the left child when the index bit is 0. */
  function Climb(keccak: Hasher, hash: Digest, sibling: Digest, isLeft: bool): Digest
  {
    if isLeft then NodeHash(keccak, hash, sibling) else NodeHash(keccak, sibling, hash)
  }

  /** The hash after the first n steps of recomputing the root from a leaf and its path. */
  function PathHash(keccak: Hasher, leafHash: Digest, leafIndex: nat, path: seq<Digest>, n: nat): Digest
    requires n <= |path|
  {
    if n == 0 then leafHash
    else Climb(keccak, PathHash(keccak, leafHash, leafIndex, path, n - 1), path[n - 1],
               Shr(leafIndex, n - 1) % 2 == 0)
  }

  /** What `verify_merkle_path` decides about a leaf, its index and its path. */
  function PathCheck(keccak: Hasher, commitment: VectorCommitment, leafHash: Digest, leafIndex: nat,
                     path: seq<Digest>): Result<()>
  {
    if |path| != commitment.depth then Err(PathLengthMismatch)
    else if PathHash(keccak, leafHash, leafIndex, path, |path|) == commitment.root then Ok(())
    else Err(PathRootMismatch(leafIndex))
  }

  /** `verify_merkle_path`: checks the path length, then recomputes the root bit by bit. */
  method VerifyMerklePath(keccak: Hasher, commitment: VectorCommitment, leafHash: Digest, leafIndex: nat,
                          merklePath: seq<Digest>) returns (r: Result<()>)
    ensures r.Ok? <==> |merklePath| == commitment.depth &&
                       PathHash(keccak, leafHash, leafIndex, merklePath, |merklePath|) == commitment.root
    ensures r == PathCheck(keccak, commitment, leafHash, leafIndex, merklePath)
  {
    var hash := leafHash;
    if |merklePath| != commitment.depth {
      return Err(PathLengthMismatch);
    }
    for d := 0 to |merklePath|
      invariant hash == PathHash(keccak, leafHash, leafIndex, merklePath, d)
    {
      var isLeftChild := Shr(leafIndex, d) % 2 == 0;
      if isLeftChild {
        hash := HashConcatenation(keccak, hash, merklePath[d]);
      } else {
        hash := HashConcatenation(keccak, merklePath[d], hash);
      }
    }
    if hash != commitment.root {
      return Err(PathRootMismatch(leafIndex));
    }
    r := Ok(());
  }

  /** One climbing step from node j of layer k + 1 with its sibling reaches its parent in layer k. */
  lemma ClimbToParent(keccak: Hasher, data: seq<seq<Digest>>, leaves: seq<Digest>, k: nat, j: nat)
    requires IsTree(keccak, data, leaves) && k < |data| - 1 && j < |data[k + 1]|
    ensures j / 2 < |data[k]| && Sibling(j) < |data[k + 1]|
    ensures Climb(keccak, data[k + 1][j], data[k + 1][Sibling(j)], j % 2 == 0) == data[k][j / 2]
  {
    assert |data[k + 1]| == 2 * |data[k]|;
    assert NodeOk(keccak, data, k, j / 2);
  }

  /** One step of the climb: from the ancestor n - 1 levels up, the path leads to the ancestor n levels up. */
  lemma PathHashStep(keccak: Hasher, data: seq<seq<Digest>>, leaves: seq<Digest>, leafIndex: nat, n: nat)
    requires IsTree(keccak, data, leaves) && leafIndex < |leaves| && 0 < n <= |data| - 1
    requires Shr(leafIndex, n - 1) < |data[|data| - n]| &&
             PathHash(keccak, leaves[leafIndex], leafIndex, MerklePath(data, leafIndex), n - 1)
             == data[|data| - n][Shr(leafIndex, n - 1)]
    ensures Shr(leafIndex, n) < |data[|data| - 1 - n]| &&
            PathHash(keccak, leaves[leafIndex], leafIndex, MerklePath(data, leafIndex), n)
            == data[|data| - 1 - n][Shr(leafIndex, n)]
  {
    var depth := |data| - 1;
    var path := MerklePath(data, leafIndex);
    var j := Shr(leafIndex, n - 1);
    AncestorBound(leafIndex, depth, n - 1);
    assert path[n - 1] == data[depth - n + 1][Sibling(j)];
    ClimbToParent(keccak, data, leaves, depth - n, j);
    ShiftRightStep(leafIndex, n - 1);
  }

  /** Climbing n levels along the path of a leaf of a well-formed tree reaches its ancestor n levels up. */
  lemma {:induction false} PathHashReachesAncestor(keccak: Hasher, data: seq<seq<Digest>>, leaves: seq<Digest>,
                                                   leafIndex: nat, n: nat)
    requires IsTree(keccak, data, leaves) && leafIndex < |leaves| && n <= |data| - 1
    ensures Shr(leafIndex, n) < |data[|data| - 1 - n]| &&
            PathHash(keccak, leaves[leafIndex], leafIndex, MerklePath(data, leafIndex), n)
            == data[|data| - 1 - n][Shr(leafIndex, n)]
  {
    if n > 0 {
      PathHashReachesAncestor(keccak, data, leaves, leafIndex, n - 1);
      PathHashStep(keccak, data, leaves, leafIndex, n);
    } else {
      assert Shr(leafIndex, 0) == leafIndex;
    }
  }

  /** The round trip of the module's test: a path from `get_merkle_path` verifies against the tree's root. */
  lemma MerklePathRoundTrip(keccak: Hasher, tree: MerkleTree, leaves: seq<Digest>, leafIndex: nat)
    requires IsTree(keccak, tree.data, leaves) && leafIndex < |leaves|
    ensures PathCheck(keccak, VectorCommitment(GetRoot(tree), |tree.data| - 1), leaves[leafIndex], leafIndex,
                      MerklePath(tree.data, leafIndex)) == Ok(())
  {
    var depth := |tree.data| - 1;
    PathHashReachesAncestor(keccak, tree.data, leaves, leafIndex, depth);
    ShrBound(leafIndex, depth, depth);
  }
}
