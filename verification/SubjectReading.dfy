/**
 What a reader takes from a supplier for a subject's key at a fold: a path that gives the fold's
 root, and the entries that carry a kept tuple, or nothing, to the path's leaf. Where the sponge
 does not collide on what was hashed, what is accepted is exactly what the map holds.
 */
module SubjectReading {
  import opened ErgoScan
  import opened ScanAgreement
  import opened MerkleTree
  import opened SubjectIndex
  import opened SubjectMapStore

  // ----- Lists hashed

  ghost predicate Separates(h: Sponge, asked: iset<seq<nat>>) {
    && (forall x, y :: x in asked && y in asked && h(x) == h(y) ==> x == y)
    && (forall x :: x in asked ==> h(x) != 0)
  }

  /** The entries' links, from `start`. */
  ghost function ChainInputs(h: Sponge, start: Field, entries: seq<MapEntry>): iset<seq<nat>>
    requires Wellsized(entries)
  {
    iset n: nat | n < |entries| :: EntryInput(ChainFrom(h, start, entries[..n]), entries[n])
  }

  /** Everything hashed by the full tree of a history: each key's chain and leaf, and each node. */
  ghost function MapInputs(h: Sponge, history: seq<MapEntry>): iset<seq<nat>>
    requires Wellsized(history)
  {
    iset x | IsChainInput(h, history, x) || IsLeafInput(h, history, x) || IsNodeInput(h, history, x)
  }

  ghost predicate IsChainInput(h: Sponge, history: seq<MapEntry>, x: seq<nat>)
    requires Wellsized(history)
  {
    exists key: nat :: x in ChainInputs(h, 0, EntriesOf(history, key))
  }

  ghost predicate IsLeafInput(h: Sponge, history: seq<MapEntry>, x: seq<nat>)
    requires Wellsized(history)
  {
    exists key: nat :: var own := EntriesOf(history, key); own != [] && x == LeafInput(|own|, ChainFrom(h, 0, own))
  }

  ghost predicate IsNodeInput(h: Sponge, history: seq<MapEntry>, x: seq<nat>)
    requires Wellsized(history)
  {
    exists level: nat, index: nat :: IsNode(level, index) && x == ChildrenInput(h, history, level, index)
  }

  /** Whether the tree of 2^32 leaves has a node above this pair of children: at `level + 1` and `index`. */
  predicate IsNode(level: nat, index: nat) {
    level < MAP_DEPTH && index < Pow2(MAP_DEPTH - 1 - level)
  }

  ghost function ChildrenInput(h: Sponge, history: seq<MapEntry>, level: nat, index: nat): seq<nat>
    requires Wellsized(history)
  {
    NodeInput(TreeNode(h, history, level, 2 * index), TreeNode(h, history, level, 2 * index + 1))
  }

  /** Everything a reader hashes over a path. */
  ghost function PathInputs(h: Sponge, key: nat, path: MapPath): iset<seq<nat>> {
    iset x | (path.count != 0 && x == LeafInput(path.count, path.chain)) || IsClimbInput(h, key, MapLeaf(h, path.count, path.chain), path.siblings, x)
  }

  ghost predicate IsClimbInput(h: Sponge, key: nat, leaf: Field, siblings: seq<nat>, x: seq<nat>) {
    exists l: nat :: 0 < l <= |siblings| && x == ClimbInput(h, key, leaf, siblings[..l])
  }

  // ----- A path at the root

  lemma {:induction false} ClimbDescends(h: Sponge, history: seq<MapEntry>, asked: iset<seq<nat>>, key: nat, leaf: Field, siblings: seq<nat>, l: nat)
    requires Wellsized(history) && l <= |siblings| && Separates(h, asked)
    requires forall x :: IsNodeInput(h, history, x) || IsClimbInput(h, key, leaf, siblings, x) ==> x in asked
    requires ClimbMap(h, key, leaf, siblings[..l]) == TreeNode(h, history, l, Shift(key, l))
    requires key < U32 && |siblings| <= MAP_DEPTH
    ensures leaf == LeafOf(h, history, key)
    ensures SiblingsOf(h, history, key, siblings[..l])
  {
    hide ClimbInput, TreeNode, LeafOf, Shift;
    if l == 0 {
      LeafNode0(h, history, key);
      ShiftBegins(key);
      assert LeafOf(h, history, key) == TreeNode(h, history, 0, key) by { LeafIsNode(h, history, key); }
    } else {
      var index := Shift(key, l);
      var x, y := ClimbInput(h, key, leaf, siblings[..l]), ChildrenInput(h, history, l - 1, index);
      PlaceOfKey(key, l);
      assert IsNode(l - 1, index);
      assert IsClimbInput(h, key, leaf, siblings, x) && IsNodeInput(h, history, y);
      NodeOfChildren(h, history, l, index);
      assert x == y;
      ShiftUp(key, l - 1);
      LastClimbed(h, key, leaf, siblings, l);
      assert x[1] == y[1] && x[2] == y[2];
      ClimbDescends(h, history, asked, key, leaf, siblings, l - 1);
      assert siblings[..l] == siblings[..l - 1] + [siblings[l - 1]];
    }
  }

  /** A key's place at a level of the tree. */
  lemma {:induction false} PlaceOfKey(key: nat, l: nat)
    requires key < U32 && l <= MAP_DEPTH
    ensures Shift(key, l) < Pow2(MAP_DEPTH - l)
  {
    if l == 0 {
      Pow2Of32();
    } else {
      PlaceOfKey(key, l - 1);
    }
  }

  lemma LeafIsNode(h: Sponge, history: seq<MapEntry>, key: nat)
    requires Wellsized(history)
    ensures TreeNode(h, history, 0, key) == LeafOf(h, history, key)
  {
  }

  lemma NodeOfChildren(h: Sponge, history: seq<MapEntry>, level: nat, index: nat)
    requires Wellsized(history) && level > 0
    ensures TreeNode(h, history, level, index) == h(ChildrenInput(h, history, level - 1, index))
  {
  }

  lemma LastClimbed(h: Sponge, key: nat, leaf: Field, siblings: seq<nat>, l: nat)
    requires 0 < l <= |siblings|
    ensures ClimbMap(h, key, leaf, siblings[..l]) == h(ClimbInput(h, key, leaf, siblings[..l]))
    ensures ClimbInput(h, key, leaf, siblings[..l]) ==
      var below := ClimbMap(h, key, leaf, siblings[..l - 1]);
      if Shift(key, l - 1) % 2 == 1 then NodeInput(siblings[l - 1], below) else NodeInput(below, siblings[l - 1])
  {
    hide Shift;
    assert siblings[..l][..l - 1] == siblings[..l - 1];
  }

  /** A path that gives the map's root is the key's own: its count, its chain value, its siblings. */
  lemma {:induction false} AcceptedPathIsTrue(h: Sponge, history: seq<MapEntry>, key: nat, path: MapPath)
    requires Wellsized(history) && PathWellFormed(key, path)
    requires Separates(h, MapInputs(h, history) + PathInputs(h, key, path))
    requires ClimbMap(h, key, MapLeaf(h, path.count, path.chain), path.siblings) == MapRoot(h, history)
    ensures IsPath(h, history, key, path)
  {
    hide ClimbMap, TreeNode, Shift, IsNodeInput, IsClimbInput, IsChainInput, EntriesOf, ChainFrom;
    var leaf := MapLeaf(h, path.count, path.chain);
    KeyShiftedAway(key);
    assert path.siblings[..MAP_DEPTH] == path.siblings;
    ClimbDescends(h, history, MapInputs(h, history) + PathInputs(h, key, path), key, leaf, path.siblings, MAP_DEPTH);
    var own := EntriesOf(history, key);
    EmptyChain(h);
    var mine, its := LeafInput(path.count, path.chain), LeafInput(|own|, ChainFrom(h, 0, own));
    if own != [] {
      assert IsLeafInput(h, history, its);
    }
    if path.count != 0 && own != [] {
      assert mine == its;
      assert mine[1] == its[1] && mine[2] == its[2];
    }
  }

  // ----- Entries to a leaf

  /** Chains of one length from one value end alike only over the same entries. */
  lemma {:induction false} ChainsBind(h: Sponge, asked: iset<seq<nat>>, start: Field, a: seq<MapEntry>, b: seq<MapEntry>)
    requires Wellsized(a) && Wellsized(b) && |a| == |b| && Separates(h, asked)
    requires ChainInputs(h, start, a) <= asked && ChainInputs(h, start, b) <= asked
    requires ChainFrom(h, start, a) == ChainFrom(h, start, b)
    ensures a == b
  {
    hide EntryInput;
    if a != [] {
      var n := |a| - 1;
      var x, y := EntryInput(ChainFrom(h, start, a[..n]), a[n]), EntryInput(ChainFrom(h, start, b[..n]), b[n]);
      assert x in ChainInputs(h, start, a) && y in ChainInputs(h, start, b);
      InputNamesEntry(ChainFrom(h, start, a[..n]), a[n], ChainFrom(h, start, b[..n]), b[n]);
      ShorterChain(h, start, a, n);
      ShorterChain(h, start, b, n);
      ChainsBind(h, asked, start, a[..n], b[..n]);
      assert a == a[..n] + [a[n]] && b == b[..n] + [b[n]];
    }
  }

  lemma ShorterChain(h: Sponge, start: Field, a: seq<MapEntry>, n: nat)
    requires Wellsized(a) && n <= |a|
    ensures ChainInputs(h, start, a[..n]) <= ChainInputs(h, start, a)
  {
    hide EntryInput, ChainFrom;
    forall m: nat | m < n
      ensures EntryInput(ChainFrom(h, start, a[..n][..m]), a[..n][m]) in ChainInputs(h, start, a)
    {
      assert a[..n][..m] == a[..m];
    }
  }

  /** A link's list names its entry: the two limbs are the subject's two halves. */
  lemma InputNamesEntry(p: nat, a: MapEntry, q: nat, b: MapEntry)
    requires |a.subject| == |b.subject| == 32 && EntryInput(p, a) == EntryInput(q, b)
    ensures p == q && a == b
  {
    hide BigEndian;
    var x, y := EntryInput(p, a), EntryInput(q, b);
    assert x[1] == y[1] && x[2] == y[2] && x[3] == y[3] && x[4] == y[4] && x[5] == y[5] && x[6] == y[6];
    LimbRoundTrip(a.subject[..16]);
    LimbRoundTrip(b.subject[..16]);
    LimbRoundTrip(a.subject[16..]);
    LimbRoundTrip(b.subject[16..]);
    assert a.subject == a.subject[..16] + a.subject[16..] && b.subject == b.subject[..16] + b.subject[16..];
  }

  /** A tail's links are its list's. */
  lemma TailInputs(h: Sponge, own: seq<MapEntry>, n: nat)
    requires Wellsized(own) && n <= |own|
    ensures ChainInputs(h, ChainFrom(h, 0, own[..n]), own[n..]) <= ChainInputs(h, 0, own)
  {
    hide EntryInput, ChainFrom;
    var start := ChainFrom(h, 0, own[..n]);
    forall m: nat | m < |own| - n
      ensures EntryInput(ChainFrom(h, start, own[n..][..m]), own[n..][m]) in ChainInputs(h, 0, own)
    {
      ChainSplit(h, 0, own[..n], own[n..][..m]);
      assert own[..n] + own[n..][..m] == own[..n + m];
      assert own[n..][m] == own[n + m];
    }
  }

  /** Entries that carry the key's first `n` to its chain value at its count are its others. */
  lemma {:induction false} AcceptedEntriesAreTrue(h: Sponge, history: seq<MapEntry>, key: nat, n: nat, listed: seq<MapEntry>)
    requires Wellsized(history) && Wellsized(listed)
    requires var own := EntriesOf(history, key);
      && n <= |own| && |listed| == |own| - n
      && Separates(h, MapInputs(h, history) + ChainInputs(h, ChainFrom(h, 0, own[..n]), listed))
      && ChainFrom(h, ChainFrom(h, 0, own[..n]), listed) == ChainFrom(h, 0, own)
    ensures listed == EntriesOf(history, key)[n..]
  {
    hide ChainFrom, EntriesOf, ChainInputs, IsNodeInput, IsLeafInput;
    var own := EntriesOf(history, key);
    var start := ChainFrom(h, 0, own[..n]);
    ChainSplit(h, 0, own[..n], own[n..]);
    assert own[..n] + own[n..] == own;
    TailInputs(h, own, n);
    assert ChainInputs(h, 0, own) <= MapInputs(h, history) by {
      forall x | x in ChainInputs(h, 0, own)
        ensures IsChainInput(h, history, x)
      {
      }
    }
    ChainsBind(h, MapInputs(h, history) + ChainInputs(h, start, listed), start, listed, own[n..]);
  }
}
