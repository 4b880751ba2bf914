/**
 The subject map: a tree of 2^32 leaves, one for each key, kept as its nonempty nodes and updated
 in place; paths and hash-chained entries read against its root.

 The sponge is any function of lists of integers. A reader's conclusions hold where it does not
 collide, and never gives zero, on the lists that were actually hashed.
 */
module SubjectIndex {
  import opened Wrappers
  import opened ErgoScan
  import opened ErgoProfile
  import opened ScanAgreement
  import opened MerkleTree

  const T_ENTRY := 1010
  const T_MAP_LEAF := 1011
  const T_MAP_NODE := 1012
  const MAP_DEPTH: nat := 32
  const U32: nat := 0x1_0000_0000
  const U64: nat := 0x1_0000_0000_0000_0000

  type Sponge = seq<nat> -> Field

  /** Where a subject was found: the block, the transaction in it and the output. */
  datatype MapEntry = MapEntry(subject: Bytes, height: nat, position: nat, output: nat)

  /** The leaf a subject belongs to, of 2^32. */
  function SubjectKey(subject: Bytes): (key: nat)
    requires |subject| == 32
    ensures key < U32
  {
    BigEndianBound(subject[28..]);
    assert Pow256(1) == 256 && Pow256(2) == 0x1_0000 && Pow256(3) == 0x100_0000 && Pow256(4) == U32;
    BigEndian(subject[28..])
  }

  function EntryInput(previous: nat, e: MapEntry): seq<nat>
    requires |e.subject| == 32
  {
    [T_ENTRY, previous, BigEndian(e.subject[..16]), BigEndian(e.subject[16..]), e.height, e.position, e.output]
  }

  function LeafInput(count: nat, chain: nat): seq<nat> {
    [T_MAP_LEAF, count, chain]
  }

  function NodeInput(left: nat, right: nat): seq<nat> {
    [T_MAP_NODE, left, right]
  }

  /** What stands at a leaf; nothing is hashed for a key without entries. */
  function MapLeaf(h: Sponge, count: nat, chain: nat): Field {
    if count == 0 then 0 else h(LeafInput(count, chain))
  }

  function MapNode(h: Sponge, left: nat, right: nat): Field {
    h(NodeInput(left, right))
  }

  /** The empty subtree of a level. */
  function EmptySubtree(h: Sponge, level: nat): Field {
    if level == 0 then 0 else MapNode(h, EmptySubtree(h, level - 1), EmptySubtree(h, level - 1))
  }

  // ----- The tree of a history

  predicate Wellsized(history: seq<MapEntry>) {
    forall e :: e in history ==> |e.subject| == 32
  }

  /** A key's entries, in order. */
  function EntriesOf(history: seq<MapEntry>, key: nat): (own: seq<MapEntry>)
    requires Wellsized(history)
    ensures Wellsized(own)
  {
    if history == [] then []
    else
      var e := history[|history| - 1];
      EntriesOf(history[..|history| - 1], key) + if SubjectKey(e.subject) == key then [e] else []
  }

  /** The chain value of entries appended to `start`. */
  function ChainFrom(h: Sponge, start: Field, entries: seq<MapEntry>): Field
    requires Wellsized(entries)
  {
    if entries == [] then start
    else h(EntryInput(ChainFrom(h, start, entries[..|entries| - 1]), entries[|entries| - 1]))
  }

  function LeafOf(h: Sponge, history: seq<MapEntry>, key: nat): Field
    requires Wellsized(history)
  {
    MapLeaf(h, |EntriesOf(history, key)|, ChainFrom(h, 0, EntriesOf(history, key)))
  }

  /** The full tree's node at a level and index, level 0 the leaves. */
  function TreeNode(h: Sponge, history: seq<MapEntry>, level: nat, index: nat): Field
    requires Wellsized(history)
  {
    if level == 0 then LeafOf(h, history, index)
    else MapNode(h, TreeNode(h, history, level - 1, 2 * index), TreeNode(h, history, level - 1, 2 * index + 1))
  }

  function MapRoot(h: Sponge, history: seq<MapEntry>): Field
    requires Wellsized(history)
  {
    TreeNode(h, history, MAP_DEPTH, 0)
  }

  function Other(index: nat): nat {
    if index % 2 == 0 then index + 1 else index - 1
  }

  lemma {:induction false} EmptyHistory(h: Sponge, level: nat, index: nat)
    ensures TreeNode(h, [], level, index) == EmptySubtree(h, level)
  {
    if level > 0 {
      EmptyHistory(h, level - 1, 2 * index);
      EmptyHistory(h, level - 1, 2 * index + 1);
    }
  }

  lemma AppendedEntries(history: seq<MapEntry>, e: MapEntry, key: nat)
    requires Wellsized(history) && |e.subject| == 32
    ensures Wellsized(history + [e])
    ensures EntriesOf(history + [e], key) == EntriesOf(history, key) + if SubjectKey(e.subject) == key then [e] else []
  {
    assert (history + [e])[..|history|] == history;
  }

  /** An entry moves only the nodes over its key. */
  lemma {:induction false} AppendMovesPath(h: Sponge, history: seq<MapEntry>, e: MapEntry, level: nat, index: nat)
    requires Wellsized(history) && |e.subject| == 32 && Shift(SubjectKey(e.subject), level) != index
    ensures Wellsized(history + [e]) && TreeNode(h, history + [e], level, index) == TreeNode(h, history, level, index)
  {
    hide MapNode, LeafOf;
    AppendedEntries(history, e, index);
    if level == 0 {
      assert LeafOf(h, history + [e], index) == LeafOf(h, history, index) by { SameLeaf(h, history + [e], history, index); }
    } else {
      AppendMovesPath(h, history, e, level - 1, 2 * index);
      AppendMovesPath(h, history, e, level - 1, 2 * index + 1);
    }
  }

  lemma SameLeaf(h: Sponge, a: seq<MapEntry>, b: seq<MapEntry>, key: nat)
    requires Wellsized(a) && Wellsized(b) && EntriesOf(a, key) == EntriesOf(b, key)
    ensures LeafOf(h, a, key) == LeafOf(h, b, key)
  {
  }

  lemma ChainAppended(h: Sponge, start: Field, entries: seq<MapEntry>, e: MapEntry)
    requires Wellsized(entries) && |e.subject| == 32
    ensures Wellsized(entries + [e]) && ChainFrom(h, start, entries + [e]) == h(EntryInput(ChainFrom(h, start, entries), e))
  {
    assert (entries + [e])[..|entries|] == entries;
  }

  lemma {:induction false} ChainSplit(h: Sponge, start: Field, a: seq<MapEntry>, b: seq<MapEntry>)
    requires Wellsized(a) && Wellsized(b)
    ensures Wellsized(a + b) && ChainFrom(h, start, a + b) == ChainFrom(h, ChainFrom(h, start, a), b)
  {
    if b == [] {
      assert a + b == a;
    } else {
      var n := |b| - 1;
      assert (a + b)[..|a + b| - 1] == a + b[..n];
      ChainSplit(h, start, a, b[..n]);
    }
  }

  // ----- Paths

  datatype MapPath = MapPath(count: nat, chain: nat, siblings: seq<nat>)

  function ClimbMap(h: Sponge, key: nat, leaf: Field, siblings: seq<nat>): Field {
    if siblings == [] then leaf
    else h(ClimbInput(h, key, leaf, siblings))
  }

  function ClimbInput(h: Sponge, key: nat, leaf: Field, siblings: seq<nat>): seq<nat>
    requires siblings != []
    decreases |siblings|, 0
  {
    var l := |siblings| - 1;
    var below := if l == 0 then leaf else h(ClimbInput(h, key, leaf, siblings[..l]));
    if Shift(key, l) % 2 == 1 then NodeInput(siblings[l], below) else NodeInput(below, siblings[l])
  }

  predicate PathWellFormed(key: int, path: MapPath) {
    && 0 <= key < U32
    && path.count < U64 && path.chain < P && (path.count == 0 ==> path.chain == 0)
    && |path.siblings| == MAP_DEPTH
    && forall l :: 0 <= l < MAP_DEPTH ==> path.siblings[l] < P
  }

  /** `pathRoot`: the root a path gives for a key, or nothing for a malformed path. */
  method PathRoot(h: Sponge, key: int, path: MapPath) returns (root: Option<Field>)
    ensures root == if PathWellFormed(key, path) then Some(ClimbMap(h, key, MapLeaf(h, path.count, path.chain), path.siblings)) else None
  {
    if !(0 <= key < U32) || path.count >= U64 || path.chain >= P || (path.count == 0 && path.chain != 0) || |path.siblings| != MAP_DEPTH {
      return None;
    }
    if exists l :: 0 <= l < MAP_DEPTH && path.siblings[l] >= P {
      return None;
    }
    var leaf := MapLeaf(h, path.count, path.chain);
    var node := leaf;
    for l := 0 to MAP_DEPTH
      invariant node == ClimbMap(h, key, leaf, path.siblings[..l])
    {
      ClimbUp(h, key, leaf, path.siblings, l);
      node := if Shift(key, l) % 2 == 1 then MapNode(h, path.siblings[l], node) else MapNode(h, node, path.siblings[l]);
    }
    assert path.siblings[..MAP_DEPTH] == path.siblings;
    return Some(node);
  }

  lemma ClimbUp(h: Sponge, key: nat, leaf: Field, siblings: seq<nat>, l: nat)
    requires l < |siblings|
    ensures var below := ClimbMap(h, key, leaf, siblings[..l]);
      ClimbMap(h, key, leaf, siblings[..l + 1]) == if Shift(key, l) % 2 == 1 then MapNode(h, siblings[l], below) else MapNode(h, below, siblings[l])
  {
    hide Shift;
    assert siblings[..l + 1][..l] == siblings[..l];
  }

  /** The siblings of a key's nodes, from the leaf's up. */
  ghost predicate SiblingsOf(h: Sponge, history: seq<MapEntry>, key: nat, siblings: seq<nat>)
    requires Wellsized(history)
  {
    forall l :: 0 <= l < |siblings| ==> siblings[l] == TreeNode(h, history, l, Other(Shift(key, l)))
  }

  /** Climbing from a key's leaf over its siblings passes through the tree's nodes. */
  lemma {:induction false} SiblingsClimb(h: Sponge, history: seq<MapEntry>, key: nat, siblings: seq<nat>, l: nat)
    requires Wellsized(history) && SiblingsOf(h, history, key, siblings) && l <= |siblings|
    ensures ClimbMap(h, key, LeafOf(h, history, key), siblings[..l]) == TreeNode(h, history, l, Shift(key, l))
  {
    hide LeafOf, ClimbInput;
    if l > 0 {
      SiblingsClimb(h, history, key, siblings, l - 1);
      ClimbUp(h, key, LeafOf(h, history, key), siblings, l - 1);
      ShiftUp(key, l - 1);
    }
  }

  lemma {:induction false} ShiftedAway(key: nat, k: nat)
    requires key < Pow2(k)
    ensures Shift(key, k) == 0
  {
    if k > 0 {
      ShiftHalf(key, k - 1);
      ShiftedAway(key / 2, k - 1);
    }
  }

  lemma {:induction false} ShiftHalf(key: nat, k: nat)
    ensures Shift(key, k + 1) == Shift(key / 2, k)
  {
    if k > 0 {
      ShiftHalf(key, k - 1);
    }
  }

  lemma KeyShiftedAway(key: nat)
    requires key < U32
    ensures Shift(key, MAP_DEPTH) == 0
  {
    Pow2Of32();
    ShiftedAway(key, MAP_DEPTH);
  }

  /** Round trip: a key's true path gives the map's root. */
  lemma PathGivesMapRoot(h: Sponge, history: seq<MapEntry>, key: nat, siblings: seq<nat>)
    requires Wellsized(history) && key < U32 && |siblings| == MAP_DEPTH && SiblingsOf(h, history, key, siblings)
    ensures ClimbMap(h, key, LeafOf(h, history, key), siblings) == MapRoot(h, history)
  {
    hide TreeNode, ClimbMap, LeafOf, Shift;
    SiblingsClimb(h, history, key, siblings, MAP_DEPTH);
    KeyShiftedAway(key);
    assert siblings[..MAP_DEPTH] == siblings;
  }
}
