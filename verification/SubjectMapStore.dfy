/**
 The map a prover or supplier keeps: each key's chain and entries, and the tree's nonempty nodes by
 level, updated in place as blocks are appended. `history` is every entry appended, in order; the
 store is proved to be the full tree of it.
 */
module SubjectMapStore {
  import opened Wrappers
  import opened ErgoScan
  import opened MerkleTree
  import opened SubjectIndex

  datatype KeyState = KeyState(count: nat, chain: Field, entries: seq<MapEntry>)

  /** One append: the entry, and the path its key had until then. */
  datatype MapUpdate = MapUpdate(entry: MapEntry, before: MapPath)

  /** A transaction's entries: its outputs with the shape, as the scan reads them. */
  function TransactionEntries(found: seq<Shaped>, height: nat, position: nat): (entries: seq<MapEntry>)
    requires forall s :: s in found ==> |s.subject| == 32
    ensures Wellsized(entries) && |entries| == |found|
  {
    seq(|found|, i requires 0 <= i < |found| => MapEntry(found[i].subject, height, position, found[i].output))
  }

  /** A block's entries, in order of position and output. */
  function BlockEntries(transactions: seq<Bytes>, height: nat): (entries: seq<MapEntry>)
    ensures Wellsized(entries)
  {
    if transactions == [] then []
    else
      var last := |transactions| - 1;
      SubjectsWide(transactions[last]);
      BlockEntries(transactions[..last], height) + TransactionEntries(ScanAll(transactions[last]), height, last)
  }

  lemma SubjectsWide(unsigned: Bytes)
    ensures forall s :: s in ScanAll(unsigned) ==> |s.subject| == 32
  {
    FeedWide(Scan(START, []), unsigned, 0, |unsigned|);
  }

  lemma {:induction false} FeedWide(sc: Scan, bytes: Bytes, from: nat, end: nat)
    requires from <= end <= |bytes| && forall s :: s in sc.found ==> |s.subject| == 32
    ensures forall s :: s in Feed(sc, bytes, from, end).found ==> |s.subject| == 32
    decreases end
  {
    hide Step, Ends;
    if from < end {
      FeedWide(sc, bytes, from, end - 1);
    }
  }

  /** A key's path over a history. */
  ghost predicate IsPath(h: Sponge, history: seq<MapEntry>, key: nat, path: MapPath)
    requires Wellsized(history)
  {
    && path.count == |EntriesOf(history, key)|
    && path.chain == ChainFrom(h, 0, EntriesOf(history, key))
    && |path.siblings| == MAP_DEPTH
    && SiblingsOf(h, history, key, path.siblings)
  }

  /** Updates list `entries` in order, each with its key's path over what came before it. */
  ghost predicate UpdatesOver(h: Sponge, history: seq<MapEntry>, entries: seq<MapEntry>, updates: seq<MapUpdate>)
    requires Wellsized(history) && Wellsized(entries)
  {
    && |updates| == |entries|
    && forall i :: 0 <= i < |updates| ==> UpdateOver(h, history + entries[..i], entries[i], updates[i])
  }

  ghost predicate UpdateOver(h: Sponge, history: seq<MapEntry>, e: MapEntry, update: MapUpdate)
    requires Wellsized(history) && |e.subject| == 32
  {
    update.entry == e && IsPath(h, history, SubjectKey(e.subject), update.before)
  }

  lemma UpdatesJoin(h: Sponge, history: seq<MapEntry>, a: seq<MapEntry>, b: seq<MapEntry>, ua: seq<MapUpdate>, ub: seq<MapUpdate>)
    requires Wellsized(history) && Wellsized(a) && Wellsized(b)
    requires UpdatesOver(h, history, a, ua) && UpdatesOver(h, history + a, b, ub)
    ensures UpdatesOver(h, history, a + b, ua + ub)
  {
    hide UpdateOver;
    forall i | 0 <= i < |a + b|
      ensures UpdateOver(h, history + (a + b)[..i], (a + b)[i], (ua + ub)[i])
    {
      if i < |a| {
        assert (a + b)[..i] == a[..i];
      } else {
        assert history + (a + b)[..i] == (history + a) + b[..i - |a|];
      }
    }
  }

  // ----- What is kept

  /** A node kept, or its level's empty subtree. */
  function NodeOf(h: Sponge, kept: map<nat, Field>, level: nat, index: nat): Field {
    if index in kept then kept[index] else EmptySubtree(h, level)
  }

  /** The nodes of a level are the full tree's, and those kept are those over an entry. */
  ghost predicate LevelHolds(h: Sponge, kept: map<nat, Field>, level: nat, history: seq<MapEntry>)
    requires Wellsized(history)
  {
    && (forall index: nat :: NodeOf(h, kept, level, index) == TreeNode(h, history, level, index))
    && kept.Keys == set e | e in history :: Shift(SubjectKey(e.subject), level)
  }

  ghost predicate KeyHolds(h: Sponge, keys: map<nat, KeyState>, history: seq<MapEntry>, key: nat)
    requires Wellsized(history)
  {
    var own := EntriesOf(history, key);
    && (key in keys <==> own != [])
    && (key in keys ==> keys[key] == KeyState(|own|, ChainFrom(h, 0, own), own))
  }

  ghost predicate KeysHold(h: Sponge, keys: map<nat, KeyState>, history: seq<MapEntry>)
    requires Wellsized(history)
  {
    forall key: nat :: KeyHolds(h, keys, history, key)
  }

  /** A key's state after one entry more. */
  function Extended(h: Sponge, keys: map<nat, KeyState>, e: MapEntry): KeyState
    requires |e.subject| == 32
  {
    var key := SubjectKey(e.subject);
    var state := if key in keys then keys[key] else KeyState(0, 0, []);
    KeyState(state.count + 1, h(EntryInput(state.chain, e)), state.entries + [e])
  }

  lemma KeyExtended(h: Sponge, keys: map<nat, KeyState>, history: seq<MapEntry>, e: MapEntry, other: nat)
    requires Wellsized(history) && |e.subject| == 32
    requires KeyHolds(h, keys, history, other) && KeyHolds(h, keys, history, SubjectKey(e.subject))
    ensures Wellsized(history + [e]) && KeyHolds(h, keys[SubjectKey(e.subject) := Extended(h, keys, e)], history + [e], other)
  {
    hide EntriesOf, ChainFrom, SubjectKey;
    AppendedEntries(history, e, other);
    EmptyChain(h);
    var own := EntriesOf(history, other);
    assert own + [] == own;
    if other == SubjectKey(e.subject) {
      ChainAppended(h, 0, own, e);
      assert Extended(h, keys, e) == KeyState(|own| + 1, h(EntryInput(ChainFrom(h, 0, own), e)), own + [e]);
    }
  }

  lemma KeysExtended(h: Sponge, keys: map<nat, KeyState>, history: seq<MapEntry>, e: MapEntry)
    requires Wellsized(history) && |e.subject| == 32 && KeysHold(h, keys, history)
    ensures Wellsized(history + [e])
    ensures var state, key := Extended(h, keys, e), SubjectKey(e.subject);
      && KeysHold(h, keys[key := state], history + [e])
      && MapLeaf(h, state.count, state.chain) == TreeNode(h, history + [e], 0, key)
  {
    hide EntriesOf, ChainFrom, SubjectKey, Extended;
    var key, now := SubjectKey(e.subject), history + [e];
    var keys' := keys[key := Extended(h, keys, e)];
    forall other: nat
      ensures KeyHolds(h, keys', now, other)
    {
      assert KeyHolds(h, keys, history, other) && KeyHolds(h, keys, history, key);
      KeyExtended(h, keys, history, e, other);
    }
    assert KeyHolds(h, keys', now, key);
    LeafNode0(h, now, key);
  }

  /** A level with its one moved node set holds the longer history. */
  lemma LevelMoved(h: Sponge, history: seq<MapEntry>, e: MapEntry, level: nat, kept: map<nat, Field>)
    requires Wellsized(history) && |e.subject| == 32 && LevelHolds(h, kept, level, history)
    ensures Wellsized(history + [e])
    ensures var index := Shift(SubjectKey(e.subject), level);
      LevelHolds(h, kept[index := TreeNode(h, history + [e], level, index)], level, history + [e])
  {
    hide TreeNode, EmptySubtree, Shift, SubjectKey;
    var moved := Shift(SubjectKey(e.subject), level);
    var set' := kept[moved := TreeNode(h, history + [e], level, moved)];
    forall index: nat
      ensures NodeOf(h, set', level, index) == TreeNode(h, history + [e], level, index)
    {
      assert NodeOf(h, kept, level, index) == TreeNode(h, history, level, index);
      if index != moved {
        AppendMovesPath(h, history, e, level, index);
      }
    }
    assert set'.Keys == kept.Keys + {moved};
  }

  class SubjectMap {
    const h: Sponge
    const tables: Tables
    var height: nat
    var id: Bytes
    var keys: map<nat, KeyState>
    var nodes: seq<map<nat, Field>>
    ghost var history: seq<MapEntry>

    ghost predicate Valid()
      reads this
    {
      && TablesOk(tables) && |id| == 32 && height < U32
      && Wellsized(history)
      && |nodes| == MAP_DEPTH + 1
      && (forall level: nat :: level <= MAP_DEPTH ==> LevelHolds(h, nodes[level], level, history))
      && KeysHold(h, keys, history)
    }

    /** The map at its start header: empty. */
    constructor (h: Sponge, tables: Tables, startId: Bytes, startHeight: nat)
      requires TablesOk(tables) && |startId| == 32 && startHeight < U32
      ensures Valid() && history == [] && this.h == h && id == startId && height == startHeight
    {
      hide TablesOk;
      this.h, this.tables, height, id := h, tables, startHeight, startId;
      keys, nodes, history := map[], seq(MAP_DEPTH + 1, _ => map[]), [];
      new;
      forall level: nat | level <= MAP_DEPTH
        ensures LevelHolds(h, nodes[level], level, [])
      {
        forall index: nat
          ensures NodeOf(h, nodes[level], level, index) == TreeNode(h, [], level, index)
        {
          EmptyHistory(h, level, index);
        }
      }
    }

    /** The map's root is the full tree's. */
    method Root() returns (root: Field)
      requires Valid()
      ensures root == MapRoot(h, history)
    {
      assert LevelHolds(h, nodes[MAP_DEPTH], MAP_DEPTH, history);
      root := NodeOf(h, nodes[MAP_DEPTH], MAP_DEPTH, 0);
    }

    /** The path for a key at the map's end. */
    method Path(key: nat) returns (path: MapPath)
      requires Valid()
      ensures IsPath(h, history, key, path)
    {
      hide TreeNode, Shift, EmptySubtree, TablesOk;
      var siblings: seq<nat> := [];
      var index := key;
      ShiftBegins(key);
      for l := 0 to MAP_DEPTH
        invariant index == Shift(key, l) && |siblings| == l
        invariant SiblingsOf(h, history, key, siblings)
      {
        assert LevelHolds(h, nodes[l], l, history);
        siblings := siblings + [NodeOf(h, nodes[l], l, if index % 2 == 0 then index + 1 else index - 1)];
        ShiftUp(key, l);
        index := index / 2;
      }
      assert KeyHolds(h, keys, history, key);
      path := if key in keys then MapPath(keys[key].count, keys[key].chain, siblings) else MapPath(0, 0, siblings);
    }

    /** The entries of a key but for the first `from`. */
    method Entries(key: nat, from: nat) returns (entries: seq<MapEntry>)
      requires Valid()
      ensures var own := EntriesOf(history, key); entries == if from <= |own| then own[from..] else []
    {
      assert KeyHolds(h, keys, history, key);
      var all := if key in keys then keys[key].entries else [];
      return if from <= |all| then all[from..] else [];
    }

    /** One entry: its key's chain extended and the nodes over it recomputed up to the root. */
    method Append(entry: MapEntry)
      requires Valid() && |entry.subject| == 32
      modifies this`keys, this`nodes, this`history
      ensures Valid() && history == old(history) + [entry]
    {
      hide TreeNode, Shift, EmptySubtree, ChainFrom, EntriesOf, LevelHolds, KeysHold, Extended, TablesOk, SubjectKey;
      ghost var before, now := history, history + [entry];
      var key := SubjectKey(entry.subject);
      KeysExtended(h, keys, history, entry);
      var state := Extended(h, keys, entry);
      keys, history := keys[key := state], now;
      var node, index := MapLeaf(h, state.count, state.chain), key;
      ShiftBegins(key);
      LevelMoved(h, before, entry, 0, nodes[0]);
      nodes := nodes[0 := nodes[0][index := node]];
      for l := 0 to MAP_DEPTH
        invariant |nodes| == MAP_DEPTH + 1 && index == Shift(key, l) && history == now && KeysHold(h, keys, now)
        invariant node == TreeNode(h, now, l, index)
        invariant forall level: nat :: level <= l ==> LevelHolds(h, nodes[level], level, now)
        invariant forall level: nat :: l < level <= MAP_DEPTH ==> LevelHolds(h, nodes[level], level, before)
      {
        assert LevelHolds(h, nodes[l], l, now);
        var sibling := NodeOf(h, nodes[l], l, if index % 2 == 0 then index + 1 else index - 1);
        KeptNode(h, nodes[l], l, now, Other(index));
        node := if index % 2 == 1 then MapNode(h, sibling, node) else MapNode(h, node, sibling);
        ParentOf(h, now, l, index);
        ShiftUp(key, l);
        index := index / 2;
        LevelMoved(h, before, entry, l + 1, nodes[l + 1]);
        nodes := nodes[l + 1 := nodes[l + 1][index := node]];
      }
    }

    /** The next block's finds appended in order; each comes with the path that its key had until then.
        A block past the last height is refused and changes nothing. */
    method AppendBlock(blockId: Bytes, transactions: seq<Bytes>) returns (updates: Option<seq<MapUpdate>>)
      requires Valid()
      modifies this
      ensures Valid()
      ensures updates.Some? <==> |blockId| == 32 && old(height) + 1 < U32
      ensures updates.None? ==> history == old(history) && height == old(height) && id == old(id)
      ensures updates.Some? ==>
        && height == old(height) + 1 && id == blockId
        && history == old(history) + BlockEntries(transactions, height)
        && UpdatesOver(h, old(history), BlockEntries(transactions, height), updates.value)
    {
      hide LevelHolds, KeysHold, UpdatesOver, BlockEntries, TablesOk;
      if |blockId| != 32 || height + 1 >= U32 {
        return None;
      }
      var next := height + 1;
      var done := AppendTransactions(transactions, next);
      id, height := blockId, next;
      return Some(done);
    }

    method AppendTransactions(transactions: seq<Bytes>, next: nat) returns (updates: seq<MapUpdate>)
      requires Valid()
      modifies this`keys, this`nodes, this`history
      ensures Valid() && history == old(history) + BlockEntries(transactions, next)
      ensures Wellsized(old(history)) && UpdatesOver(h, old(history), BlockEntries(transactions, next), updates)
    {
      hide LevelHolds, KeysHold, UpdatesOver, ScanAll, TransactionEntries, TablesOk, BlockEntries;
      updates := [];
      BlockBegins(h, history, next);
      for position := 0 to |transactions|
        invariant Valid() && Wellsized(old(history)) && history == old(history) + BlockEntries(transactions[..position], next)
        invariant UpdatesOver(h, old(history), BlockEntries(transactions[..position], next), updates)
      {
        BlockExtends(transactions, position, next);
        var found := ScanTransaction(tables, transactions[position]);
        var more := AppendFound(found, next, position);
        UpdatesJoin(h, old(history), BlockEntries(transactions[..position], next), TransactionEntries(found, next, position), updates, more);
        updates := updates + more;
      }
      assert transactions[..|transactions|] == transactions;
    }

    method AppendFound(found: seq<Shaped>, next: nat, position: nat) returns (updates: seq<MapUpdate>)
      requires Valid() && forall s :: s in found ==> |s.subject| == 32
      modifies this`keys, this`nodes, this`history
      ensures Valid() && history == old(history) + TransactionEntries(found, next, position)
      ensures Wellsized(old(history)) && UpdatesOver(h, old(history), TransactionEntries(found, next, position), updates)
    {
      hide IsPath, LevelHolds, KeysHold, TablesOk, SubjectKey;
      ghost var entries := TransactionEntries(found, next, position);
      updates := [];
      for i := 0 to |found|
        invariant Valid() && Wellsized(old(history)) && history == old(history) + entries[..i]
        invariant UpdatesOver(h, old(history), entries[..i], updates)
      {
        var entry := MapEntry(found[i].subject, next, position, found[i].output);
        var before := Path(SubjectKey(entry.subject));
        OneUpdate(h, history, entry, MapUpdate(entry, before));
        UpdatesJoin(h, old(history), entries[..i], [entry], updates, [MapUpdate(entry, before)]);
        assert entries[..i + 1] == entries[..i] + [entry];
        updates := updates + [MapUpdate(entry, before)];
        Append(entry);
      }
      assert entries[..|found|] == entries;
    }
  }

  lemma OneUpdate(h: Sponge, history: seq<MapEntry>, e: MapEntry, update: MapUpdate)
    requires Wellsized(history) && |e.subject| == 32 && UpdateOver(h, history, e, update)
    ensures UpdatesOver(h, history, [e], [update])
  {
    assert [e][..0] == [] && history + [] == history;
  }

  lemma KeptNode(h: Sponge, kept: map<nat, Field>, level: nat, history: seq<MapEntry>, index: nat)
    requires Wellsized(history) && LevelHolds(h, kept, level, history)
    ensures NodeOf(h, kept, level, index) == TreeNode(h, history, level, index)
  {
  }

  lemma BlockBegins(h: Sponge, history: seq<MapEntry>, height: nat)
    requires Wellsized(history)
    ensures BlockEntries([], height) == [] && history + [] == history && UpdatesOver(h, history, [], [])
  {
  }

  lemma BlockExtends(transactions: seq<Bytes>, position: nat, height: nat)
    requires position < |transactions|
    ensures forall s :: s in ScanAll(transactions[position]) ==> |s.subject| == 32
    ensures BlockEntries(transactions[..position + 1], height)
         == BlockEntries(transactions[..position], height) + TransactionEntries(ScanAll(transactions[position]), height, position)
  {
    hide ScanAll, TransactionEntries;
    SubjectsWide(transactions[position]);
    assert transactions[..position + 1][..position] == transactions[..position];
  }

  lemma ShiftBegins(key: nat)
    ensures Shift(key, 0) == key
  {
  }

  lemma EmptyChain(h: Sponge)
    ensures ChainFrom(h, 0, []) == 0
  {
  }

  lemma LeafNode0(h: Sponge, history: seq<MapEntry>, key: nat)
    requires Wellsized(history)
    ensures TreeNode(h, history, 0, key) == MapLeaf(h, |EntriesOf(history, key)|, ChainFrom(h, 0, EntriesOf(history, key)))
  {
  }

  lemma ParentOf(h: Sponge, history: seq<MapEntry>, level: nat, index: nat)
    requires Wellsized(history)
    ensures
      var own, other := TreeNode(h, history, level, index), TreeNode(h, history, level, Other(index));
      TreeNode(h, history, level + 1, index / 2) == if index % 2 == 1 then MapNode(h, other, own) else MapNode(h, own, other)
  {
    hide MapNode, LeafOf;
    assert index == 2 * (index / 2) || index == 2 * (index / 2) + 1;
  }
}
