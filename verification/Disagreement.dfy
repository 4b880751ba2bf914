/**
 Evidence against a map: an included transaction inside the grammar whose shaped outputs for a key,
 as the framer reads them, are not the entries the map names at its place. Against a map built from
 the blocks it never fires, because the scan that builds the map agrees with the framer.
 */
module Disagreement {
  import opened ErgoScan
  import opened ErgoProfile
  import opened ScanAgreement
  import opened MerkleTree
  import opened SubjectIndex
  import opened SubjectMapStore
  import opened SubjectRead

  /** A key's entries as a read checked them: all those at heights above `after`. */
  datatype CheckedKey = CheckedKey(key: nat, after: nat, entries: seq<MapEntry>)

  datatype PlacedTransaction = PlacedTransaction(height: nat, position: nat, unsigned: Bytes)

  type Name = (nat, Bytes)

  /** The framed outputs with the shape for a key. */
  function NamesFramed(shaped: seq<Shaped>, key: nat): seq<Name>
    requires forall s :: s in shaped ==> |s.subject| == 32
  {
    if shaped == [] then []
    else
      var s := shaped[|shaped| - 1];
      NamesFramed(shaped[..|shaped| - 1], key) + if SubjectKey(s.subject) == key then [(s.output, s.subject)] else []
  }

  /** The entries a list names at a place. */
  function NamesAt(entries: seq<MapEntry>, height: nat, position: nat): seq<Name> {
    if entries == [] then []
    else
      var e := entries[|entries| - 1];
      NamesAt(entries[..|entries| - 1], height, position) + if e.height == height && e.position == position then [(e.output, e.subject)] else []
  }

  /** A key against a transaction. */
  predicate KeyDisagrees(k: CheckedKey, tx: PlacedTransaction) {
    var framed := Frame(tx.unsigned);
    framed.Some? && tx.height > k.after &&
    (ShapedWide(framed.value); NamesFramed(ShapedIn(framed.value), k.key) != NamesAt(k.entries, tx.height, tx.position))
  }

  lemma {:induction false} ShapedWide(outputs: seq<Output>)
    ensures forall s :: s in ShapedIn(outputs) ==> |s.subject| == 32
  {
    hide CollBytes;
    if outputs != [] {
      ShapedWide(outputs[..|outputs| - 1]);
    }
  }

  /** A key's entries by their place, built once. */
  method IndexByPlace(entries: seq<MapEntry>) returns (byPlace: map<(nat, nat), seq<Name>>)
    ensures forall height: nat, position: nat ::
      (if (height, position) in byPlace then byPlace[(height, position)] else []) == NamesAt(entries, height, position)
  {
    byPlace := map[];
    for i := 0 to |entries|
      invariant forall height: nat, position: nat ::
        (if (height, position) in byPlace then byPlace[(height, position)] else []) == NamesAt(entries[..i], height, position)
    {
      var e := entries[i];
      var place := (e.height, e.position);
      assert entries[..i + 1][..i] == entries[..i];
      byPlace := byPlace[place := if place in byPlace then byPlace[place] + [(e.output, e.subject)] else [(e.output, e.subject)]];
      assert NamesAt(entries[..i], e.height, e.position) + [(e.output, e.subject)] == NamesAt(entries[..i + 1], e.height, e.position);
    }
    assert entries[..|entries|] == entries;
  }

  method FilterNames(shaped: seq<Shaped>, key: nat) returns (names: seq<Name>)
    requires forall s :: s in shaped ==> |s.subject| == 32
    ensures names == NamesFramed(shaped, key)
  {
    names := [];
    for i := 0 to |shaped|
      invariant names == NamesFramed(shaped[..i], key)
    {
      assert shaped[..i + 1][..i] == shaped[..i];
      if SubjectKey(shaped[i].subject) == key {
        names := names + [(shaped[i].output, shaped[i].subject)];
      }
    }
    assert shaped[..|shaped|] == shaped;
  }

  /** `disagreement` for one transaction: some checked key disagrees with it. */
  method Disagrees(keys: seq<CheckedKey>, tx: PlacedTransaction) returns (bad: bool)
    ensures bad <==> exists k :: k in keys && KeyDisagrees(k, tx)
  {
    hide Frame, ShapedIn, NamesFramed, NamesAt;
    var shaped := ShapedOutputs(tx.unsigned);
    if shaped.None? {
      return false;
    }
    ShapedWide(Frame(tx.unsigned).value);
    for i := 0 to |keys|
      invariant forall k :: k in keys[..i] ==> !KeyDisagrees(k, tx)
    {
      var k := keys[i];
      if tx.height > k.after {
        var names := FilterNames(shaped.value, k.key);
        var byPlace := IndexByPlace(k.entries);
        var named := if (tx.height, tx.position) in byPlace then byPlace[(tx.height, tx.position)] else [];
        if names != named {
          assert KeyDisagrees(k, tx);
          return true;
        }
      }
      assert !KeyDisagrees(k, tx);
      assert keys[..i + 1] == keys[..i] + [k];
    }
    assert keys[..|keys|] == keys;
    return false;
  }

  // ----- A map built from the blocks

  /** The entries of blocks above `start`, in order. */
  function HistoryOf(start: nat, blocks: seq<seq<Bytes>>): (history: seq<MapEntry>)
    ensures Wellsized(history)
  {
    if blocks == [] then []
    else
      var n := |blocks| - 1;
      HistoryOf(start, blocks[..n]) + BlockEntries(blocks[n], start + n + 1)
  }

  lemma {:induction false} NamesJoin(a: seq<MapEntry>, b: seq<MapEntry>, height: nat, position: nat)
    ensures NamesAt(a + b, height, position) == NamesAt(a, height, position) + NamesAt(b, height, position)
  {
    if b == [] {
      assert a + b == a;
    } else {
      var n := |b| - 1;
      NamesJoin(a, b[..n], height, position);
      assert (a + b)[..|a + b| - 1] == a + b[..n];
    }
  }

  /** A transaction's entries name, for a key at their place, the found outputs; elsewhere nothing. */
  lemma {:induction false} TransactionNames(found: seq<Shaped>, at: nat, place: nat, key: nat, height: nat, position: nat)
    requires forall s :: s in found ==> |s.subject| == 32
    ensures NamesAt(EntriesOf(TransactionEntries(found, at, place), key), height, position)
         == if at == height && place == position then NamesFramed(found, key) else []
  {
    hide SubjectKey;
    var entries := TransactionEntries(found, at, place);
    if found != [] {
      var n := |found| - 1;
      TransactionNames(found[..n], at, place, key, height, position);
      assert entries[..n] == TransactionEntries(found[..n], at, place);
      var e := entries[n];
      var last := if SubjectKey(e.subject) == key then [e] else [];
      NamesJoin(EntriesOf(entries[..n], key), last, height, position);
      assert NamesAt([], height, position) == [];
      assert [e][..0] == [];
    }
  }

  lemma {:induction false} BlockNames(transactions: seq<Bytes>, at: nat, key: nat, height: nat, position: nat)
    ensures position < |transactions| ==> forall s :: s in ScanAll(transactions[position]) ==> |s.subject| == 32
    ensures NamesAt(EntriesOf(BlockEntries(transactions, at), key), height, position)
         == if at == height && position < |transactions| then NamesFramed(ScanAll(transactions[position]), key) else []
  {
    hide ScanAll, NamesFramed, SubjectKey;
    if position < |transactions| {
      SubjectsWide(transactions[position]);
    }
    if transactions != [] {
      var n := |transactions| - 1;
      SubjectsWide(transactions[n]);
      var before, more := BlockEntries(transactions[..n], at), TransactionEntries(ScanAll(transactions[n]), at, n);
      BlockNames(transactions[..n], at, key, height, position);
      TransactionNames(ScanAll(transactions[n]), at, n, key, height, position);
      EntriesJoin(before, more, key);
      NamesJoin(EntriesOf(before, key), EntriesOf(more, key), height, position);
    }
  }

  lemma LastBlockNames(start: nat, blocks: seq<seq<Bytes>>, key: nat, height: nat, position: nat)
    requires blocks != []
    ensures var n := |blocks| - 1;
      NamesAt(EntriesOf(HistoryOf(start, blocks), key), height, position)
      == NamesAt(EntriesOf(HistoryOf(start, blocks[..n]), key), height, position)
       + NamesAt(EntriesOf(BlockEntries(blocks[n], start + n + 1), key), height, position)
  {
    hide BlockEntries, NamesAt, EntriesOf;
    var n := |blocks| - 1;
    var before, more := HistoryOf(start, blocks[..n]), BlockEntries(blocks[n], start + n + 1);
    EntriesJoin(before, more, key);
    NamesJoin(EntriesOf(before, key), EntriesOf(more, key), height, position);
  }

  /** A history names at a place exactly what the scan found there. */
  lemma {:induction false} HistoryNames(start: nat, blocks: seq<seq<Bytes>>, key: nat, height: nat, position: nat)
    requires start < height <= start + |blocks| && position < |blocks[height - start - 1]|
    ensures forall s :: s in ScanAll(blocks[height - start - 1][position]) ==> |s.subject| == 32
    ensures NamesAt(EntriesOf(HistoryOf(start, blocks), key), height, position)
         == NamesFramed(ScanAll(blocks[height - start - 1][position]), key)
  {
    hide ScanAll, NamesFramed, BlockEntries, NamesAt, EntriesOf, HistoryOf;
    var n := |blocks| - 1;
    LastBlockNames(start, blocks, key, height, position);
    BlockNames(blocks[n], start + n + 1, key, height, position);
    if height <= start + n {
      HistoryNames(start, blocks[..n], key, height, position);
    } else {
      NoLaterNames(start, blocks[..n], key, height, position);
    }
  }

  lemma {:induction false} NoLaterNames(start: nat, blocks: seq<seq<Bytes>>, key: nat, height: nat, position: nat)
    requires height > start + |blocks|
    ensures NamesAt(EntriesOf(HistoryOf(start, blocks), key), height, position) == []
  {
    hide BlockEntries, ScanAll, NamesFramed;
    if blocks == [] {
      NothingYet(key);
    } else {
      var n := |blocks| - 1;
      NoLaterNames(start, blocks[..n], key, height, position);
      LastBlockNames(start, blocks, key, height, position);
      BlockNames(blocks[n], start + n + 1, key, height, position);
    }
  }

  /** Against a truthful map no transaction at its own place is evidence: a key's entries above a
      height the map passed name what the framer reads, whatever the transaction holds. */
  lemma {:induction false} TruthfulMapNeverDisagrees(start: nat, earlier: seq<seq<Bytes>>, since: seq<seq<Bytes>>, key: nat, tx: PlacedTransaction)
    requires start + |earlier| < tx.height <= start + |earlier| + |since|
    requires var block := since[tx.height - start - |earlier| - 1]; tx.position < |block| && block[tx.position] == tx.unsigned
    ensures !KeyDisagrees(CheckedKey(key, start + |earlier|, EntriesOf(HistoryOf(start + |earlier|, since), key)), tx)
  {
    hide Frame, ScanAll, ShapedIn, NamesFramed, NamesAt, EntriesOf;
    HistoryNames(start + |earlier|, since, key, tx.height, tx.position);
    if Frame(tx.unsigned).Some? {
      ScanAgrees(tx.unsigned);
    }
  }

  /** And a list that names anything else at the place of a framed transaction is evidence. */
  lemma FalseMapDisagrees(start: nat, blocks: seq<seq<Bytes>>, k: CheckedKey, tx: PlacedTransaction)
    requires start < tx.height <= start + |blocks| && tx.height > k.after && Frame(tx.unsigned).Some?
    requires var block := blocks[tx.height - start - 1]; tx.position < |block| && block[tx.position] == tx.unsigned
    ensures KeyDisagrees(k, tx) <==>
      NamesAt(k.entries, tx.height, tx.position) != NamesAt(EntriesOf(HistoryOf(start, blocks), k.key), tx.height, tx.position)
  {
    hide Frame, ScanAll, ShapedIn, NamesFramed, NamesAt, EntriesOf;
    HistoryNames(start, blocks, k.key, tx.height, tx.position);
    ScanAgrees(tx.unsigned);
  }

  /** A history is the earlier blocks' and then the later ones'. */
  lemma {:induction false} HistoryJoins(start: nat, earlier: seq<seq<Bytes>>, since: seq<seq<Bytes>>)
    ensures HistoryOf(start, earlier + since) == HistoryOf(start, earlier) + HistoryOf(start + |earlier|, since)
  {
    hide BlockEntries;
    if since == [] {
      assert earlier + since == earlier;
    } else {
      var n := |since| - 1;
      var all := earlier + since;
      HistoryJoins(start, earlier, since[..n]);
      assert all[..|all| - 1] == earlier + since[..n];
    }
  }

  // ----- Entries are of held places

  lemma {:induction false} BlockEntriesPlaced(transactions: seq<Bytes>, height: nat, e: MapEntry)
    requires e in BlockEntries(transactions, height)
    ensures e.height == height && e.position < |transactions|
  {
    hide ScanAll;
    var n := |transactions| - 1;
    SubjectsWide(transactions[n]);
    if e in BlockEntries(transactions[..n], height) {
      BlockEntriesPlaced(transactions[..n], height, e);
    }
  }

  lemma {:induction false} HistoryPlaced(start: nat, blocks: seq<seq<Bytes>>, e: MapEntry)
    requires e in HistoryOf(start, blocks)
    ensures start < e.height <= start + |blocks| && e.position < |blocks[e.height - start - 1]|
  {
    hide BlockEntries;
    var n := |blocks| - 1;
    if e in HistoryOf(start, blocks[..n]) {
      HistoryPlaced(start, blocks[..n], e);
    } else {
      BlockEntriesPlaced(blocks[n], start + n + 1, e);
    }
  }
}
