/**
 A period's blocks as the three streams' slots, and where each stream ends over them. The two
 streams that see the transactions chain the same ids, and the two that see the entries chain the
 same entries, whatever bytes the transactions hold.
 */
module ExhaustionPeriod {
  import opened Wrappers
  import opened ErgoScan
  import opened MerkleTree
  import opened MerkleStack
  import opened ScanLimbs
  import opened ExhaustionStreams

  datatype ExhaustionBlock = ExhaustionBlock(header: Bytes, transactions: seq<SectionTransaction>)

  // ----- Slots

  function SlotsOf(unsigned: Bytes, newBlock: bool): (slots: seq<TSlot>)
    ensures |slots| == SlotCount(|unsigned|)
  {
    var n := SlotCount(|unsigned|);
    seq(n, k requires 0 <= k < n => TSlot(BlockOf(unsigned, k), k == 0, k == 0 && newBlock, k == n - 1))
  }

  function BlockSlots(transactions: seq<SectionTransaction>): seq<TSlot> {
    if transactions == [] then []
    else
      var n := |transactions| - 1;
      BlockSlots(transactions[..n]) + SlotsOf(transactions[n].unsigned, n == 0)
  }

  function PeriodSlots(blocks: seq<ExhaustionBlock>): seq<TSlot> {
    if blocks == [] then [] else PeriodSlots(blocks[..|blocks| - 1]) + BlockSlots(blocks[|blocks| - 1].transactions)
  }

  function HeaderOps(header: Bytes): seq<MOp> {
    var n := SlotCount(|header|);
    seq(n, k requires 0 <= k < n => Header(BlockOf(header, k), k == n - 1))
  }

  function TreeOf(ops: seq<Op>): (all: seq<MOp>)
    ensures |all| == |ops|
  {
    seq(|ops|, i requires 0 <= i < |ops| => Tree(ops[i]))
  }

  /** The root a header's bytes hold. */
  function HeaderRoot(header: Bytes): Bytes {
    if |header| >= 97 then header[65..97] else if |header| > 65 then header[65..] else []
  }

  /** A block with transactions whose tree has the root in its header. */
  predicate Authentic(c: Circuit, block: ExhaustionBlock) {
    block.transactions != [] && MatchesRoot(Blake(c), MerkleTree.Read(Blake(c), block.transactions), HeaderRoot(block.header))
  }

  /** The operations of a block's tree: over the ids and then the witness ids where that gives the
      header's root, else over the ids. */
  ghost function BlockTree(c: Circuit, block: ExhaustionBlock): seq<Op> {
    var read := MerkleTree.Read(Blake(c), block.transactions);
    TreeProgram(RuleLeaves(!Root0(Blake(c), read, false, HeaderRoot(block.header)), read))
  }

  ghost function BlockTrees(c: Circuit, blocks: seq<ExhaustionBlock>): (trees: seq<seq<Op>>)
    ensures |trees| == |blocks|
  {
    seq(|blocks|, b requires 0 <= b < |blocks| => BlockTree(c, blocks[b]))
  }

  /** A block's tree under the rule that gives its root, run to one entry. */
  ghost predicate OpsOf(c: Circuit, block: ExhaustionBlock, tree: seq<Op>) {
    var h := Blake(c);
    var read := MerkleTree.Read(h, block.transactions);
    && tree == BlockTree(c, block)
    && exists idsOnly: bool, cap: nat :: IsTreeRun(h, read, idsOnly, tree, cap) && Root0(h, read, idsOnly, HeaderRoot(block.header))
  }

  ghost predicate IsTreeRun(h: Hash, read: seq<Committed>, idsOnly: bool, tree: seq<Op>, cap: nat) {
    read != [] && Pushed(tree) == RuleLeaves(idsOnly, read) && RunOps(h, tree, cap) == Some([Root(h, RuleLeaves(idsOnly, read))])
  }

  ghost predicate Root0(h: Hash, read: seq<Committed>, idsOnly: bool, root: Bytes) {
    read != [] && Root(h, RuleLeaves(idsOnly, read)) == root
  }

  function BlockOps(block: ExhaustionBlock, tree: seq<Op>): seq<MOp> {
    TreeOf(tree) + HeaderOps(block.header)
  }

  function PeriodOps(blocks: seq<ExhaustionBlock>, trees: seq<seq<Op>>): seq<MOp>
    requires |trees| == |blocks|
  {
    if blocks == [] then []
    else
      var n := |blocks| - 1;
      PeriodOps(blocks[..n], trees[..n]) + BlockOps(blocks[n], trees[n])
  }

  ghost predicate TreesOf(c: Circuit, blocks: seq<ExhaustionBlock>, trees: seq<seq<Op>>) {
    |trees| == |blocks| && forall b :: 0 <= b < |blocks| ==> OpsOf(c, blocks[b], trees[b])
  }

  lemma TreesAreBlocks(c: Circuit, blocks: seq<ExhaustionBlock>, trees: seq<seq<Op>>)
    requires TreesOf(c, blocks, trees)
    ensures trees == BlockTrees(c, blocks)
  {
    hide BlockTree;
    forall b | 0 <= b < |blocks|
      ensures trees[b] == BlockTree(c, blocks[b])
    {
      assert OpsOf(c, blocks[b], trees[b]);
    }
  }

  method CutSlots(unsigned: Bytes, newBlock: bool) returns (slots: seq<TSlot>)
    ensures slots == SlotsOf(unsigned, newBlock)
  {
    var n := SlotCount(|unsigned|);
    slots := [];
    for k := 0 to n
      invariant slots == SlotsOf(unsigned, newBlock)[..k]
    {
      slots := slots + [TSlot(BlockOf(unsigned, k), k == 0, newBlock && k == 0, k == n - 1)];
    }
  }

  method CutHeader(header: Bytes) returns (ops: seq<MOp>)
    requires |header| > 0
    ensures ops == HeaderOps(header)
  {
    ops := [];
    var k := 0;
    while k * SLOT < |header|
      invariant 0 <= k <= SlotCount(|header|)
      invariant k * SLOT < |header| <==> k < SlotCount(|header|)
      invariant ops == HeaderOps(header)[..k]
      decreases SlotCount(|header|) - k
    {
      ops := ops + [Header(BlockOf(header, k), (k + 1) * SLOT >= |header|)];
      k := k + 1;
    }
  }

  /** `periodStreams`: the slots and the operations of blocks that authenticate. */
  method PeriodStreams(c: Circuit, blocks: seq<ExhaustionBlock>) returns (r: Option<(seq<TSlot>, seq<MOp>)>, ghost trees: seq<seq<Op>>)
    requires Wide(Blake(c))
    ensures r.Some? <==> forall b :: 0 <= b < |blocks| ==> Authentic(c, blocks[b])
    ensures r.Some? ==> TreesOf(c, blocks, trees) && r.value == (PeriodSlots(blocks), PeriodOps(blocks, trees))
  {
    hide SlotsOf, HeaderOps, OpsOf, Root, RunOps, Pushed, MatchesRoot, Log2, TreeProgram;
    var t: seq<TSlot> := [];
    var m: seq<MOp> := [];
    trees := [];
    for b := 0 to |blocks|
      invariant t == PeriodSlots(blocks[..b])
      invariant TreesOf(c, blocks[..b], trees) && m == PeriodOps(blocks[..b], trees)
      invariant forall i :: 0 <= i < b ==> Authentic(c, blocks[i])
    {
      var block := blocks[b];
      if block.transactions == [] {
        assert !Authentic(c, block);
        return None, trees;
      }
      var sectionSlots := CutSection(block.transactions);
      var tree := CutTree(c, block);
      if tree.None? {
        return None, trees;
      }
      HeaderNotEmpty(c, block);
      var header := CutHeader(block.header);
      assert blocks[..b + 1][..b] == blocks[..b] && (trees + [tree.value])[..b] == trees;
      t := t + sectionSlots;
      assert m + BlockOps(block, tree.value) == m + (TreeOf(tree.value) + header);
      m := m + (TreeOf(tree.value) + header);
      trees := trees + [tree.value];
    }
    assert blocks[..|blocks|] == blocks;
    return Some((t, m)), trees;
  }

  method CutSection(transactions: seq<SectionTransaction>) returns (slots: seq<TSlot>)
    ensures slots == BlockSlots(transactions)
  {
    hide SlotsOf;
    slots := [];
    for j := 0 to |transactions|
      invariant slots == BlockSlots(transactions[..j])
    {
      assert transactions[..j + 1][..j] == transactions[..j];
      var more := CutSlots(transactions[j].unsigned, j == 0);
      slots := slots + more;
    }
    assert transactions[..|transactions|] == transactions;
  }

  /** A section's tree operations: over the ids and then the witness ids where that gives the root,
      else over the ids; nothing where neither does. */
  method CutTree(c: Circuit, block: ExhaustionBlock) returns (tree: Option<seq<Op>>)
    requires block.transactions != []
    ensures tree.Some? <==> Authentic(c, block)
    ensures tree.Some? ==> OpsOf(c, block, tree.value)
  {
    hide Root, RunOps, Pushed, Log2, TreeProgram;
    var h := Blake(c);
    var read := MerkleTree.Read(h, block.transactions);
    var root := HeaderRoot(block.header);
    var matches := SectionMatchesRoot(h, read, root);
    if matches != Some(true) {
      return None;
    }
    var both := MerkleRoot(h, RuleLeaves(false, read));
    var idsOnly := both.value != root;
    var ops := TreeOps(h, RuleLeaves(idsOnly, read));
    assert IsTreeRun(h, read, idsOnly, ops, Log2(|RuleLeaves(idsOnly, read)|) + 1);
    return Some(ops);
  }

  /** A header that holds a root is long enough to. */
  lemma HeaderNotEmpty(c: Circuit, block: ExhaustionBlock)
    requires Wide(Blake(c)) && Authentic(c, block)
    ensures |block.header| >= 97
  {
    var h := Blake(c);
    var read := MerkleTree.Read(h, block.transactions);
    RootWide(h, RuleLeaves(true, read));
    RootWide(h, RuleLeaves(false, read));
  }

  lemma RootWide(h: Hash, leaves: seq<Bytes>)
    requires Wide(h) && leaves != []
    ensures |Root(h, leaves)| == 32
  {
    hide LevelAt;
    NodesWide(h, leaves, Depth(|leaves|));
  }

  // ----- Over a transaction

  /** The position after a transaction's slots. */
  function NextHeight(t: TState, newBlock: bool): nat {
    if newBlock then t.height + 1 else t.height
  }

  function NextPosition(t: TState, newBlock: bool): nat {
    if newBlock then 0 else t.j + 1
  }

  /** Inside a transaction: `k` blocks hashed and scanned, more to come. */
  ghost predicate Inside(c: Circuit, t: TState, unsigned: Bytes, newBlock: bool, k: nat, now: TState) {
    && 0 < k < SlotCount(|unsigned|)
    && now.h == FoldOpen(c, unsigned, k) && now.t == SLOT * k && now.inTx
    && now.scan == Feed(Scan(START, []), unsigned, 0, SLOT * k).state
    && now.height == NextHeight(t, newBlock) && now.j == NextPosition(t, newBlock) && now.chain == t.chain
  }

  lemma BlockBounds(n: nat, k: nat)
    requires k < SlotCount(n)
    ensures SLOT * k <= n
    ensures k < SlotCount(n) - 1 ==> SLOT * (k + 1) <= n
    ensures k == SlotCount(n) - 1 ==> n <= SLOT * (k + 1)
  {
  }

  /** Scanning a block in place is scanning its bytes. */
  lemma {:induction false} FeedBlock(s: ScanState, bytes: Bytes, from: nat, block: Bytes, end: nat)
    requires from + end <= |bytes| && end <= |block| && forall i :: 0 <= i < end ==> block[i] == bytes[from + i]
    ensures Feed(Scan(s, []), block, 0, end).state == Feed(Scan(s, []), bytes, from, from + end).state
    ensures Raws(s, block, 0, end) == Raws(s, bytes, from, from + end)
    decreases end
  {
    hide Step, Ends;
    if end > 0 {
      FeedBlock(s, bytes, from, block, end - 1);
    }
  }

  /** Where the first `k` blocks of a string end. */
  function Reached(n: nat, k: nat): (end: nat)
    ensures end <= n
  {
    if SLOT * k <= n then SLOT * k else n
  }

  /** A slot's bytes are scanned as the transaction's own. */
  lemma SlotScans(unsigned: Bytes, k: nat)
    requires k < SlotCount(|unsigned|)
    ensures var block, s := BlockOf(unsigned, k), Feed(Scan(START, []), unsigned, 0, Reached(|unsigned|, k)).state;
      && Reached(|unsigned|, k) == SLOT * k && Reached(|unsigned|, k + 1) == SLOT * k + |block| && |block| <= SLOT
      && (k < SlotCount(|unsigned|) - 1 ==> |block| == SLOT)
      && (k == SlotCount(|unsigned|) - 1 ==> Reached(|unsigned|, k + 1) == |unsigned|)
      && Feed(Scan(s, []), block, 0, |block|).state == Feed(Scan(START, []), unsigned, 0, Reached(|unsigned|, k + 1)).state
      && Raws(START, unsigned, 0, Reached(|unsigned|, k + 1)) == Raws(START, unsigned, 0, Reached(|unsigned|, k)) + Raws(s, block, 0, |block|)
  {
    hide Feed, Raws;
    BlockBounds(|unsigned|, k);
    var from, block := SLOT * k, BlockOf(unsigned, k);
    var s := Feed(Scan(START, []), unsigned, 0, from).state;
    FeedBlock(s, unsigned, from, block, |block|);
    FeedSplit(Scan(START, []), unsigned, 0, from, from + |block|);
    FoundApart(Feed(Scan(START, []), unsigned, 0, from), unsigned, from, from + |block|);
    RawsSplit(START, unsigned, 0, from, from + |block|);
  }

  /** Before a transaction's slot `k`: at its start, or inside it. */
  ghost predicate Before(c: Circuit, t: TState, unsigned: Bytes, newBlock: bool, k: nat, now: TState) {
    if k == 0 then now == t else Inside(c, t, unsigned, newBlock, k, now)
  }

  /** After its last slot. */
  ghost predicate After(c: Circuit, t: TState, unsigned: Bytes, newBlock: bool, now: TState) {
    && !now.inTx && now.height == NextHeight(t, newBlock) && now.j == NextPosition(t, newBlock)
    && now.chain == IdChain(c, t.chain, Digest(c, unsigned), now.height, now.j)
  }

  function SlotAt(unsigned: Bytes, newBlock: bool, k: nat): TSlot
    requires k < SlotCount(|unsigned|)
  {
    TSlot(BlockOf(unsigned, k), k == 0, k == 0 && newBlock, k == SlotCount(|unsigned|) - 1)
  }

  lemma SlotAdvances(c: Circuit, t: TState, unsigned: Bytes, newBlock: bool, k: nat, now: TState)
    requires k < SlotCount(|unsigned|) && Before(c, t, unsigned, newBlock, k, now)
    ensures var next := TStep(c, now, SlotAt(unsigned, newBlock, k));
      if k + 1 < SlotCount(|unsigned|) then Inside(c, t, unsigned, newBlock, k + 1, next) else After(c, t, unsigned, newBlock, next)
    ensures TEmits(now, SlotAt(unsigned, newBlock, k))
      == Entries(Raws(Feed(Scan(START, []), unsigned, 0, Reached(|unsigned|, k)).state, BlockOf(unsigned, k), 0, |BlockOf(unsigned, k)|),
                 NextHeight(t, newBlock), NextPosition(t, newBlock))
  {
    hide IdChain, StreamChains, Feed, Raws, FoldOpen, Pad, BlockOf, Entries, SlotCount;
    SlotScans(unsigned, k);
    NothingFed(unsigned);
    FoldFirst(c, unsigned);
    if k + 1 < SlotCount(|unsigned|) {
      FoldMore(c, unsigned, k + 1);
      NoPadding(Feed(Scan(START, []), unsigned, 0, SLOT * (k + 1)).state);
    }
  }

  /** A transaction's slots run: every output with the shape emitted at its place, and at the end the
      transaction's id chained there. */
  lemma {:induction false} TransactionSlots(c: Circuit, t: TState, unsigned: Bytes, newBlock: bool, k: nat)
    requires k <= SlotCount(|unsigned|)
    ensures var now := RunT(c, t, SlotsOf(unsigned, newBlock)[..k]);
      if k < SlotCount(|unsigned|) then Before(c, t, unsigned, newBlock, k, now) else After(c, t, unsigned, newBlock, now)
    ensures EmitT(c, t, SlotsOf(unsigned, newBlock)[..k])
      == Entries(Raws(START, unsigned, 0, Reached(|unsigned|, k)), NextHeight(t, newBlock), NextPosition(t, newBlock))
    decreases k
  {
    hide IdChain, Feed, Raws, BlockOf, Inside, After, TStep, TEmits, SlotCount;
    var slots := SlotsOf(unsigned, newBlock);
    if k == 0 {
      assert slots[..0] == [];
      RunNothing(c, t);
      NothingFed(unsigned);
    } else {
      TransactionSlots(c, t, unsigned, newBlock, k - 1);
      assert slots[..k][..k - 1] == slots[..k - 1] && slots[..k][k - 1] == SlotAt(unsigned, newBlock, k - 1);
      SlotAdvances(c, t, unsigned, newBlock, k - 1, RunT(c, t, slots[..k - 1]));
      SlotScans(unsigned, k - 1);
    }
  }

  lemma NoPadding(s: ScanState)
    ensures PadScan(s, 0) == s
  {
  }

  lemma NothingFed(bytes: Bytes)
    ensures Feed(Scan(START, []), bytes, 0, 0) == Scan(START, []) && Raws(START, bytes, 0, 0) == []
  {
  }

  lemma RunNothing(c: Circuit, t: TState)
    ensures RunT(c, t, []) == t && EmitT(c, t, []) == []
  {
  }

  lemma FoldFirst(c: Circuit, bytes: Bytes)
    ensures FoldOpen(c, bytes, 0) == c.iv
  {
  }

  lemma FoldMore(c: Circuit, bytes: Bytes, k: nat)
    requires 0 < k < SlotCount(|bytes|)
    ensures FoldOpen(c, bytes, k) == c.compress(FoldOpen(c, bytes, k - 1), Pad(BlockOf(bytes, k - 1)), SLOT * k, false)
  {
  }

  lemma EntriesJoin(a: seq<Raw>, b: seq<Raw>, height: nat, position: nat)
    ensures Entries(a + b, height, position) == Entries(a, height, position) + Entries(b, height, position)
  {
  }
}
