/**
 Where the three streams end over a period: the transaction stream and the tree-and-header stream
 chain the same ids to the same height, the transaction stream and the map stream the same entries,
 and the map stream ends at the root of the longer history.
 */
module ExhaustionEnds {
  import opened Wrappers
  import opened ErgoScan
  import opened ScanAgreement
  import opened MerkleTree
  import opened MerkleStack
  import opened SubjectIndex
  import opened SubjectMapStore
  import opened Disagreement
  import opened ScanLimbs
  import opened ExhaustionStreams
  import opened ExhaustionPeriod

  function TransactionIds(c: Circuit, transactions: seq<SectionTransaction>): (ids: seq<Bytes>)
    ensures |ids| == |transactions|
  {
    seq(|transactions|, i requires 0 <= i < |transactions| => Digest(c, transactions[i].unsigned))
  }

  /** A block's ids chained at their positions. */
  function IdsChain(c: Circuit, previous: Field, ids: seq<Bytes>, height: nat): Field {
    if ids == [] then previous
    else IdChain(c, IdsChain(c, previous, ids[..|ids| - 1], height), ids[|ids| - 1], height, |ids| - 1)
  }

  /** A period's ids chained, block by block, from the child of `height`. */
  function BlocksChain(c: Circuit, previous: Field, blocks: seq<ExhaustionBlock>, height: nat): Field {
    if blocks == [] then previous
    else
      var n := |blocks| - 1;
      IdsChain(c, BlocksChain(c, previous, blocks[..n], height), TransactionIds(c, blocks[n].transactions), height + n + 1)
  }

  // ----- The transaction stream

  /** A transaction's entries, as the circuits carry them. */
  function TransactionEmits(unsigned: Bytes, height: nat, position: nat): seq<Entry> {
    Entries(Raws(START, unsigned, 0, |unsigned|), height, position)
  }

  function BlockEmits(transactions: seq<SectionTransaction>, height: nat): seq<Entry> {
    if transactions == [] then []
    else
      var n := |transactions| - 1;
      BlockEmits(transactions[..n], height) + TransactionEmits(transactions[n].unsigned, height, n)
  }

  function PeriodEmits(blocks: seq<ExhaustionBlock>, height: nat): seq<Entry> {
    if blocks == [] then []
    else
      var n := |blocks| - 1;
      PeriodEmits(blocks[..n], height) + BlockEmits(blocks[n].transactions, height + n + 1)
  }

  /** A transaction's slots, whole. */
  lemma TransactionRuns(c: Circuit, t: TState, unsigned: Bytes, newBlock: bool)
    ensures After(c, t, unsigned, newBlock, RunT(c, t, SlotsOf(unsigned, newBlock)))
    ensures EmitT(c, t, SlotsOf(unsigned, newBlock)) == TransactionEmits(unsigned, NextHeight(t, newBlock), NextPosition(t, newBlock))
  {
    hide SlotsOf, RunT, EmitT, After, Raws, Before;
    TransactionSlots(c, t, unsigned, newBlock, SlotCount(|unsigned|));
    WholeSlots(unsigned, newBlock);
  }

  /** A block's first transactions run. */
  ghost predicate InBlock(c: Circuit, t: TState, transactions: seq<SectionTransaction>, now: TState) {
    && !now.inTx && now.height == t.height + 1 && now.j == |transactions| - 1
    && now.chain == IdsChain(c, t.chain, TransactionIds(c, transactions), t.height + 1)
  }

  lemma InBlockGrows(c: Circuit, t: TState, transactions: seq<SectionTransaction>, before: TState, now: TState)
    requires transactions != []
    requires var n := |transactions| - 1;
      if n == 0 then before == t else InBlock(c, t, transactions[..n], before)
    requires After(c, before, transactions[|transactions| - 1].unsigned, |transactions| == 1, now)
    ensures InBlock(c, t, transactions, now)
  {
    hide IdChain, Digest;
    var n, ids := |transactions| - 1, TransactionIds(c, transactions);
    assert ids[..n] == TransactionIds(c, transactions[..n]) && ids[n] == Digest(c, transactions[n].unsigned);
    assert n == 0 ==> ids[..n] == [];
    assert IdsChain(c, t.chain, ids, t.height + 1) == IdChain(c, IdsChain(c, t.chain, ids[..n], t.height + 1), ids[n], t.height + 1, n);
  }

  lemma {:induction false} BlockRuns(c: Circuit, t: TState, transactions: seq<SectionTransaction>)
    requires transactions != []
    ensures InBlock(c, t, transactions, RunT(c, t, BlockSlots(transactions)))
    ensures EmitT(c, t, BlockSlots(transactions)) == BlockEmits(transactions, t.height + 1)
    decreases |transactions|
  {
    hide SlotsOf, RunT, EmitT, After, TransactionEmits, IdsChain;
    var n := |transactions| - 1;
    var unsigned, newBlock := transactions[n].unsigned, n == 0;
    var before := RunT(c, t, BlockSlots(transactions[..n]));
    if n == 0 {
      RunNothing(c, t);
    } else {
      BlockRuns(c, t, transactions[..n]);
    }
    RunTJoins(c, t, BlockSlots(transactions[..n]), SlotsOf(unsigned, newBlock));
    TransactionRuns(c, before, unsigned, newBlock);
    InBlockGrows(c, t, transactions, before, RunT(c, t, BlockSlots(transactions)));
  }

  lemma WholeSlots(unsigned: Bytes, newBlock: bool)
    ensures SlotsOf(unsigned, newBlock)[..SlotCount(|unsigned|)] == SlotsOf(unsigned, newBlock)
    ensures Reached(|unsigned|, SlotCount(|unsigned|)) == |unsigned|
  {
    var n := SlotCount(|unsigned|);
    assert SLOT * (n - 1) <= |unsigned| <= SLOT * n;
  }

  /** The transaction stream at the end of blocks. */
  ghost predicate TransactionsDone(c: Circuit, t: TState, blocks: seq<ExhaustionBlock>, now: TState) {
    !now.inTx && now.height == t.height + |blocks| && now.chain == BlocksChain(c, t.chain, blocks, t.height)
  }

  /** The transaction stream over a period of nonempty sections. */
  lemma {:induction false} TransactionStreamRuns(c: Circuit, t: TState, blocks: seq<ExhaustionBlock>)
    requires !t.inTx && forall b :: b in blocks ==> b.transactions != []
    ensures TransactionsDone(c, t, blocks, RunT(c, t, PeriodSlots(blocks)))
    ensures EmitT(c, t, PeriodSlots(blocks)) == PeriodEmits(blocks, t.height)
    decreases |blocks|
  {
    hide BlockSlots, RunT, EmitT, IdsChain, BlockEmits;
    if blocks == [] {
      RunNothing(c, t);
    } else {
      var n := |blocks| - 1;
      TransactionStreamRuns(c, t, blocks[..n]);
      assert blocks[n] in blocks;
      BlockRuns(c, RunT(c, t, PeriodSlots(blocks[..n])), blocks[n].transactions);
      RunTJoins(c, t, PeriodSlots(blocks[..n]), BlockSlots(blocks[n].transactions));
    }
  }

  // ----- The tree-and-header stream

  /** The ids among pushed leaves. */
  function IdsAmong(leaves: seq<Bytes>): seq<Bytes> {
    if leaves == [] then []
    else IdsAmong(leaves[..|leaves| - 1]) + if |leaves[|leaves| - 1]| == 32 then [leaves[|leaves| - 1]] else []
  }

  ghost predicate LiveIs(m: MState, live: seq<Bytes>) {
    m.sp == |live| && m.sp + 2 <= |m.stack| && m.stack[2..2 + m.sp] == live
  }

  lemma PutSlice(stack: seq<Bytes>, sp: nat, x: Bytes)
    requires sp + 2 <= |stack|
    ensures |Put(stack, sp + 2, x)| >= sp + 3 && Put(stack, sp + 2, x)[2..sp + 3] == stack[2..sp + 2] + [x]
  {
    var put := Put(stack, sp + 2, x);
    assert put[2..sp + 3][..sp] == stack[2..sp + 2];
  }

  lemma SetSlice(stack: seq<Bytes>, n: nat, x: Bytes)
    requires n + 3 <= |stack|
    ensures stack[n + 2 := x][2..n + 3] == stack[2..n + 2] + [x]
  {
  }

  /** The live entries but the last, in the buffer. */
  lemma LiveBelow(m: MState, live: seq<Bytes>, k: nat)
    requires LiveIs(m, live) && k <= |live|
    ensures k + 2 <= |m.stack| && m.stack[2..k + 2] == live[..k] && forall i :: 0 <= i < |live| ==> m.stack[i + 2] == live[i]
  {
  }

  /** One tree operation on the buffer is that operation on its live entries. */
  lemma TreeStep(c: Circuit, m: MState, live: seq<Bytes>, op: Op, cap: nat)
    requires LiveIs(m, live) && Exec(Blake(c), live, op, cap).Some?
    ensures Applies(m, Tree(op)) && LiveIs(MStep(c, m, Tree(op)), Exec(Blake(c), live, op, cap).value)
    ensures |m.stack| <= |MStep(c, m, Tree(op)).stack| && (|m.stack| >= cap + 2 ==> |MStep(c, m, Tree(op)).stack| == |m.stack|)
  {
    hide Digest;
    var n := |live|;
    match op {
      case Push(leaf) =>
        PutSlice(m.stack, m.sp, Digest(c, [0] + leaf));
      case Merge =>
        LiveBelow(m, live, n - 2);
        assert m.stack[m.sp] == live[n - 2] && m.stack[m.sp + 1] == live[n - 1];
        SetSlice(m.stack, n - 2, Digest(c, [1] + live[n - 2] + live[n - 1]));
      case Lift =>
        LiveBelow(m, live, n - 1);
        assert m.stack[m.sp + 1] == live[n - 1];
        SetSlice(m.stack, n - 1, Digest(c, [1] + live[n - 1]));
    }
  }

  /** The tree-and-header stream inside a block's tree: `ops` done, and `live` the live entries. */
  ghost predicate InTree(c: Circuit, m: MState, ops: seq<Op>, live: seq<Bytes>, now: MState) {
    && LiveIs(now, live)
    && now.chain == IdsChain(c, m.chain, IdsAmong(Pushed(ops)), m.height + 1) && now.j == |IdsAmong(Pushed(ops))|
    && now.prev == m.prev && now.height == m.height && now.inHeader == m.inHeader
  }

  lemma {:induction false} TreeRuns(c: Circuit, m: MState, ops: seq<Op>, cap: nat)
    requires m.sp == 0 && m.j == 0 && StackHolds(m) && RunOps(Blake(c), ops, cap).Some?
    ensures RunM(c, m, TreeOf(ops)).Some?
    ensures InTree(c, m, ops, RunOps(Blake(c), ops, cap).value, RunM(c, m, TreeOf(ops)).value)
    ensures |m.stack| >= cap + 2 ==> |RunM(c, m, TreeOf(ops)).value.stack| == |m.stack|
    decreases |ops|
  {
    hide Exec, Digest, Applies, MStep;
    var h := Blake(c);
    var all := TreeOf(ops);
    if ops == [] {
      assert m.stack[2..2] == [];
    } else {
      var n := |ops| - 1;
      TreeRuns(c, m, ops[..n], cap);
      assert all[..n] == TreeOf(ops[..n]) && all[n] == Tree(ops[n]);
      var before := RunM(c, m, all[..n]).value;
      TreeStep(c, before, RunOps(h, ops[..n], cap).value, ops[n], cap);
      PushKept(c, m, before, ops);
    }
  }

  lemma PushedIds(ops: seq<Op>)
    requires ops != []
    ensures var op, was := ops[|ops| - 1], IdsAmong(Pushed(ops[..|ops| - 1]));
      IdsAmong(Pushed(ops)) == if op.Push? && |op.leaf| == 32 then was + [op.leaf] else was
  {
    var was, now := Pushed(ops[..|ops| - 1]), Pushed(ops);
    var op := ops[|ops| - 1];
    if op.Push? {
      assert now == was + [op.leaf];
      assert now[..|now| - 1] == was;
    } else {
      assert now == was;
    }
  }

  lemma PushKept(c: Circuit, m: MState, before: MState, ops: seq<Op>)
    requires ops != [] && Applies(before, Tree(ops[|ops| - 1])) && before.height == m.height
    requires var was := IdsAmong(Pushed(ops[..|ops| - 1])); before.chain == IdsChain(c, m.chain, was, m.height + 1) && before.j == |was|
    ensures var next := MStep(c, before, Tree(ops[|ops| - 1]));
      && next.chain == IdsChain(c, m.chain, IdsAmong(Pushed(ops)), m.height + 1) && next.j == |IdsAmong(Pushed(ops))|
      && next.prev == before.prev && next.height == before.height && next.inHeader == before.inHeader
  {
    hide IdChain, Digest, IdsAmong, Pushed;
    PushedIds(ops);
    var was, now := IdsAmong(Pushed(ops[..|ops| - 1])), IdsAmong(Pushed(ops));
    if now != was {
      assert now[..|now| - 1] == was;
    }
  }

  /** Before a header's block `k`: at its start, or inside it. */
  ghost predicate InHeader(c: Circuit, m: MState, header: Bytes, k: nat, now: MState) {
    k < SlotCount(|header|) && now == if k == 0 then m else m.(mh := FoldOpen(c, header, k), hc := SLOT * k, inHeader := true)
  }

  /** After its last: the header's id stands, at the next height, and the stack is emptied. */
  ghost predicate HeaderDone(c: Circuit, m: MState, header: Bytes, now: MState) {
    && !now.inHeader && now.prev == Digest(c, header) && now.height == m.height + 1
    && now.j == 0 && now.sp == 0 && now.chain == m.chain && now.stack == m.stack
  }

  function HeaderOpAt(header: Bytes, k: nat): MOp
    requires k < SlotCount(|header|)
  {
    Header(BlockOf(header, k), k == SlotCount(|header|) - 1)
  }

  lemma HeaderAdvances(c: Circuit, m: MState, header: Bytes, k: nat, now: MState)
    requires !m.inHeader && StackHolds(m) && InHeader(c, m, header, k, now)
    ensures Applies(now, HeaderOpAt(header, k)) && StackHolds(MStep(c, now, HeaderOpAt(header, k)))
    ensures var next := MStep(c, now, HeaderOpAt(header, k));
      if k + 1 < SlotCount(|header|) then InHeader(c, m, header, k + 1, next) else HeaderDone(c, m, header, next)
  {
    hide Pad, FoldOpen, BlockOf, SlotCount, Digest;
    BlockReached(header, k);
    FoldFirst(c, header);
    var op, next := HeaderOpAt(header, k), MStep(c, now, HeaderOpAt(header, k));
    var h := if now.inHeader then now.mh else c.iv;
    assert h == FoldOpen(c, header, k);
    if k + 1 < SlotCount(|header|) {
      FoldMore(c, header, k + 1);
      assert next == now.(mh := FoldOpen(c, header, k + 1), hc := SLOT * (k + 1), inHeader := true);
    } else {
      DigestFolds(c, header);
    }
  }

  lemma DigestFolds(c: Circuit, bytes: Bytes)
    ensures var last := SlotCount(|bytes|) - 1;
      Digest(c, bytes) == c.cut(c.compress(FoldOpen(c, bytes, last), Pad(BlockOf(bytes, last)), |bytes|, true))
  {
    hide FoldOpen, Pad, BlockOf;
  }

  lemma BlockReached(bytes: Bytes, k: nat)
    requires k < SlotCount(|bytes|)
    ensures SLOT * k + |BlockOf(bytes, k)| == if k + 1 < SlotCount(|bytes|) then SLOT * (k + 1) else |bytes|
  {
    BlockBounds(|bytes|, k);
  }

  lemma {:induction false} HeaderRuns(c: Circuit, m: MState, header: Bytes, k: nat)
    requires !m.inHeader && StackHolds(m) && k <= SlotCount(|header|)
    ensures RunM(c, m, HeaderOps(header)[..k]).Some?
    ensures var now := RunM(c, m, HeaderOps(header)[..k]).value;
      if k < SlotCount(|header|) then InHeader(c, m, header, k, now) else HeaderDone(c, m, header, now)
    decreases k
  {
    hide HeaderDone, BlockOf, SlotCount, MStep, Applies;
    var ops := HeaderOps(header);
    if k == 0 {
      assert ops[..0] == [];
    } else {
      HeaderRuns(c, m, header, k - 1);
      assert ops[..k][..k - 1] == ops[..k - 1] && ops[..k][k - 1] == HeaderOpAt(header, k - 1);
      HeaderAdvances(c, m, header, k - 1, RunM(c, m, ops[..k - 1]).value);
    }
  }

  lemma {:induction false} IdsAreIds(section: seq<Committed>, n: nat)
    requires Committable(section) && n <= |section|
    ensures IdsAmong(MerkleTree.Ids(section)[..n]) == MerkleTree.Ids(section)[..n]
    decreases n
  {
    var ids := MerkleTree.Ids(section)[..n];
    if n > 0 {
      IdsAreIds(section, n - 1);
      assert ids[..n - 1] == MerkleTree.Ids(section)[..n - 1];
      assert |ids[n - 1]| == |section[n - 1].id| == 32;
    }
  }

  lemma {:induction false} WitnessesAreNot(ids: seq<Bytes>, section: seq<Committed>, n: nat)
    requires Committable(section) && n <= |section|
    ensures IdsAmong(ids + WitnessIds(section)[..n]) == IdsAmong(ids)
    decreases n
  {
    var wids := WitnessIds(section)[..n];
    if n == 0 {
      assert ids + wids == ids;
    } else {
      WitnessesAreNot(ids, section, n - 1);
      var all := ids + wids;
      assert all[..|all| - 1] == ids + WitnessIds(section)[..n - 1];
      assert |all[|all| - 1]| == |section[n - 1].witnessId| == 31;
    }
  }

  /** A section's ids are the ids among its leaves, under either rule. */
  lemma RuleIds(section: seq<Committed>, idsOnly: bool)
    requires Committable(section)
    ensures IdsAmong(RuleLeaves(idsOnly, section)) == MerkleTree.Ids(section)
  {
    hide IdsAmong;
    var n := |section|;
    IdsAreIds(section, n);
    WitnessesAreNot(MerkleTree.Ids(section), section, n);
    assert MerkleTree.Ids(section)[..n] == MerkleTree.Ids(section) && WitnessIds(section)[..n] == WitnessIds(section);
  }

  /** The tree-and-header stream at the end of blocks. */
  ghost predicate HeadersDone(c: Circuit, m: MState, blocks: seq<ExhaustionBlock>, now: MState) {
    && Between(now) && now.height == m.height + |blocks|
    && now.prev == (if blocks == [] then m.prev else Digest(c, blocks[|blocks| - 1].header))
    && now.chain == BlocksChain(c, m.chain, blocks, m.height)
  }

  /** Between blocks: no header begun, nothing on the stack. */
  predicate Between(m: MState) {
    !m.inHeader && m.sp == 0 && m.j == 0 && |m.stack| >= 2
  }

  /** A block's operations: its tree to one entry, its ids chained, and its header hashed. */
  lemma BlockOpsRun(c: Circuit, m: MState, block: ExhaustionBlock, tree: seq<Op>)
    requires Authentic(c, block) && OpsOf(c, block, tree) && Between(m)
    ensures RunM(c, m, BlockOps(block, tree)).Some?
    ensures var now := RunM(c, m, BlockOps(block, tree)).value;
      && Between(now) && now.prev == Digest(c, block.header) && now.height == m.height + 1
      && now.chain == IdsChain(c, m.chain, TransactionIds(c, block.transactions), m.height + 1)
  {
    hide IdsChain, Pushed, RunOps, Root, HeaderOps, MatchesRoot, Digest, IdsAmong, RunM, SlotCount;
    var h := Blake(c);
    var read := MerkleTree.Read(h, block.transactions);
    var idsOnly: bool, cap: nat :| IsTreeRun(h, read, idsOnly, tree, cap) && Root0(h, read, idsOnly, HeaderRoot(block.header));
    TreeRuns(c, m, tree, cap);
    var built := RunM(c, m, TreeOf(tree)).value;
    CommittableOf(h, read, HeaderRoot(block.header));
    RuleIds(read, idsOnly);
    assert MerkleTree.Ids(read) == TransactionIds(c, block.transactions);
    HeaderRuns(c, built, block.header, SlotCount(|block.header|));
    WholeHeader(block.header);
    RunMJoins(c, m, TreeOf(tree), HeaderOps(block.header));
  }

  lemma CommittableOf(h: Hash, read: seq<Committed>, root: Bytes)
    requires MatchesRoot(h, read, root)
    ensures Committable(read)
  {
  }

  lemma WholeHeader(header: Bytes)
    ensures |HeaderOps(header)| == SlotCount(|header|) && HeaderOps(header)[..SlotCount(|header|)] == HeaderOps(header)
  {
  }

  lemma HeadersGrow(c: Circuit, m: MState, blocks: seq<ExhaustionBlock>, before: MState, now: MState)
    requires blocks != [] && HeadersDone(c, m, blocks[..|blocks| - 1], before)
    requires var block := blocks[|blocks| - 1];
      && Between(now) && now.prev == Digest(c, block.header) && now.height == before.height + 1
      && now.chain == IdsChain(c, before.chain, TransactionIds(c, block.transactions), before.height + 1)
    ensures HeadersDone(c, m, blocks, now)
  {
    hide Digest, IdsChain, TransactionIds;
  }

  lemma NoOps(c: Circuit, m: MState)
    requires Between(m)
    ensures RunM(c, m, PeriodOps([], [])) == Some(m) && HeadersDone(c, m, [], m)
  {
  }

  lemma {:induction false} HeaderStreamRuns(c: Circuit, m: MState, blocks: seq<ExhaustionBlock>, trees: seq<seq<Op>>)
    requires TreesOf(c, blocks, trees) && (forall b :: 0 <= b < |blocks| ==> Authentic(c, blocks[b])) && Between(m)
    ensures RunM(c, m, PeriodOps(blocks, trees)).Some?
    ensures HeadersDone(c, m, blocks, RunM(c, m, PeriodOps(blocks, trees)).value)
    decreases |blocks|
  {
    hide BlockOps, IdsChain, OpsOf, Authentic, Digest, TransactionIds, RunM, PeriodOps, HeadersDone;
    if blocks == [] {
      NoOps(c, m);
    } else {
      var n := |blocks| - 1;
      HeaderStreamRuns(c, m, blocks[..n], trees[..n]);
      var ops := PeriodOps(blocks[..n], trees[..n]);
      var before := RunM(c, m, ops).value;
      DoneBetween(c, m, blocks[..n], before);
      BlockOpsRun(c, before, blocks[n], trees[n]);
      RunMJoins(c, m, ops, BlockOps(blocks[n], trees[n]));
      LastOps(blocks, trees);
      HeadersGrow(c, m, blocks, before, RunM(c, m, PeriodOps(blocks, trees)).value);
    }
  }

  lemma DoneBetween(c: Circuit, m: MState, blocks: seq<ExhaustionBlock>, now: MState)
    requires HeadersDone(c, m, blocks, now)
    ensures Between(now)
  {
  }

  lemma LastOps(blocks: seq<ExhaustionBlock>, trees: seq<seq<Op>>)
    requires |trees| == |blocks| > 0
    ensures var n := |blocks| - 1; PeriodOps(blocks, trees) == PeriodOps(blocks[..n], trees[..n]) + BlockOps(blocks[n], trees[n])
  {
    hide BlockOps;
  }

  // ----- The map stream

  /** An entry of the map and the same as the circuits carry it. */
  ghost predicate Carries(e: Entry, m: MapEntry) {
    |m.subject| == 32 && e == Entry(BigEndian(m.subject[..16]), BigEndian(m.subject[16..]), m.height, m.position, m.output)
  }

  ghost predicate AllCarry(entries: seq<Entry>, history: seq<MapEntry>) {
    |entries| == |history| && forall i :: 0 <= i < |entries| ==> Carries(entries[i], history[i])
  }

  lemma AllCarryJoin(a: seq<Entry>, b: seq<Entry>, p: seq<MapEntry>, q: seq<MapEntry>)
    requires AllCarry(a, p) && AllCarry(b, q)
    ensures AllCarry(a + b, p + q)
  {
    hide Carries;
  }

  lemma TransactionCarries(unsigned: Bytes, height: nat, position: nat)
    ensures forall s :: s in ScanAll(unsigned) ==> |s.subject| == 32
    ensures AllCarry(TransactionEmits(unsigned, height, position), TransactionEntries(ScanAll(unsigned), height, position))
  {
    hide Feed, Raws, LimbsOk, BigEndian, Shape;
    SubjectsWide(unsigned);
    StartsOk();
    RawsAreFound(START, unsigned, 0, |unsigned|);
    var raws := Raws(START, unsigned, 0, |unsigned|);
    forall i | 0 <= i < |raws|
      ensures Carries(TransactionEmits(unsigned, height, position)[i], TransactionEntries(ScanAll(unsigned), height, position)[i])
    {
      assert raws[i] in raws;
      ShapeLimbs(raws[i]);
      ShapeOutput(raws[i]);
    }
  }

  lemma ShapeOutput(raw: Raw)
    ensures Shape(raw).output == raw.output
  {
  }

  function Sections(blocks: seq<ExhaustionBlock>): (all: seq<seq<Bytes>>)
    ensures |all| == |blocks|
  {
    seq(|blocks|, b requires 0 <= b < |blocks| => UnsignedOf(blocks[b].transactions))
  }

  lemma {:induction false} BlockCarries(transactions: seq<SectionTransaction>, height: nat)
    ensures AllCarry(BlockEmits(transactions, height), BlockEntries(UnsignedOf(transactions), height))
  {
    hide AllCarry, TransactionEmits, ScanAll, TransactionEntries;
    if transactions == [] {
      NothingCarries();
    } else {
      var n := |transactions| - 1;
      BlockCarries(transactions[..n], height);
      assert UnsignedOf(transactions)[..n] == UnsignedOf(transactions[..n]);
      TransactionCarries(transactions[n].unsigned, height, n);
      AllCarryJoin(BlockEmits(transactions[..n], height), TransactionEmits(transactions[n].unsigned, height, n),
        BlockEntries(UnsignedOf(transactions[..n]), height), TransactionEntries(ScanAll(transactions[n].unsigned), height, n));
    }
  }

  lemma NothingCarries()
    ensures AllCarry([], [])
  {
  }

  /** The circuits' scan and the map agree on a period's entries, one for one. */
  lemma {:induction false} PeriodCarries(blocks: seq<ExhaustionBlock>, height: nat)
    ensures AllCarry(PeriodEmits(blocks, height), HistoryOf(height, Sections(blocks)))
  {
    hide AllCarry, BlockEmits, BlockEntries;
    if blocks == [] {
      NothingCarries();
    } else {
      var n := |blocks| - 1;
      PeriodCarries(blocks[..n], height);
      assert Sections(blocks)[..n] == Sections(blocks[..n]);
      BlockCarries(blocks[n].transactions, height + n + 1);
      AllCarryJoin(PeriodEmits(blocks[..n], height), BlockEmits(blocks[n].transactions, height + n + 1),
        HistoryOf(height, Sections(blocks[..n])), BlockEntries(UnsignedOf(blocks[n].transactions), height + n + 1));
    }
  }

  /** An update's root is the root of the history with its entry. */
  lemma UpdateMoves(c: Circuit, u: UState, history: seq<MapEntry>, e: MapEntry, update: MapUpdate)
    requires Wellsized(history) && |e.subject| == 32 && UpdateOver(c.sponge, history, e, update)
    ensures Wellsized(history + [e])
    ensures UStep(c, u, update) == UState(c.sponge(EntryInput(u.chain, e)), MapRoot(c.sponge, history + [e]))
  {
    hide TreeNode, ClimbMap, EntriesOf, ChainFrom, SubjectKey, EntryInput, MapLeaf;
    var key, now, siblings := SubjectKey(e.subject), history + [e], update.before.siblings;
    AppendedEntries(history, e, key);
    ChainAppended(c.sponge, 0, EntriesOf(history, key), e);
    LeafByCounts(c.sponge, now, key);
    forall l | 0 <= l < |siblings|
      ensures siblings[l] == TreeNode(c.sponge, now, l, Other(Shift(key, l)))
    {
      AppendMovesPath(c.sponge, history, e, l, Other(Shift(key, l)));
    }
    PathGivesMapRoot(c.sponge, now, key, siblings);
  }

  lemma LeafByCounts(h: Sponge, history: seq<MapEntry>, key: nat)
    requires Wellsized(history)
    ensures LeafOf(h, history, key) == MapLeaf(h, |EntriesOf(history, key)|, ChainFrom(h, 0, EntriesOf(history, key)))
  {
  }

  /** The map stream over updates: the root of the longer history, and the chain over its entries. */
  lemma {:induction false} MapStreamRuns(c: Circuit, u: UState, history: seq<MapEntry>, entries: seq<MapEntry>, carried: seq<Entry>, updates: seq<MapUpdate>)
    requires Wellsized(history) && Wellsized(entries) && u.root == MapRoot(c.sponge, history)
    requires UpdatesOver(c.sponge, history, entries, updates) && AllCarry(carried, entries)
    ensures UpdatesWide(updates) && Wellsized(history + entries)
    ensures RunU(c, u, updates) == UState(StreamChains(c, u.chain, carried), MapRoot(c.sponge, history + entries))
    decreases |updates|
  {
    hide UStep, UpdateOver, MapRoot, Carries;
    Widths(c, history, entries, updates);
    if updates == [] {
      assert history + entries == history;
    } else {
      var n := |updates| - 1;
      forall i | 0 <= i < n
        ensures UpdateOver(c.sponge, history + entries[..n][..i], entries[..n][i], updates[..n][i])
      {
        assert entries[..n][..i] == entries[..i];
      }
      MapStreamRuns(c, u, history, entries[..n], carried[..n], updates[..n]);
      UpdateMoves(c, RunU(c, u, updates[..n]), history + entries[..n], entries[n], updates[n]);
      assert history + entries[..n] + [entries[n]] == history + entries;
      CarriedInput(c, StreamChains(c, u.chain, carried[..n]), carried[n], entries[n]);
    }
  }

  lemma CarriedInput(c: Circuit, previous: Field, e: Entry, m: MapEntry)
    requires Carries(e, m)
    ensures StreamChain(c, previous, e) == c.sponge(EntryInput(previous, m))
  {
    hide BigEndian;
  }

  lemma Widths(c: Circuit, history: seq<MapEntry>, entries: seq<MapEntry>, updates: seq<MapUpdate>)
    requires Wellsized(history) && Wellsized(entries) && UpdatesOver(c.sponge, history, entries, updates)
    ensures UpdatesWide(updates)
  {
    forall i | 0 <= i < |updates|
      ensures |updates[i].entry.subject| == 32
    {
      assert UpdateOver(c.sponge, history + entries[..i], entries[i], updates[i]);
    }
  }

  // ----- A period's end

  /** `isPeriodEnd`: the three streams are between things, and agree on height and on both chains. */
  predicate IsPeriodEnd(s: ExhaustionState) {
    !s.t.inTx && !s.m.inHeader && s.m.sp == 0 && s.t.height == s.m.height && s.t.chain == s.m.chain && s.t.echain == s.u.chain
  }

  /** A period over a map of a known history: authentic blocks, and the updates their entries make. */
  ghost predicate PeriodOk(c: Circuit, height: nat, root: Field, history: seq<MapEntry>, blocks: seq<ExhaustionBlock>, updates: seq<MapUpdate>) {
    && Wide(Blake(c)) && Wellsized(history) && root == MapRoot(c.sponge, history)
    && (forall b :: 0 <= b < |blocks| ==> Authentic(c, blocks[b]))
    && UpdatesOver(c.sponge, history, HistoryOf(height, Sections(blocks)), updates)
  }

  /** No authentic period is unprovable: over any transaction bytes the streams reach the state a fold
      takes, at the last header and at the root of the longer history. */
  lemma {:induction false} PeriodEnds(c: Circuit, id: Bytes, height: nat, root: Field, history: seq<MapEntry>, blocks: seq<ExhaustionBlock>,
    trees: seq<seq<Op>>, updates: seq<MapUpdate>)
    requires PeriodOk(c, height, root, history, blocks, updates) && TreesOf(c, blocks, trees)
    ensures
      var start := StartState(c, id, height, root);
      UpdatesWide(updates) && RunM(c, start.m, PeriodOps(blocks, trees)).Some? && |EmitT(c, start.t, PeriodSlots(blocks))| == |updates|
    ensures
      var start := StartState(c, id, height, root);
      var end := ExhaustionState(RunT(c, start.t, PeriodSlots(blocks)), RunM(c, start.m, PeriodOps(blocks, trees)).value, RunU(c, start.u, updates));
      && IsPeriodEnd(end)
      && end.u.root == MapRoot(c.sponge, history + HistoryOf(height, Sections(blocks)))
      && end.m.height == height + |blocks|
      && end.m.prev == (if blocks == [] then id else Digest(c, blocks[|blocks| - 1].header))
  {
    hide RunT, EmitT, RunM, RunU, PeriodSlots, PeriodOps, OpsOf, BlocksChain, PeriodEmits, HistoryOf, MapRoot, StreamChains, MatchesRoot, Digest, UpdateOver, Carries;
    var start := StartState(c, id, height, root);
    forall b | b in blocks
      ensures b.transactions != []
    {
      var i :| 0 <= i < |blocks| && blocks[i] == b;
      assert Authentic(c, blocks[i]);
    }
    TransactionStreamRuns(c, start.t, blocks);
    HeaderStreamRuns(c, start.m, blocks, trees);
    PeriodCarries(blocks, height);
    MapStreamRuns(c, start.u, history, HistoryOf(height, Sections(blocks)), PeriodEmits(blocks, height), updates);
    EmissionsChained(c, start.t, PeriodSlots(blocks));
  }
}
