/**
 The schedule of a period's proof: three streams taken in pieces, the first two by turns and the third
 as the first makes work for it. Any sizes and any order of turns give pieces that join end to start, and
 one end state.
 */
module ExhaustionLeaves {
  import opened Wrappers
  import opened ErgoScan
  import opened MerkleTree
  import opened SubjectIndex
  import opened SubjectMapStore
  import opened Disagreement
  import opened ScanLimbs
  import opened ScanSpacing
  import opened ExhaustionStreams
  import opened ExhaustionPeriod
  import opened ExhaustionEnds

  // ----- The leaves

  /** A slot's bytes scanned, one byte a step, the zeros that fill it included. */
  method ScanSlot(tables: Tables, scan0: ScanState, bytes: Bytes, height: nat, j: nat) returns (scan: ScanState, emitted: seq<Entry>)
    requires TablesOk(tables) && |bytes| <= ExhaustionStreams.SLOT
    ensures scan == PadScan(Feed(Scan(scan0, []), bytes, 0, |bytes|).state, ExhaustionStreams.SLOT - |bytes|)
    ensures emitted == Entries(Raws(scan0, bytes, 0, |bytes|), height, j)
  {
    hide Step, Ends, TablesOk;
    scan := scan0;
    emitted := [];
    for i := 0 to |bytes|
      invariant scan == Feed(Scan(scan0, []), bytes, 0, i).state
      invariant emitted == Entries(Raws(scan0, bytes, 0, i), height, j)
    {
      var before := scan;
      var next, shaped := ScanStep(tables, before, bytes[i]);
      EntriesJoin(Raws(scan0, bytes, 0, i), if shaped then [Raw(next.hi, next.lo, before.outputs)] else [], height, j);
      if shaped {
        emitted := emitted + [Entry(next.hi, next.lo, height, j, before.outputs)];
      }
      scan := next;
    }
    ghost var scanned := scan;
    for i := |bytes| to ExhaustionStreams.SLOT
      invariant PadScan(scan, ExhaustionStreams.SLOT - i) == PadScan(scanned, ExhaustionStreams.SLOT - |bytes|)
    {
      var before := scan;
      var next, shaped := ScanStep(tables, before, 0);
      scan := next.(outputs := before.outputs);
    }
    NoPadding(scan);
  }

  /** A slot hashed and scanned. */
  method RunSlot(c: Circuit, tables: Tables, t: TState, slot: TSlot) returns (after: TState, emitted: seq<Entry>)
    requires TablesOk(tables) && |slot.bytes| <= ExhaustionStreams.SLOT
    ensures after == TStep(c, t, slot).(echain := t.echain) && emitted == TEmits(t, slot)
  {
    hide IdChain, StreamChains, TablesOk, Feed, Raws, Entries, PadScan, Pad;
    var counted := (if slot.start then 0 else t.t) + |slot.bytes|;
    var d := c.compress(if slot.start then c.iv else t.h, Pad(slot.bytes), counted, slot.last);
    var height, j := HeightAt(t, slot), PositionAt(t, slot);
    var scan;
    scan, emitted := ScanSlot(tables, ScanAt(t, slot), slot.bytes, height, j);
    after := TState(d, counted, !slot.last, scan, height, j, if slot.last then IdChain(c, t.chain, c.cut(d), height, j) else t.chain, t.echain);
  }

  /** A slot emits four entries at most, so a leaf's list never overflows. */
  lemma {:induction false} EmitsBounded(c: Circuit, t: TState, slots: seq<TSlot>)
    requires forall s :: s in slots ==> |s.bytes| <= ExhaustionStreams.SLOT
    ensures |EmitT(c, t, slots)| <= LIST_PER_SLOT * |slots|
    decreases |slots|
  {
    hide TStep, Feed, Raws;
    if slots != [] {
      var n := |slots| - 1;
      EmitsBounded(c, t, slots[..n]);
      assert slots[n] in slots;
      var s := ScanAt(RunT(c, t, slots[..n]), slots[n]);
      RawsCount(s, slots[n].bytes, 0, |slots[n].bytes|);
      SlotEndsFour(Scan(s, []), slots[n].bytes, 0, |slots[n].bytes|);
    }
  }

  lemma {:induction false} RawsCount(s: ScanState, bytes: Bytes, from: nat, end: nat)
    requires from <= end <= |bytes|
    ensures |Raws(s, bytes, from, end)| == |Feed(Scan(s, []), bytes, from, end).found|
    decreases end
  {
    hide Step, Ends, LimbBytes;
    if from < end {
      RawsCount(s, bytes, from, end - 1);
    }
  }

  /** What runs without its entry chain runs alike with any. */
  lemma ChainApart(c: Circuit, t: TState, slot: TSlot, e: Field)
    ensures TEmits(t.(echain := e), slot) == TEmits(t, slot)
    ensures TStep(c, t.(echain := e), slot).(echain := 0) == TStep(c, t, slot).(echain := 0)
  {
    hide Step, Feed, Raws, IdChain, StreamChains, PadScan;
  }

  /** `transactionLeaf`: the state after the slots and the entries emitted; nothing where its list
      overflows. */
  method TransactionLeaf(c: Circuit, tables: Tables, t: TState, slots: seq<TSlot>, size: nat) returns (r: Option<(TState, seq<Entry>)>)
    requires TablesOk(tables) && (forall s :: s in slots ==> |s.bytes| <= ExhaustionStreams.SLOT)
    ensures r == if |EmitT(c, t, slots)| <= LIST_PER_SLOT * size then Some((RunT(c, t, slots), EmitT(c, t, slots))) else None
    ensures |slots| <= size ==> r.Some?
  {
    hide TStep, TEmits, StreamChain, TablesOk;
    EmitsBounded(c, t, slots);
    var after := t;
    var emitted: seq<Entry> := [];
    for i := 0 to |slots|
      invariant after == RunT(c, t, slots[..i]).(echain := t.echain)
      invariant emitted == EmitT(c, t, slots[..i])
    {
      assert slots[..i + 1][..i] == slots[..i] && slots[i] in slots;
      ghost var whole := RunT(c, t, slots[..i]);
      ChainApart(c, whole, slots[i], t.echain);
      var next, more := RunSlot(c, tables, after, slots[i]);
      after, emitted := next, emitted + more;
    }
    assert slots[..|slots|] == slots;
    if |emitted| > LIST_PER_SLOT * size {
      return None;
    }
    var echain := t.echain;
    for i := 0 to |emitted|
      invariant echain == StreamChains(c, t.echain, emitted[..i])
    {
      assert emitted[..i + 1][..i] == emitted[..i];
      echain := StreamChain(c, echain, emitted[i]);
    }
    assert emitted[..|emitted|] == emitted;
    EmissionsChained(c, t, slots);
    return Some((after.(echain := echain), emitted));
  }

  /** `treeLeaf`. */
  method TreeLeaf(c: Circuit, m: MState, ops: seq<MOp>) returns (after: MState)
    requires RunM(c, m, ops).Some?
    ensures Some(after) == RunM(c, m, ops)
  {
    hide MStep, Applies;
    after := m;
    OpsPrefix(c, m, ops, 0);
    for i := 0 to |ops|
      invariant Some(after) == RunM(c, m, ops[..i])
    {
      assert ops[..i + 1][..i] == ops[..i];
      OpsPrefix(c, m, ops, i + 1);
      after := MStep(c, after, ops[i]);
    }
    assert ops[..|ops|] == ops;
  }

  lemma OpsPrefix(c: Circuit, m: MState, ops: seq<MOp>, i: nat)
    requires RunM(c, m, ops).Some? && i <= |ops|
    ensures RunM(c, m, ops[..i]).Some? && (i == 0 ==> RunM(c, m, ops[..i]) == Some(m))
  {
    hide MStep, Applies;
    assert ops[..i] + ops[i..] == ops;
    RunMPrefix(c, m, ops[..i], ops[i..]);
  }

  /** `mapUpdateLeaf`: each update's path climbed from its new leaf. */
  method MapUpdateLeaf(c: Circuit, u: UState, updates: seq<MapUpdate>) returns (after: UState)
    requires UpdatesWide(updates)
    ensures after == RunU(c, u, updates)
  {
    hide SubjectKey, MapLeaf, ClimbMap, EntryInput;
    after := u;
    for i := 0 to |updates|
      invariant after == RunU(c, u, updates[..i])
    {
      assert updates[..i + 1][..i] == updates[..i];
      var update := updates[i];
      var key := SubjectKey(update.entry.subject);
      var leaf := MapLeaf(c.sponge, update.before.count + 1, c.sponge(EntryInput(update.before.chain, update.entry)));
      var node := leaf;
      assert update.before.siblings[..0] == [];
      NothingClimbed(c.sponge, key, leaf);
      for l := 0 to |update.before.siblings|
        invariant node == ClimbMap(c.sponge, key, leaf, update.before.siblings[..l])
      {
        ClimbUp(c.sponge, key, leaf, update.before.siblings, l);
        node := if Shift(key, l) % 2 == 1 then MapNode(c.sponge, update.before.siblings[l], node) else MapNode(c.sponge, node, update.before.siblings[l]);
      }
      assert update.before.siblings[..|update.before.siblings|] == update.before.siblings;
      after := UState(c.sponge(EntryInput(after.chain, update.entry)), node);
    }
    assert updates[..|updates|] == updates;
  }

  lemma NothingClimbed(h: Sponge, key: nat, leaf: Field)
    ensures ClimbMap(h, key, leaf, []) == leaf
  {
  }

  // ----- The schedule

  datatype Kind = TransactionKind | HeaderKind | MapKind

  /** A leaf: its kind and its state hashes. */
  datatype Leaf = Leaf(kind: Kind, sin: Field, sout: Field)

  datatype Sizes = Sizes(t: nat, m: nat, u: nat)

  /** The leaves join end to start, from one state hash to another. */
  ghost predicate Joined(leaves: seq<Leaf>, first: Field, last: Field) {
    if leaves == [] then first == last
    else leaves[0].sin == first && leaves[|leaves| - 1].sout == last && forall i :: 0 < i < |leaves| ==> leaves[i - 1].sout == leaves[i].sin
  }

  lemma JoinedExtends(leaves: seq<Leaf>, first: Field, last: Field, leaf: Leaf)
    requires Joined(leaves, first, last) && leaf.sin == last
    ensures Joined(leaves + [leaf], first, leaf.sout)
  {
  }

  function Lesser(a: nat, b: nat): nat {
    if a < b then a else b
  }

  lemma SlotsShort(unsigned: Bytes, newBlock: bool)
    ensures forall s :: s in SlotsOf(unsigned, newBlock) ==> |s.bytes| <= ExhaustionStreams.SLOT
  {
    forall k | 0 <= k < SlotCount(|unsigned|)
      ensures |BlockOf(unsigned, k)| <= ExhaustionStreams.SLOT
    {
      BlockReached(unsigned, k);
    }
  }

  lemma {:induction false} SectionShort(transactions: seq<SectionTransaction>)
    ensures forall s :: s in BlockSlots(transactions) ==> |s.bytes| <= ExhaustionStreams.SLOT
  {
    hide SlotsOf;
    if transactions != [] {
      var n := |transactions| - 1;
      SectionShort(transactions[..n]);
      SlotsShort(transactions[n].unsigned, n == 0);
    }
  }

  lemma {:induction false} PeriodShort(blocks: seq<ExhaustionBlock>)
    ensures forall s :: s in PeriodSlots(blocks) ==> |s.bytes| <= ExhaustionStreams.SLOT
  {
    hide BlockSlots;
    if blocks != [] {
      PeriodShort(blocks[..|blocks| - 1]);
      SectionShort(blocks[|blocks| - 1].transactions);
    }
  }

  /** Where the schedule stands: what each stream has run, and what the leaves join. */
  ghost predicate Scheduled(c: Circuit, start: ExhaustionState, slots: seq<TSlot>, ops: seq<MOp>, updates: seq<MapUpdate>,
    ti: nat, mi: nat, emitted: nat, applied: nat, state: ExhaustionState)
    requires UpdatesWide(updates)
  {
    && ti <= |slots| && mi <= |ops| && applied <= emitted <= |updates|
    && state.t == RunT(c, start.t, slots[..ti]) && emitted == |EmitT(c, start.t, slots[..ti])|
    && RunM(c, start.m, ops[..mi]) == Some(state.m)
    && state.u == RunU(c, start.u, updates[..applied])
  }

  lemma ScheduleTransactions(c: Circuit, start: ExhaustionState, slots: seq<TSlot>, ops: seq<MOp>, updates: seq<MapUpdate>,
    ti: nat, mi: nat, emitted: nat, applied: nat, state: ExhaustionState, n: nat)
    requires UpdatesWide(updates) && Scheduled(c, start, slots, ops, updates, ti, mi, emitted, applied, state)
    requires ti + n <= |slots| && |EmitT(c, start.t, slots)| == |updates|
    ensures Scheduled(c, start, slots, ops, updates, ti + n, mi, emitted + |EmitT(c, state.t, slots[ti..ti + n])|, applied,
      state.(t := RunT(c, state.t, slots[ti..ti + n])))
  {
    hide RunT, EmitT, RunM, RunU;
    assert slots[..ti] + slots[ti..ti + n] == slots[..ti + n];
    RunTJoins(c, start.t, slots[..ti], slots[ti..ti + n]);
    assert slots[..ti + n] + slots[ti + n..] == slots;
    RunTJoins(c, start.t, slots[..ti + n], slots[ti + n..]);
  }

  lemma ScheduleHeaders(c: Circuit, start: ExhaustionState, slots: seq<TSlot>, ops: seq<MOp>, updates: seq<MapUpdate>,
    ti: nat, mi: nat, emitted: nat, applied: nat, state: ExhaustionState, n: nat)
    requires UpdatesWide(updates) && Scheduled(c, start, slots, ops, updates, ti, mi, emitted, applied, state)
    requires mi + n <= |ops| && RunM(c, start.m, ops).Some?
    ensures RunM(c, state.m, ops[mi..mi + n]).Some?
    ensures Scheduled(c, start, slots, ops, updates, ti, mi + n, emitted, applied, state.(m := RunM(c, state.m, ops[mi..mi + n]).value))
  {
    hide RunT, EmitT, RunM, RunU;
    assert ops[..mi] + ops[mi..mi + n] == ops[..mi + n] && ops[..mi + n] + ops[mi + n..] == ops;
    RunMPrefix(c, start.m, ops[..mi + n], ops[mi + n..]);
    RunMJoins(c, start.m, ops[..mi], ops[mi..mi + n]);
  }

  lemma ScheduleUpdates(c: Circuit, start: ExhaustionState, slots: seq<TSlot>, ops: seq<MOp>, updates: seq<MapUpdate>,
    ti: nat, mi: nat, emitted: nat, applied: nat, state: ExhaustionState, n: nat)
    requires UpdatesWide(updates) && Scheduled(c, start, slots, ops, updates, ti, mi, emitted, applied, state)
    requires applied + n <= emitted
    ensures UpdatesWide(updates[applied..applied + n])
    ensures Scheduled(c, start, slots, ops, updates, ti, mi, emitted, applied + n, state.(u := RunU(c, state.u, updates[applied..applied + n])))
  {
    hide RunT, EmitT, RunM, RunU;
    assert updates[..applied] + updates[applied..applied + n] == updates[..applied + n];
    RunUJoins(c, start.u, updates[..applied], updates[applied..applied + n]);
  }

  /** The state after each stream run alone over its whole list. */
  ghost function PeriodEnd(c: Circuit, start: ExhaustionState, blocks: seq<ExhaustionBlock>, updates: seq<MapUpdate>): Option<ExhaustionState> {
    var m := RunM(c, start.m, PeriodOps(blocks, BlockTrees(c, blocks)));
    if m.None? || !UpdatesWide(updates) then None
    else Some(ExhaustionState(RunT(c, start.t, PeriodSlots(blocks)), m.value, RunU(c, start.u, updates)))
  }

  /** `leavesOf`: a period's leaves. `before` is how the two streams' progress is compared, and
      `hash` a state's hash; the end state depends on neither, nor on the sizes. */
  method LeavesOf(c: Circuit, tables: Tables, hash: ExhaustionState -> Field, id: Bytes, height: nat, root: Field, blocks: seq<ExhaustionBlock>,
    updates: seq<MapUpdate>, sizes: Sizes, before: (nat, nat) -> bool, ghost history: seq<MapEntry>)
    returns (r: Option<(seq<Leaf>, ExhaustionState)>)
    requires TablesOk(tables) && Wide(Blake(c)) && sizes.t > 0 && sizes.m > 0 && sizes.u > 0
    requires (forall b :: 0 <= b < |blocks| ==> Authentic(c, blocks[b])) ==> PeriodOk(c, height, root, history, blocks, updates)
    ensures r.Some? <==> forall b :: 0 <= b < |blocks| ==> Authentic(c, blocks[b])
    ensures r.Some? ==>
      var end := r.value.1;
      && Joined(r.value.0, hash(StartState(c, id, height, root)), hash(end))
      && IsPeriodEnd(end) && Wellsized(history) && end.u.root == MapRoot(c.sponge, history + HistoryOf(height, Sections(blocks)))
      && end.m.height == height + |blocks| && end.m.prev == (if blocks == [] then id else Digest(c, blocks[|blocks| - 1].header))
    ensures r.Some? ==> Some(r.value.1) == PeriodEnd(c, StartState(c, id, height, root), blocks, updates)
  {
    hide RunT, EmitT, RunM, RunU, PeriodSlots, PeriodOps, TreesOf, BlockTrees, Authentic, UpdatesOver, MapRoot, HistoryOf, Digest, IsPeriodEnd, StartState, Joined, TablesOk, Scheduled;
    var streams, trees := PeriodStreams(c, blocks);
    if streams.None? {
      return None;
    }
    var slots, ops := streams.value.0, streams.value.1;
    var start := StartState(c, id, height, root);
    PeriodEnds(c, id, height, root, history, blocks, trees, updates);
    PeriodShort(blocks);
    var leaves: seq<Leaf> := [];
    var state := start;
    var ti: nat, mi: nat, emitted: nat, applied: nat := 0, 0, 0, 0;
    ScheduleBegins(c, start, slots, ops, updates);
    JoinedBegins(hash(start));
    while ti < |slots| || mi < |ops| || applied < emitted
      invariant ti <= |slots| && mi <= |ops| && applied <= emitted <= |updates|
      invariant Scheduled(c, start, slots, ops, updates, ti, mi, emitted, applied, state)
      invariant Joined(leaves, hash(start), hash(state))
      decreases (|slots| - ti) + (|ops| - mi) + (|updates| - applied)
    {
      ghost var was := state;
      var sin := hash(state);
      var waiting := emitted - applied;
      var kind;
      if waiting >= sizes.u || (ti >= |slots| && waiting > 0) {
        var n := Lesser(waiting, sizes.u);
        ScheduleUpdates(c, start, slots, ops, updates, ti, mi, emitted, applied, state, n);
        var u := MapUpdateLeaf(c, state.u, updates[applied..applied + n]);
        state, applied, kind := state.(u := u), applied + n, MapKind;
      } else if ti < |slots| && (mi >= |ops| || before(ti, mi)) {
        var n := Lesser(sizes.t, |slots| - ti);
        ScheduleTransactions(c, start, slots, ops, updates, ti, mi, emitted, applied, state, n);
        SliceShort(slots, ti, n);
        var leaf := TransactionLeaf(c, tables, state.t, slots[ti..ti + n], sizes.t);
        state, ti, emitted, kind := state.(t := leaf.value.0), ti + n, emitted + |leaf.value.1|, TransactionKind;
        ScheduledBounds(c, start, slots, ops, updates, ti, mi, emitted, applied, state);
      } else {
        var n := Lesser(sizes.m, |ops| - mi);
        ScheduleHeaders(c, start, slots, ops, updates, ti, mi, emitted, applied, state, n);
        var m := TreeLeaf(c, state.m, ops[mi..mi + n]);
        state, mi, kind := state.(m := m), mi + n, HeaderKind;
      }
      JoinedExtends(leaves, hash(start), sin, Leaf(kind, sin, hash(state)));
      leaves := leaves + [Leaf(kind, sin, hash(state))];
    }
    ScheduleDone(c, start, slots, ops, updates, ti, mi, emitted, applied, state);
    TreesAreBlocks(c, blocks, trees);
    return Some((leaves, state));
  }

  lemma ScheduleBegins(c: Circuit, start: ExhaustionState, slots: seq<TSlot>, ops: seq<MOp>, updates: seq<MapUpdate>)
    requires UpdatesWide(updates) && RunM(c, start.m, ops).Some?
    ensures Scheduled(c, start, slots, ops, updates, 0, 0, 0, 0, start)
  {
    hide TStep, UStep, MStep;
    OpsPrefix(c, start.m, ops, 0);
  }

  lemma JoinedBegins(first: Field)
    ensures Joined([], first, first)
  {
  }

  lemma SliceShort(slots: seq<TSlot>, ti: nat, n: nat)
    requires ti + n <= |slots| && forall s :: s in slots ==> |s.bytes| <= ExhaustionStreams.SLOT
    ensures forall s :: s in slots[ti..ti + n] ==> |s.bytes| <= ExhaustionStreams.SLOT
  {
  }

  lemma ScheduledBounds(c: Circuit, start: ExhaustionState, slots: seq<TSlot>, ops: seq<MOp>, updates: seq<MapUpdate>,
    ti: nat, mi: nat, emitted: nat, applied: nat, state: ExhaustionState)
    requires UpdatesWide(updates) && Scheduled(c, start, slots, ops, updates, ti, mi, emitted, applied, state)
    ensures emitted <= |updates|
  {
  }

  lemma ScheduleDone(c: Circuit, start: ExhaustionState, slots: seq<TSlot>, ops: seq<MOp>, updates: seq<MapUpdate>,
    ti: nat, mi: nat, emitted: nat, applied: nat, state: ExhaustionState)
    requires UpdatesWide(updates) && Scheduled(c, start, slots, ops, updates, ti, mi, emitted, applied, state)
    requires ti == |slots| && mi == |ops| && applied == emitted && |EmitT(c, start.t, slots)| == |updates|
    ensures state.t == RunT(c, start.t, slots) && Some(state.m) == RunM(c, start.m, ops) && state.u == RunU(c, start.u, updates)
  {
    hide RunT, EmitT, RunM, RunU;
    assert slots[..|slots|] == slots && ops[..|ops|] == ops && updates[..|updates|] == updates;
  }
}
