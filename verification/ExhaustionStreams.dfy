/**
 The prover's three streams: transactions' bytes hashed and scanned, trees and headers, and map
 updates. Each is a fold of one step over its slots; a period's slots are listed from its blocks.

 A digest is the fold of the compression over a string's blocks.
 */
module ExhaustionStreams {
  import opened Wrappers
  import opened ErgoScan
  import opened MerkleTree
  import opened MerkleStack
  import opened SubjectIndex
  import opened SubjectMapStore
  import opened ScanLimbs

  const T_EX_ID := 1013
  const SLOT: nat := 128
  const STACK: nat := 18

  type Words = seq<nat>

  /** The compression with its first state, the 32 bytes a state is cut to, and the sponge. */
  datatype Circuit = Circuit(iv: Words, compress: (Words, Bytes, nat, bool) -> Words, cut: Words -> Bytes, sponge: Sponge)

  // ----- Digests

  function Pad(bytes: Bytes): Bytes {
    if |bytes| >= SLOT then bytes else bytes + seq(SLOT - |bytes|, _ => 0)
  }

  /** The blocks a string of `n` bytes fills: at least one. */
  function SlotCount(n: nat): (count: nat)
    ensures count > 0 && SLOT * (count - 1) <= n <= SLOT * count
    ensures n > 0 ==> SLOT * (count - 1) < n
  {
    if n <= SLOT then 1 else 1 + SlotCount(n - SLOT)
  }

  /** Bytes of a block. */
  function BlockOf(bytes: Bytes, k: nat): Bytes
    requires k < SlotCount(|bytes|)
  {
    bytes[SLOT * k..if SLOT * (k + 1) <= |bytes| then SLOT * (k + 1) else |bytes|]
  }

  /** The state after the first `k` blocks, more to come. */
  function FoldOpen(c: Circuit, bytes: Bytes, k: nat): Words
    requires k < SlotCount(|bytes|)
  {
    if k == 0 then c.iv else c.compress(FoldOpen(c, bytes, k - 1), Pad(BlockOf(bytes, k - 1)), SLOT * k, false)
  }

  function Folded(c: Circuit, bytes: Bytes): Words {
    var last := SlotCount(|bytes|) - 1;
    c.compress(FoldOpen(c, bytes, last), Pad(BlockOf(bytes, last)), |bytes|, true)
  }

  function Digest(c: Circuit, bytes: Bytes): Bytes {
    c.cut(Folded(c, bytes))
  }

  /** The digest as the tree's hash. */
  function Blake(c: Circuit): Hash {
    (x: Bytes) => Digest(c, x)
  }

  // ----- States

  datatype TState = TState(h: Words, t: nat, inTx: bool, scan: ScanState, height: nat, j: nat, chain: Field, echain: Field)

  datatype MState = MState(prev: Bytes, height: nat, mh: Words, hc: nat, inHeader: bool, j: nat, stack: seq<Bytes>, sp: nat, chain: Field)

  datatype UState = UState(chain: Field, root: Field)

  datatype ExhaustionState = ExhaustionState(t: TState, m: MState, u: UState)

  /** A period's start state: the map at a header. */
  function StartState(c: Circuit, id: Bytes, height: nat, root: Field): ExhaustionState {
    ExhaustionState(
      TState(c.iv, 0, false, START, height, 0, 0, 0),
      MState(id, height, c.iv, 0, false, 0, seq(STACK + 2, _ => seq(32, _ => 0)), 0, 0),
      UState(0, root))
  }

  function LittleEndian(b: Bytes): nat {
    if b == [] then 0 else b[0] + 256 * LittleEndian(b[1..])
  }

  /** A chain over the ids with their places, each id as its two low-first halves. */
  function IdChain(c: Circuit, previous: Field, id: Bytes, height: nat, position: nat): Field {
    c.sponge([T_EX_ID, previous, LittleEndian(id[..if |id| < 16 then |id| else 16]), LittleEndian(id[if |id| < 16 then |id| else 16..]), height, position])
  }

  /** An entry with its subject in two limbs. */
  datatype Entry = Entry(hi: nat, lo: nat, height: nat, position: nat, output: nat)

  /** The stream's entry chain, in the map's own form. */
  function StreamChain(c: Circuit, previous: Field, e: Entry): Field {
    c.sponge([T_ENTRY, previous, e.hi, e.lo, e.height, e.position, e.output])
  }

  function StreamChains(c: Circuit, previous: Field, entries: seq<Entry>): Field {
    if entries == [] then previous
    else StreamChain(c, StreamChains(c, previous, entries[..|entries| - 1]), entries[|entries| - 1])
  }

  // ----- The transaction stream

  datatype TSlot = TSlot(bytes: Bytes, start: bool, newBlock: bool, last: bool)

  function Entries(raws: seq<Raw>, height: nat, position: nat): (entries: seq<Entry>)
    ensures |entries| == |raws|
  {
    seq(|raws|, i requires 0 <= i < |raws| => Entry(raws[i].hi, raws[i].lo, height, position, raws[i].output))
  }

  /** The scan over the zeros that fill a slot: its outputs are not counted. */
  function PadScan(s: ScanState, n: nat): ScanState
    decreases n
  {
    if n == 0 then s else PadScan(Step(s, 0).(outputs := s.outputs), n - 1)
  }

  function HeightAt(t: TState, slot: TSlot): nat {
    if slot.newBlock then t.height + 1 else t.height
  }

  function PositionAt(t: TState, slot: TSlot): nat {
    if slot.newBlock then 0 else if slot.start then t.j + 1 else t.j
  }

  function ScanAt(t: TState, slot: TSlot): ScanState {
    if slot.start then START else t.scan
  }

  /** What a slot emits. */
  function TEmits(t: TState, slot: TSlot): seq<Entry> {
    Entries(Raws(ScanAt(t, slot), slot.bytes, 0, |slot.bytes|), HeightAt(t, slot), PositionAt(t, slot))
  }

  function TStep(c: Circuit, t: TState, slot: TSlot): TState {
    var counted := (if slot.start then 0 else t.t) + |slot.bytes|;
    var d := c.compress(if slot.start then c.iv else t.h, Pad(slot.bytes), counted, slot.last);
    var height, j := HeightAt(t, slot), PositionAt(t, slot);
    var scanned := Feed(Scan(ScanAt(t, slot), []), slot.bytes, 0, |slot.bytes|).state;
    TState(d, counted, !slot.last, PadScan(scanned, if |slot.bytes| < SLOT then SLOT - |slot.bytes| else 0), height, j,
           if slot.last then IdChain(c, t.chain, c.cut(d), height, j) else t.chain,
           StreamChains(c, t.echain, TEmits(t, slot)))
  }

  function RunT(c: Circuit, t: TState, slots: seq<TSlot>): TState {
    if slots == [] then t else TStep(c, RunT(c, t, slots[..|slots| - 1]), slots[|slots| - 1])
  }

  function EmitT(c: Circuit, t: TState, slots: seq<TSlot>): seq<Entry> {
    if slots == [] then []
    else
      var n := |slots| - 1;
      EmitT(c, t, slots[..n]) + TEmits(RunT(c, t, slots[..n]), slots[n])
  }

  lemma {:induction false} RunTJoins(c: Circuit, t: TState, a: seq<TSlot>, b: seq<TSlot>)
    ensures RunT(c, t, a + b) == RunT(c, RunT(c, t, a), b)
    ensures EmitT(c, t, a + b) == EmitT(c, t, a) + EmitT(c, RunT(c, t, a), b)
  {
    hide TStep, TEmits;
    if b == [] {
      assert a + b == a;
    } else {
      var n := |b| - 1;
      assert (a + b)[..|a + b| - 1] == a + b[..n];
      RunTJoins(c, t, a, b[..n]);
    }
  }

  lemma {:induction false} StreamChainsJoin(c: Circuit, previous: Field, a: seq<Entry>, b: seq<Entry>)
    ensures StreamChains(c, previous, a + b) == StreamChains(c, StreamChains(c, previous, a), b)
  {
    if b == [] {
      assert a + b == a;
    } else {
      var n := |b| - 1;
      assert (a + b)[..|a + b| - 1] == a + b[..n];
      StreamChainsJoin(c, previous, a, b[..n]);
    }
  }

  /** The entry chain is over what is emitted. */
  lemma {:induction false} EmissionsChained(c: Circuit, t: TState, slots: seq<TSlot>)
    ensures RunT(c, t, slots).echain == StreamChains(c, t.echain, EmitT(c, t, slots))
  {
    hide TEmits, IdChain;
    if slots != [] {
      var n := |slots| - 1;
      EmissionsChained(c, t, slots[..n]);
      StreamChainsJoin(c, t.echain, EmitT(c, t, slots[..n]), TEmits(RunT(c, t, slots[..n]), slots[n]));
    }
  }

  // ----- The tree-and-header stream

  datatype MOp = Tree(op: Op) | Header(bytes: Bytes, last: bool)

  /** A stack position written: one past the end grows it. */
  function Put(stack: seq<Bytes>, at: nat, x: Bytes): seq<Bytes> {
    if at < |stack| then stack[at := x] else stack + [x]
  }

  predicate StackHolds(m: MState) {
    m.sp + 2 <= |m.stack|
  }

  /** Whether the stack has what an operation takes. */
  predicate Applies(m: MState, op: MOp) {
    StackHolds(m) && (op == Tree(Merge) ==> m.sp >= 2) && (op == Tree(Lift) ==> m.sp >= 1)
  }

  /** Two sentinel positions stand below the live entries; an id is a leaf of 32 bytes, and only an
      id extends the chain. */
  function MStep(c: Circuit, m: MState, op: MOp): MState
    requires Applies(m, op)
  {
    match op
    case Tree(Push(leaf)) =>
      var pushed := m.(stack := Put(m.stack, m.sp + 2, Digest(c, [0] + leaf)), sp := m.sp + 1);
      if |leaf| == 32 then pushed.(chain := IdChain(c, m.chain, leaf, m.height + 1, m.j), j := m.j + 1) else pushed
    case Tree(Merge) =>
      m.(stack := m.stack[m.sp := Digest(c, [1] + m.stack[m.sp] + m.stack[m.sp + 1])], sp := m.sp - 1)
    case Tree(Lift) =>
      m.(stack := m.stack[m.sp + 1 := Digest(c, [1] + m.stack[m.sp + 1])])
    case Header(bytes, last) =>
      var counted := (if m.inHeader then m.hc else 0) + |bytes|;
      var d := c.compress(if m.inHeader then m.mh else c.iv, Pad(bytes), counted, last);
      var hashed := m.(mh := d, hc := counted, inHeader := !last);
      if last then hashed.(prev := c.cut(d), height := m.height + 1, j := 0, sp := 0) else hashed
  }

  /** Operations that apply one after another. */
  function RunM(c: Circuit, m: MState, ops: seq<MOp>): (after: Option<MState>) {
    if ops == [] then (if StackHolds(m) then Some(m) else None)
    else
      var before := RunM(c, m, ops[..|ops| - 1]);
      if before.None? || !Applies(before.value, ops[|ops| - 1]) then None
      else
        var next := MStep(c, before.value, ops[|ops| - 1]);
        if StackHolds(next) then Some(next) else None
  }

  lemma {:induction false} RunMJoins(c: Circuit, m: MState, a: seq<MOp>, b: seq<MOp>)
    requires RunM(c, m, a).Some?
    ensures RunM(c, m, a + b) == RunM(c, RunM(c, m, a).value, b)
  {
    hide MStep, Applies;
    if b == [] {
      assert a + b == a;
      RanHolds(c, m, a);
    } else {
      var n := |b| - 1;
      assert (a + b)[..|a + b| - 1] == a + b[..n];
      RunMJoins(c, m, a, b[..n]);
    }
  }

  lemma RanHolds(c: Circuit, m: MState, ops: seq<MOp>)
    requires RunM(c, m, ops).Some?
    ensures StackHolds(RunM(c, m, ops).value)
  {
  }

  /** A prefix of operations that apply applies. */
  lemma {:induction false} RunMPrefix(c: Circuit, m: MState, a: seq<MOp>, b: seq<MOp>)
    requires RunM(c, m, a + b).Some?
    ensures RunM(c, m, a).Some?
    decreases |b|
  {
    hide MStep, Applies;
    if b == [] {
      assert a + b == a;
    } else {
      var n := |b| - 1;
      assert (a + b)[..|a + b| - 1] == a + b[..n];
      RunMPrefix(c, m, a, b[..n]);
    }
  }

  // ----- The map stream

  /** An update proved against its path: the entry chained, and the root its new leaf gives. */
  function UStep(c: Circuit, u: UState, update: MapUpdate): UState
    requires |update.entry.subject| == 32
  {
    var chain := c.sponge(EntryInput(u.chain, update.entry));
    var leaf := MapLeaf(c.sponge, update.before.count + 1, c.sponge(EntryInput(update.before.chain, update.entry)));
    UState(chain, ClimbMap(c.sponge, SubjectKey(update.entry.subject), leaf, update.before.siblings))
  }

  predicate UpdatesWide(updates: seq<MapUpdate>) {
    forall i :: 0 <= i < |updates| ==> |updates[i].entry.subject| == 32
  }

  function RunU(c: Circuit, u: UState, updates: seq<MapUpdate>): UState
    requires UpdatesWide(updates)
  {
    if updates == [] then u else UStep(c, RunU(c, u, updates[..|updates| - 1]), updates[|updates| - 1])
  }

  lemma {:induction false} RunUJoins(c: Circuit, u: UState, a: seq<MapUpdate>, b: seq<MapUpdate>)
    requires UpdatesWide(a) && UpdatesWide(b)
    ensures UpdatesWide(a + b) && RunU(c, u, a + b) == RunU(c, RunU(c, u, a), b)
  {
    hide UStep;
    if b == [] {
      assert a + b == a;
    } else {
      var n := |b| - 1;
      assert (a + b)[..|a + b| - 1] == a + b[..n];
      RunUJoins(c, u, a, b[..n]);
    }
  }
}
