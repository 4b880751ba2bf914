/**
 A publication built from boxes and read back: the record's outputs, change where it reaches its
 box's minimum, and the fee. What goes in comes out in value, the signed bytes keep the node's
 limit, and framing and attributing the unsigned bytes gives exactly the one object.
 */
module ErgoPublication {
  import opened Wrappers
  import opened ErgoProfile
  import opened ErgoAttribution
  import opened ErgoWriter
  import opened ErgoMinimum
  import opened ErgoRecords

  const MAX_TRANSACTION_BYTES: nat := 98304
  const PROOF_BYTES: nat := 56
  const MAX_INPUTS: nat := 64

  /** A box without registers that the publisher can spend. */
  datatype PlainBox = PlainBox(id: Bytes, value: nat)

  datatype PublishError = EXCEEDS_BOX | TOO_LARGE | NOT_COVERED | FEE_TOO_LOW | OVER_LIMIT | BAD_PROOF

  datatype Publication = Publication(unsigned: Bytes, signed: Bytes, inputs: seq<Bytes>, outputs: seq<Candidate>, changed: bool)

  function InputValue(inputs: seq<PlainBox>): nat {
    if inputs == [] then 0 else InputValue(inputs[..|inputs| - 1]) + inputs[|inputs| - 1].value
  }

  function OutputValue(outputs: seq<Candidate>): nat {
    if outputs == [] then 0 else OutputValue(outputs[..|outputs| - 1]) + outputs[|outputs| - 1].value
  }

  lemma ValueExtends(outputs: seq<Candidate>, c: Candidate)
    ensures OutputValue(outputs + [c]) == OutputValue(outputs) + c.value
  {
    assert (outputs + [c])[..|outputs|] == outputs;
  }

  function Ids(inputs: seq<PlainBox>): (ids: seq<Bytes>)
    ensures |ids| == |inputs|
  {
    seq(|inputs|, i requires 0 <= i < |inputs| => inputs[i].id)
  }

  function Plain(tree: Bytes): Candidate {
    Candidate(0, tree, [])
  }

  /** The least value of a plain box at an output index. */
  function PlainMinimum(tree: Bytes, height: nat, index: nat, perByte: nat): nat {
    LeastValue(BaseLength(Plain(tree), height, index), perByte)
  }

  /** What is left for change, or for the fee. */
  function Rest(inputs: seq<PlainBox>, records: seq<Candidate>, fee: nat): int {
    InputValue(inputs) - OutputValue(records) - fee
  }

  predicate Changes(tree: Bytes, inputs: seq<PlainBox>, r: Request, records: seq<Candidate>, fee: nat, perByte: nat) {
    Rest(inputs, records, fee) >= PlainMinimum(tree, r.height, |records|, perByte)
  }

  /** The outputs of a publication: the record's, change where it reaches its minimum, and the fee,
      which takes what is left where it does not. */
  function AllOutputs(tree: Bytes, inputs: seq<PlainBox>, r: Request, records: seq<Candidate>, fee: nat, perByte: nat): seq<Candidate>
    requires Rest(inputs, records, fee) >= 0
  {
    var rest := Rest(inputs, records, fee);
    if Changes(tree, inputs, r, records, fee, perByte)
    then records + [Candidate(rest, tree, []), Candidate(fee, MinerFeeTree(), [])]
    else records + [Candidate(fee + rest, MinerFeeTree(), [])]
  }

  /** A signed input: the box's id, its proof and an empty extension. */
  function SignedInput(id: Bytes, proof: Bytes): Bytes {
    id + (Vlq(|proof|) + (proof + [0]))
  }

  function SignedInputs(ids: seq<Bytes>, proofs: seq<Bytes>): Bytes
    requires |ids| == |proofs|
  {
    if ids == [] then [] else SignedInput(ids[0], proofs[0]) + SignedInputs(ids[1..], proofs[1..])
  }

  function SignedBytes(ids: seq<Bytes>, proofs: seq<Bytes>, outputs: seq<Candidate>, height: nat): Bytes
    requires |ids| == |proofs|
  {
    Vlq(|ids|) + (SignedInputs(ids, proofs) + BodyBytes(outputs, height))
  }

  lemma {:induction false} SignedLength(ids: seq<Bytes>, proofs: seq<Bytes>)
    requires |ids| == |proofs| && (forall id :: id in ids ==> |id| == 32) && (forall p :: p in proofs ==> |p| == PROOF_BYTES)
    ensures |SignedInputs(ids, proofs)| == |InputsBytes(ids)| + PROOF_BYTES * |ids| == 90 * |ids|
    decreases ids
  {
    if ids != [] {
      assert ids[0] in ids && proofs[0] in proofs;
      assert |Vlq(PROOF_BYTES)| == 1;
      SignedLength(ids[1..], proofs[1..]);
    }
  }

  /** When a publication is built, from the source's own refusals. */
  predicate Buildable(tree: Bytes, inputs: seq<PlainBox>, r: Request, fee: nat, perByte: nat) {
    && Recordable(r, perByte)
    && InputValue(inputs) <= MAX_U64
    && var records := RecordOutputsOf(r, perByte);
      && Rest(inputs, records, fee) >= 0
      && var outputs := AllOutputs(tree, inputs, r, records, fee, perByte);
        && outputs[|outputs| - 1].value >= PlainMinimum(MinerFeeTree(), r.height, |outputs| - 1, perByte)
        && |UnsignedBytes(Ids(inputs), outputs, r.height)| + PROOF_BYTES * |inputs| <= MAX_TRANSACTION_BYTES
  }

  method SumInputs(inputs: seq<PlainBox>) returns (total: nat)
    ensures total == InputValue(inputs)
  {
    total := 0;
    for i := 0 to |inputs|
      invariant total == InputValue(inputs[..i])
    {
      assert inputs[..i + 1][..i] == inputs[..i];
      total := total + inputs[i].value;
    }
    assert inputs[..|inputs|] == inputs;
  }

  method SumOutputs(outputs: seq<Candidate>) returns (total: nat)
    ensures total == OutputValue(outputs)
  {
    total := 0;
    for i := 0 to |outputs|
      invariant total == OutputValue(outputs[..i])
    {
      assert outputs[..i + 1][..i] == outputs[..i];
      total := total + outputs[i].value;
    }
    assert outputs[..|outputs|] == outputs;
  }

  /** `buildPublication`, with each input's proof given. */
  method BuildPublication(tree: Bytes, inputs: seq<PlainBox>, r: Request, fee: nat, perByte: nat, proofs: seq<Bytes>)
    returns (p: Result<Publication, PublishError>)
    requires RequestOk(r) && |proofs| == |inputs| && (forall q :: q in proofs ==> |q| == PROOF_BYTES)
    requires forall box :: box in inputs ==> |box.id| == 32
    ensures p.Ok? <==> Buildable(tree, inputs, r, fee, perByte)
    ensures p.Ok? ==>
      && p.value.outputs == AllOutputs(tree, inputs, r, RecordOutputsOf(r, perByte), fee, perByte)
      && p.value.unsigned == UnsignedBytes(Ids(inputs), p.value.outputs, r.height)
      && p.value.signed == SignedBytes(Ids(inputs), proofs, p.value.outputs, r.height)
      && p.value.inputs == Ids(inputs)
    ensures p.Ok? ==> |p.value.signed| <= MAX_TRANSACTION_BYTES && InputValue(inputs) == OutputValue(p.value.outputs)
  {
    hide LeastValue, BaseLength, BoxLength, Vlq, UnsignedBytes, SignedBytes, RecordOutputsOf, Recordable, MinerFeeTree, OutputsBytes;
    var built := RecordOutputs(r, perByte);
    if built.None? {
      return Err(TOO_LARGE);
    }
    var records := built.value;
    var recordValue := SumOutputs(records);
    var total := SumInputs(inputs);
    if total > MAX_U64 {
      return Err(EXCEEDS_BOX);
    }
    var changeMinimum := MinimumValue(Plain(tree), r.height, |records|, perByte);
    var rest := total - recordValue - fee;
    if rest < 0 {
      return Err(NOT_COVERED);
    }
    var outputs, paid := records, fee;
    if rest >= changeMinimum {
      outputs := outputs + [Candidate(rest, tree, [])];
    } else {
      paid := paid + rest;
    }
    var feeMinimum := MinimumValue(Plain(MinerFeeTree()), r.height, |outputs|, perByte);
    ghost var all := AllOutputs(tree, inputs, r, records, fee, perByte);
    assert outputs + [Candidate(paid, MinerFeeTree(), [])] == all;
    if paid < feeMinimum {
      return Err(FEE_TOO_LOW);
    }
    outputs := outputs + [Candidate(paid, MinerFeeTree(), [])];
    AllSpent(tree, inputs, r, records, fee, perByte);
    var ids := Ids(inputs);
    var unsigned := UnsignedBytes(ids, outputs, r.height);
    if |unsigned| + PROOF_BYTES * |inputs| > MAX_TRANSACTION_BYTES {
      return Err(OVER_LIMIT);
    }
    SignedWhole(ids, proofs, outputs, r.height);
    return Ok(Publication(unsigned, SignedBytes(ids, proofs, outputs, r.height), ids, outputs, |outputs| == |records| + 2));
  }

  /** Signing adds exactly the proofs. */
  lemma SignedWhole(ids: seq<Bytes>, proofs: seq<Bytes>, outputs: seq<Candidate>, height: nat)
    requires |ids| == |proofs| && (forall id :: id in ids ==> |id| == 32) && (forall p :: p in proofs ==> |p| == PROOF_BYTES)
    ensures |SignedBytes(ids, proofs, outputs, height)| == |UnsignedBytes(ids, outputs, height)| + PROOF_BYTES * |ids|
    ensures |SignedBytes(ids, proofs, outputs, height)| == |Vlq(|ids|)| + 90 * |ids| + |BodyBytes(outputs, height)|
  {
    hide Vlq, SignedInputs, InputsBytes, BodyBytes;
    SignedLength(ids, proofs);
  }

  /** Every output has what its inputs gave: nothing is made or lost. */
  lemma AllSpent(tree: Bytes, inputs: seq<PlainBox>, r: Request, records: seq<Candidate>, fee: nat, perByte: nat)
    requires Rest(inputs, records, fee) >= 0
    ensures OutputValue(AllOutputs(tree, inputs, r, records, fee, perByte)) == InputValue(inputs)
  {
    hide Changes, MinerFeeTree;
    var rest := Rest(inputs, records, fee);
    var change, paid := Candidate(rest, tree, []), Candidate(fee, MinerFeeTree(), []);
    ValueExtends(records, change);
    ValueExtends(records + [change], paid);
    assert records + [change, paid] == records + [change] + [paid];
    ValueExtends(records, Candidate(fee + rest, MinerFeeTree(), []));
  }

  // ----- The network's minimum

  /** Whether the network admits an output's value at its place. */
  predicate Admitted(c: Candidate, height: nat, index: nat, perByte: nat) {
    perByte * BoxLength(c, height, index) <= c.value
  }

  /** Change in the gap above its minimum. */
  predicate ChangeInGap(tree: Bytes, inputs: seq<PlainBox>, r: Request, fee: nat, perByte: nat) {
    var records := RecordOutputsOf(r, perByte);
    var rest := Rest(inputs, records, fee);
    rest >= 0 && Changes(tree, inputs, r, records, fee, perByte) && InGap(BaseLength(Plain(tree), r.height, |records|), perByte, rest)
  }

  /** A fee, with what joined it, in the gap above its minimum. */
  predicate FeeInGap(tree: Bytes, inputs: seq<PlainBox>, r: Request, fee: nat, perByte: nat) {
    var records := RecordOutputsOf(r, perByte);
    var rest, n := Rest(inputs, records, fee), |records|;
    var changes := Changes(tree, inputs, r, records, fee, perByte);
    rest >= 0 && InGap(BaseLength(Plain(MinerFeeTree()), r.height, if changes then n + 1 else n), perByte, if changes then fee else fee + rest)
  }

  /** A record's outputs are always admitted. Change that reaches its minimum, and a fee that does,
      are admitted exactly where they are not in the gap: the minimum is of a box holding the minimum,
      and a value past its next boundary needs a byte more. */
  lemma OutputsAdmitted(tree: Bytes, inputs: seq<PlainBox>, r: Request, fee: nat, perByte: nat)
    requires RequestOk(r) && Buildable(tree, inputs, r, fee, perByte)
    ensures
      var outputs := AllOutputs(tree, inputs, r, RecordOutputsOf(r, perByte), fee, perByte);
      (forall i :: 0 <= i < |outputs| ==> Admitted(outputs[i], r.height, i, perByte))
      <==> !ChangeInGap(tree, inputs, r, fee, perByte) && !FeeInGap(tree, inputs, r, fee, perByte)
  {
    hide UnsignedBytes, Recordable, LeastValue, BaseLength, BoxLength, MinerFeeTree, Changes, Covers, InGap, Pieces, PieceSize, InputValue, OutputValue, PieceCandidate;
    var records := RecordOutputsOf(r, perByte);
    var rest, n := Rest(inputs, records, fee), |records|;
    var outputs := AllOutputs(tree, inputs, r, records, fee, perByte);
    forall i | 0 <= i < |outputs|
      ensures i < n ==> Admitted(outputs[i], r.height, i, perByte)
      ensures i >= n ==> (Admitted(outputs[i], r.height, i, perByte) <==> !InGap(BaseLength(Plain(outputs[i].tree), r.height, i), perByte, outputs[i].value))
    {
      if i < n {
        assert outputs[i] == records[i];
        RecordAdmitted(r, perByte, i);
      } else {
        LastReach(tree, inputs, r, fee, perByte, i);
        PlainAdmitted(outputs[i], r.height, i, perByte);
      }
    }
    if Changes(tree, inputs, r, records, fee, perByte) {
      assert outputs[n] == Candidate(rest, tree, []) && outputs[n + 1] == Candidate(fee, MinerFeeTree(), []) && |outputs| == n + 2;
    } else {
      assert outputs[n] == Candidate(fee + rest, MinerFeeTree(), []) && |outputs| == n + 1;
    }
  }

  /** Change and fee reach their minimum. */
  lemma LastReach(tree: Bytes, inputs: seq<PlainBox>, r: Request, fee: nat, perByte: nat, i: nat)
    requires Buildable(tree, inputs, r, fee, perByte)
    requires |RecordOutputsOf(r, perByte)| <= i < |AllOutputs(tree, inputs, r, RecordOutputsOf(r, perByte), fee, perByte)|
    ensures
      var c := AllOutputs(tree, inputs, r, RecordOutputsOf(r, perByte), fee, perByte)[i];
      c.registers == [] && c.value >= PlainMinimum(c.tree, r.height, i, perByte)
  {
    hide UnsignedBytes, Recordable, PlainMinimum, MinerFeeTree, RecordOutputsOf, InputValue, OutputValue;
  }

  lemma PlainAdmitted(c: Candidate, height: nat, index: nat, perByte: nat)
    requires c.registers == [] && c.value >= PlainMinimum(c.tree, height, index, perByte)
    ensures Admitted(c, height, index, perByte) <==> !InGap(BaseLength(Plain(c.tree), height, index), perByte, c.value)
  {
    hide LeastValue, BaseLength, BoxLength, Covers, InGap;
    assert c == Plain(c.tree).(value := c.value);
    SameBase(Plain(c.tree), c.value, height, index);
    AdmittedCovers(c, height, index, perByte);
    CoversOutsideGap(BaseLength(c, height, index), perByte, c.value);
  }

  /** At the default rate every output is admitted, whatever the record, the inputs and the fee. */
  lemma DefaultRateAdmits(publicKey: Bytes, inputs: seq<PlainBox>, r: Request, fee: nat)
    requires |publicKey| == 33 && RequestOk(r) && Buildable(P2pkTree(publicKey), inputs, r, fee, DEFAULT_MIN_VALUE_PER_BYTE)
    ensures
      var outputs := AllOutputs(P2pkTree(publicKey), inputs, r, RecordOutputsOf(r, DEFAULT_MIN_VALUE_PER_BYTE), fee, DEFAULT_MIN_VALUE_PER_BYTE);
      forall i :: 0 <= i < |outputs| ==> Admitted(outputs[i], r.height, i, DEFAULT_MIN_VALUE_PER_BYTE)
  {
    hide AllOutputs, Admitted, UnsignedBytes, Recordable, InGap, LeastValue, BaseLength, Changes, MinerFeeTree, RecordOutputsOf, Rest;
    var tree := P2pkTree(publicKey);
    var n := |RecordOutputsOf(r, DEFAULT_MIN_VALUE_PER_BYTE)|;
    OutputsAdmitted(tree, inputs, r, fee, DEFAULT_MIN_VALUE_PER_BYTE);
    RunShort(r, DEFAULT_MIN_VALUE_PER_BYTE);
    FeePrefix();
    PlainBase(tree, r.height, n);
    PlainBase(MinerFeeTree(), r.height, n);
    PlainBase(MinerFeeTree(), r.height, n + 1);
    forall base: nat, value: nat | 71 <= base <= 5_800
      ensures !InGap(base, DEFAULT_MIN_VALUE_PER_BYTE, value)
    {
      NoGap(base, value);
    }
  }

  lemma RunShort(r: Request, perByte: nat)
    requires Recordable(r, perByte)
    ensures |Pieces(r.record, PieceSize(r, perByte))| == |RecordOutputsOf(r, perByte)| < MAX_RUN_INDEX
  {
    hide Pieces, ChunkSize, BoxAt, LeastValue;
    PiecesCounted(r.record, PieceSize(r, perByte));
    if !r.chunked { SolePiece(r.record); }
  }

  lemma PlainBase(tree: Bytes, height: nat, index: nat)
    requires height <= MAX_U32 && index <= MAX_RUN_INDEX
    ensures |tree| + 36 <= BaseLength(Plain(tree), height, index) <= |tree| + 40
  {
    hide Vlq;
    Pow128Of10();
    VlqFits(height, 5);
    VlqFits(index, 1);
    assert Concat([]) == [];
  }

  lemma AdmittedCovers(c: Candidate, height: nat, index: nat, perByte: nat)
    ensures Admitted(c, height, index, perByte) <==> Covers(BaseLength(c, height, index), perByte, c.value)
  {
    hide BoxLength, BaseLength, Vlq;
    BoxOfBase(c, height, index);
  }

  lemma RecordAdmitted(r: Request, perByte: nat, i: nat)
    requires i < |RecordOutputsOf(r, perByte)|
    ensures Admitted(RecordOutputsOf(r, perByte)[i], r.height, i, perByte)
  {
    hide BaseLength, LeastValue, Pieces, PieceSize, Covers;
    var c := RecordOutputsOf(r, perByte)[i];
    var bare := PieceCandidate(r, Pieces(r.record, PieceSize(r, perByte))[i]);
    SameBase(bare, c.value, r.height, i);
    AdmittedCovers(c, r.height, i, perByte);
  }

  /** An empty record at the key's own location, at height 1,300,000. */
  function ShortRequest(publicKey: Bytes): Request {
    Request(P2pkTree(publicKey), seq(32, i => 0), [], false, 1_300_000)
  }

  const SHORT_RATE: nat := 27_235
  const SHORT_FEE: nat := 5_000_000
  const SHORT_REST: nat := 2_097_152

  /** One box that holds the record's value, the fee and 2^21. */
  function ShortInputs(publicKey: Bytes): seq<PlainBox> {
    [PlainBox(seq(32, i => 0), OutputValue(RecordOutputsOf(ShortRequest(publicKey), SHORT_RATE)) + SHORT_FEE + SHORT_REST)]
  }

  /** At a per-byte minimum of 27,235 a publication is built whose change of 2^21 reaches its minimum
      and is not admitted. */
  lemma ChangeFallsShort(publicKey: Bytes)
    requires |publicKey| == 33
    ensures
      var tree, inputs, r := P2pkTree(publicKey), ShortInputs(publicKey), ShortRequest(publicKey);
      && RequestOk(r) && Buildable(tree, inputs, r, SHORT_FEE, SHORT_RATE)
      && var outputs := AllOutputs(tree, inputs, r, RecordOutputsOf(r, SHORT_RATE), SHORT_FEE, SHORT_RATE);
        |outputs| == 3 && outputs[1].value == SHORT_REST && !Admitted(outputs[1], r.height, 1, SHORT_RATE)
  {
    hide LeastValue, BaseLength, BoxLength, Vlq, UnsignedBytes, RecordOutputsOf, P2pkTree, MinerFeeTree, Needed, Recordable;
    var tree, inputs, r := P2pkTree(publicKey), ShortInputs(publicKey), ShortRequest(publicKey);
    ShortRecord(publicKey);
    ShortRest(publicKey);
    ShortFee();
    ShortChange(publicKey);
    assert inputs[..0] == [];
    assert InputValue(inputs) == inputs[0].value;
    ShortBytes(publicKey);
  }

  lemma ShortRecord(publicKey: Bytes)
    requires |publicKey| == 33
    ensures var r := ShortRequest(publicKey);
      && Recordable(r, SHORT_RATE) && |RecordOutputsOf(r, SHORT_RATE)| == 1
      && OutputValue(RecordOutputsOf(r, SHORT_RATE)) <= 4_194_304
      && |CandidateBytes(RecordOutputsOf(r, SHORT_RATE)[0], r.height)| <= 200
  {
    hide LeastValue, Vlq, BaseLength, Pow128, CandidateBytes;
    var r := ShortRequest(publicKey);
    SolePiece(r.record);
    var base := PieceBase(36, 32, r.height, 0, 1);
    assert Pow128(1) == 128 && Pow128(4) == 268_435_456 by { SmallPowers(); Pow128Of10(); }
    VlqFits(r.height, 4);
    VlqFits(0, 1);
    VlqFits(32, 1);
    VlqFits(4_194_304, 4);
    assert base <= 120;
    assert Covers(base, SHORT_RATE, 4_194_304);
    VlqFits(LeastValue(base, SHORT_RATE), 4);
    BaseOfPiece(r, [], 0);
    var outputs := RecordOutputsOf(r, SHORT_RATE);
    assert outputs == [AtLeast(PieceCandidate(r, []), r.height, 0, SHORT_RATE)];
    assert outputs[..0] == [];
    assert OutputValue(outputs) == outputs[0].value;
  }

  lemma ShortRest(publicKey: Bytes)
    requires |publicKey| == 33
    ensures PlainMinimum(P2pkTree(publicKey), 1_300_000, 1, SHORT_RATE) <= 2_097_095
    ensures BaseLength(Plain(P2pkTree(publicKey)), 1_300_000, 1) == 74
  {
    hide LeastValue, Vlq;
    VlqOf(1_300_000, 3);
    VlqOf(1, 1);
    assert Concat([]) == [];
    VlqOf(2_097_095, 3);
    assert Covers(74, SHORT_RATE, 2_097_095);
  }

  lemma ShortFee()
    ensures PlainMinimum(MinerFeeTree(), 1_300_000, 2, SHORT_RATE) <= SHORT_FEE
  {
    hide LeastValue, Vlq, MinerFeeTree;
    FeePrefix();
    VlqOf(1_300_000, 3);
    VlqOf(2, 1);
    assert Concat([]) == [];
    VlqOf(SHORT_FEE, 4);
    assert BaseLength(Plain(MinerFeeTree()), 1_300_000, 2) == 143;
    assert Covers(143, SHORT_RATE, SHORT_FEE);
  }

  lemma ShortChange(publicKey: Bytes)
    requires |publicKey| == 33
    ensures !Admitted(Candidate(SHORT_REST, P2pkTree(publicKey), []), 1_300_000, 1, SHORT_RATE)
  {
    hide LeastValue, Vlq, BaseLength, BoxLength, P2pkTree;
    var tree := P2pkTree(publicKey);
    ShortRest(publicKey);
    VlqOf(SHORT_REST, 4);
    SameBase(Plain(tree), SHORT_REST, 1_300_000, 1);
    AdmittedCovers(Candidate(SHORT_REST, tree, []), 1_300_000, 1, SHORT_RATE);
    assert Needed(74, SHORT_RATE, SHORT_REST) == SHORT_RATE * 78;
  }

  lemma ShortBytes(publicKey: Bytes)
    requires |publicKey| == 33 && Changes(P2pkTree(publicKey), ShortInputs(publicKey), ShortRequest(publicKey), RecordOutputsOf(ShortRequest(publicKey), SHORT_RATE), SHORT_FEE, SHORT_RATE)
    ensures
      var tree, inputs, r := P2pkTree(publicKey), ShortInputs(publicKey), ShortRequest(publicKey);
      && Rest(inputs, RecordOutputsOf(r, SHORT_RATE), SHORT_FEE) >= 0
      && |UnsignedBytes(Ids(inputs), AllOutputs(tree, inputs, r, RecordOutputsOf(r, SHORT_RATE), SHORT_FEE, SHORT_RATE), r.height)| <= 1_000
  {
    hide LeastValue, BaseLength, Vlq, UnsignedBytes, P2pkTree, MinerFeeTree, RecordOutputsOf, OutputsBytes, CandidateBytes, InputsBytes, Recordable, Changes, PlainMinimum;
    var tree, inputs, r := P2pkTree(publicKey), ShortInputs(publicKey), ShortRequest(publicKey);
    var records := RecordOutputsOf(r, SHORT_RATE);
    assert inputs[..0] == [] && InputValue(inputs) == inputs[0].value;
    var outputs := AllOutputs(tree, inputs, r, records, SHORT_FEE, SHORT_RATE);
    ShortRecord(publicKey);
    assert outputs == [records[0], Candidate(SHORT_REST, tree, []), Candidate(SHORT_FEE, MinerFeeTree(), [])];
    var i, b, o := UnsignedParts(Ids(inputs), outputs, r.height);
    VlqOf(1, 1);
    VlqOf(3, 1);
    assert |InputsBytes(Ids(inputs))| == 34 by { OneInput(inputs[0].id); assert Ids(inputs) == [inputs[0].id]; }
    ThreeOutputs(outputs, r.height);
    PlainBytesShort(outputs[1], r.height);
    PlainBytesShort(outputs[2], r.height);
    TreesShort(publicKey);
  }

  lemma TreesShort(publicKey: Bytes)
    requires |publicKey| == 33
    ensures |P2pkTree(publicKey)| == 36 && |MinerFeeTree()| == 105
  {
    FeePrefix();
  }

  lemma OneInput(id: Bytes)
    requires |id| == 32
    ensures |InputsBytes([id])| == 34
  {
    hide InputBytes;
    InputWidth(id);
    assert InputsBytes([id]) == InputBytes(id) + InputsBytes([]);
  }

  lemma ThreeOutputs(outputs: seq<Candidate>, height: nat)
    requires |outputs| == 3
    ensures |OutputsBytes(outputs, height)|
      == |CandidateBytes(outputs[0], height)| + |CandidateBytes(outputs[1], height)| + |CandidateBytes(outputs[2], height)|
  {
    hide CandidateBytes;
    assert outputs[1..][0] == outputs[1] && outputs[1..][1..] == outputs[2..] && outputs[2..] == [outputs[2]];
    assert OutputsBytes(outputs[1..], height) == CandidateBytes(outputs[1], height) + OutputsBytes(outputs[2..], height);
    assert OutputsBytes([outputs[2]], height) == CandidateBytes(outputs[2], height) + OutputsBytes([], height);
  }

  lemma PlainBytesShort(c: Candidate, height: nat)
    requires c.registers == [] && c.value <= MAX_U32 && height <= MAX_U32
    ensures |CandidateBytes(c, height)| <= |c.tree| + 12
  {
    hide Vlq;
    Pow128Of10();
    VlqFits(c.value, 5);
    VlqFits(height, 5);
    assert Concat([]) == [];
  }

  lemma VlqOf(n: nat, k: nat)
    requires k > 0 && n < Pow128(k) && (k > 1 ==> n >= Pow128(k - 1))
    ensures |Vlq(n)| == k
  {
    hide Pow128, Vlq;
    VlqFits(n, k);
    if k > 1 { VlqFits(n, k - 1); }
  }

  // ----- Reading back

  lemma ValueWithin(outputs: seq<Candidate>, i: nat)
    requires i < |outputs|
    ensures outputs[i].value <= OutputValue(outputs)
  {
    if i < |outputs| - 1 {
      ValueWithin(outputs[..|outputs| - 1], i);
    }
  }

  /** Every output of a publication is one the framer reads. */
  lemma OutputsReadable(tree: Bytes, inputs: seq<PlainBox>, r: Request, fee: nat, perByte: nat)
    requires RequestOk(r) && IsTree(r.location) && IsTree(tree) && Buildable(tree, inputs, r, fee, perByte)
    ensures forall c :: c in AllOutputs(tree, inputs, r, RecordOutputsOf(r, perByte), fee, perByte) ==> Readable(c)
  {
    hide LeastValue, BaseLength, UnsignedBytes, MinerFeeTree, IsTree, OutputValue, InputValue, Pieces, Recordable, Changes, PlainMinimum, Coll, PieceSize;
    var records := RecordOutputsOf(r, perByte);
    var outputs := AllOutputs(tree, inputs, r, records, fee, perByte);
    AllSpent(tree, inputs, r, records, fee, perByte);
    FeeIsTree();
    forall i: nat | i < |outputs|
      ensures Readable(outputs[i])
    {
      ValueWithin(outputs, i);
      if i < |records| {
        assert outputs[i] == records[i];
        RecordReadable(r, perByte, i);
      }
    }
  }

  lemma RecordReadable(r: Request, perByte: nat, i: nat)
    requires RequestOk(r) && IsTree(r.location) && Recordable(r, perByte) && i < |RecordOutputsOf(r, perByte)|
    requires RecordOutputsOf(r, perByte)[i].value <= MAX_U64
    ensures Readable(RecordOutputsOf(r, perByte)[i])
  {
    hide LeastValue, BaseLength, IsTree, Pieces, Coll, Fits, ChunkSize;
    var size := PieceSize(r, perByte);
    var pieces, c := Pieces(r.record, size), RecordOutputsOf(r, perByte)[i];
    PiecesCounted(r.record, size);
    if !r.chunked {
      SolePiece(r.record);
    }
    assert c.registers == [Coll(r.subject), Coll(pieces[i])] && c.tree == r.location;
    assert IsConstant(c.registers[0]) && IsConstant(c.registers[1]);
  }

  /** An output without registers is no piece; a record's output is its piece. */
  lemma PieceRead(profile: Profile, kind: nat, r: Request, perByte: nat, i: nat)
    requires ProfileOk(profile) && 1 <= kind <= 4 && RequestOk(r) && r.location == Location(profile, kind)
    requires Recordable(r, perByte) && i < |RecordOutputsOf(r, perByte)|
    ensures i < |Pieces(r.record, PieceSize(r, perByte))|
    ensures PieceOf(profile, Output(RecordOutputsOf(r, perByte)[i].tree, RecordOutputsOf(r, perByte)[i].registers))
         == Some(Piece(kind, r.subject, Pieces(r.record, PieceSize(r, perByte))[i]))
  {
    hide LeastValue, BaseLength, IsTree, Pieces, Coll, Fits, ChunkSize, CollBytes;
    var size := PieceSize(r, perByte);
    var pieces, c := Pieces(r.record, size), RecordOutputsOf(r, perByte)[i];
    PiecesCounted(r.record, size);
    if !r.chunked {
      SolePiece(r.record);
    }
    assert c.registers == [Coll(r.subject), Coll(pieces[i])] && c.tree == r.location;
    CollBytesReads(r.subject);
    CollBytesReads(pieces[i]);
    KindAtLocation(profile, kind);
  }

  lemma LocationsDiffer(profile: Profile, j: nat, k: nat)
    requires ProfileOk(profile) && 1 <= j <= 4 && 1 <= k <= 4
    ensures Location(profile, j) == Location(profile, k) ==> j == k
  {
    hide IsTree;
    if j < k {
      assert profile.scripts[j - 1] != profile.scripts[k - 1];
    } else if k < j {
      assert profile.scripts[k - 1] != profile.scripts[j - 1];
    }
  }

  lemma KindAtLocation(profile: Profile, kind: nat)
    requires ProfileOk(profile) && 1 <= kind <= 4
    ensures KindFrom(profile, Location(profile, kind), 1) == Some(kind)
  {
    hide IsTree;
    var found := KindFrom(profile, Location(profile, kind), 1);
    assert found.Some?;
    LocationsDiffer(profile, found.value, kind);
  }

  lemma {:induction false} NothingMore(profile: Profile, outputs: seq<Output>, position: nat, at: nat)
    requires |profile.scripts| == 4 && at <= |outputs| && forall i :: at <= i < |outputs| ==> PieceOf(profile, outputs[i]).None?
    ensures ObjectsFrom(profile, outputs, position, at) == []
    decreases |outputs| - at
  {
    hide PieceOf;
    if at < |outputs| {
      NothingMore(profile, outputs, position, at + 1);
    }
  }

  /** A run of pieces ends where its pieces do, and joins to what was cut. */
  lemma {:induction false} RunJoins(profile: Profile, outputs: seq<Output>, subject: Bytes, pieces: seq<Bytes>, k: nat)
    requires |profile.scripts| == 4 && k <= |pieces| <= |outputs|
    requires forall i :: 0 <= i < |pieces| ==> PieceOf(profile, outputs[i]) == Some(Piece(PUBLICATION_RANGE, subject, pieces[i]))
    requires forall i :: |pieces| <= i < |outputs| ==> PieceOf(profile, outputs[i]).None?
    ensures RunEnd(profile, outputs, k, subject) == |pieces|
    ensures Joined(profile, outputs, 0, |pieces|) == Joined(profile, outputs, 0, k) + Concat(pieces[k..])
    decreases |pieces| - k
  {
    hide PieceOf;
    if k < |pieces| {
      RunJoins(profile, outputs, subject, pieces, k + 1);
      assert pieces[k..][1..] == pieces[k + 1..];
      assert Joined(profile, outputs, 0, k + 1) == Joined(profile, outputs, 0, k) + pieces[k];
      assert (Joined(profile, outputs, 0, k) + pieces[k]) + Concat(pieces[k + 1..]) == Joined(profile, outputs, 0, k) + (pieces[k] + Concat(pieces[k + 1..]));
    }
  }

  /** The one object a publication is for, at its transaction's position and the first output. */
  function Published(kind: nat, r: Request, position: nat): AttributedObject {
    AttributedObject(kind, r.subject, Ordinal(position, 0), r.record)
  }

  /** The lengths a kind's record may have. */
  predicate LengthFits(kind: nat, length: nat) {
    if kind == PUBLICATION_RANGE then length <= MaxRecordBytes(kind) else length == MaxRecordBytes(kind)
  }

  lemma {:induction false} RunAttributed(profile: Profile, kind: nat, outputs: seq<Output>, pieces: seq<Bytes>, subject: Bytes, position: nat)
    requires |profile.scripts| == 4 && 1 <= kind <= 4 && 0 < |pieces| <= |outputs| && (kind != PUBLICATION_RANGE ==> |pieces| == 1)
    requires forall i :: 0 <= i < |pieces| ==> PieceOf(profile, outputs[i]) == Some(Piece(kind, subject, pieces[i]))
    requires forall i :: |pieces| <= i < |outputs| ==> PieceOf(profile, outputs[i]).None?
    ensures ObjectsFrom(profile, outputs, position, 0)
      == if LengthFits(kind, |Concat(pieces)|) then [AttributedObject(kind, subject, Ordinal(position, 0), Concat(pieces))] else []
  {
    hide PieceOf, Ordinal, RunEnd, Joined;
    NothingMore(profile, outputs, position, |pieces|);
    if kind == PUBLICATION_RANGE {
      RunJoins(profile, outputs, subject, pieces, 0);
      RunJoins(profile, outputs, subject, pieces, 1);
      assert pieces[0..] == pieces;
      assert Joined(profile, outputs, 0, 0) == [] by { NothingJoined(profile, outputs); }
      assert Joined(profile, outputs, 0, |pieces|) == Concat(pieces);
    } else {
      assert pieces == [pieces[0]];
      assert pieces[1..] == [];
      assert Concat(pieces) == pieces[0] + [] == pieces[0];
    }
  }

  lemma NothingJoined(profile: Profile, outputs: seq<Output>)
    requires |profile.scripts| == 4
    ensures Joined(profile, outputs, 0, 0) == []
  {
  }

  /** Publishing then reading: what `BuildPublication` builds at a kind's location attributes to
      exactly the one object where the record has a length of its kind, and otherwise to none,
      whatever change and fee follow it, even at a location that is the publisher's own. */
  lemma {:induction false} PublicationReads(profile: Profile, kind: nat, tree: Bytes, inputs: seq<PlainBox>, r: Request, fee: nat, perByte: nat, position: nat)
    requires ProfileOk(profile) && 1 <= kind <= 4 && RequestOk(r) && r.location == Location(profile, kind) && IsTree(tree)
    requires r.chunked ==> kind == PUBLICATION_RANGE
    requires (forall box :: box in inputs ==> |box.id| == 32) && Buildable(tree, inputs, r, fee, perByte)
    ensures var outputs := AllOutputs(tree, inputs, r, RecordOutputsOf(r, perByte), fee, perByte);
      Attribute(profile, UnsignedBytes(Ids(inputs), outputs, r.height), position)
      == if LengthFits(kind, |r.record|) then [Published(kind, r, position)] else []
  {
    hide UnsignedBytes, Recordable, LeastValue, BaseLength, MinerFeeTree, IsTree, PieceOf, Readable, Frame, PlainMinimum, Changes, InputValue, OutputValue, Pieces, Ordinal;
    var records := RecordOutputsOf(r, perByte);
    var outputs := AllOutputs(tree, inputs, r, records, fee, perByte);
    var pieces := Pieces(r.record, PieceSize(r, perByte));
    OutputsReadable(tree, inputs, r, fee, perByte);
    CountsSmall(Ids(inputs), outputs, r, perByte);
    UnsignedReads(Ids(inputs), outputs, r.height);
    var views := Views(outputs);
    forall i | 0 <= i < |pieces|
      ensures PieceOf(profile, views[i]) == Some(Piece(kind, r.subject, pieces[i]))
    {
      PieceRead(profile, kind, r, perByte, i);
      assert views[i] == Output(records[i].tree, records[i].registers);
    }
    forall i | |pieces| <= i < |views|
      ensures PieceOf(profile, views[i]).None?
    {
      assert views[i].registers == [];
      NoRegisters(profile, views[i]);
    }
    PiecesJoin(r.record, PieceSize(r, perByte));
    if kind != PUBLICATION_RANGE {
      SolePiece(r.record);
    }
    RunAttributed(profile, kind, views, pieces, r.subject, position);
  }

  lemma NoRegisters(profile: Profile, output: Output)
    requires |profile.scripts| == 4 && output.registers == []
    ensures PieceOf(profile, output).None?
  {
  }

  lemma CountsSmall(ids: seq<Bytes>, outputs: seq<Candidate>, r: Request, perByte: nat)
    requires RequestOk(r) && Recordable(r, perByte) && (forall id :: id in ids ==> |id| == 32)
    requires |outputs| <= |RecordOutputsOf(r, perByte)| + 2
    requires |UnsignedBytes(ids, outputs, r.height)| + PROOF_BYTES * |ids| <= MAX_TRANSACTION_BYTES
    ensures |ids| <= MAX_U16 && |outputs| <= MAX_U16
  {
    hide Pieces, ChunkSize, BoxAt, UnsignedBytes;
    PiecesCounted(r.record, PieceSize(r, perByte));
    if !r.chunked { SolePiece(r.record); }
  }
}
