/**
 How long a record a publisher carries in one transaction. The question is asked at the greatest
 height, fee and per-byte minimum; the answer is monotone in the length, so the search for the
 longest is exact, and it holds under every smaller height, fee and minimum, though there the pieces
 are cut at other lengths.
 */
module ErgoCapacity {
  import opened Wrappers
  import opened ErgoProfile
  import opened ErgoAttribution
  import opened ErgoWriter
  import opened ErgoMinimum
  import opened ErgoRecords
  import opened ErgoPublication

  const MAX_PER_BYTE: nat := 1_000_000
  const SIGNED_INPUT_BYTES: nat := 90
  const FEE_TREE_BYTES: nat := 105

  // ----- Lengths

  /** A piece's output beside its bytes. */
  function Over(tree: nat, height: nat, perByte: nat, p: nat): (over: int)
  {
    BoxAt(PieceBase(tree, 32, height, p, 1), perByte) - 33 - p
  }

  /** The outputs of a run beside its bytes. */
  function OverRun(tree: nat, height: nat, perByte: nat, size: nat, length: nat): int
    decreases length
  {
    if size == 0 || length <= size then Over(tree, height, perByte, length)
    else Over(tree, height, perByte, size) + OverRun(tree, height, perByte, size, length - size)
  }

  function PlainLength(tree: nat, height: nat, value: nat): nat {
    |Vlq(value)| + tree + |Vlq(height)| + 2
  }

  /** What a transaction takes beside its inputs, with change of the largest value. */
  function BodyLength(tree: nat, height: nat, perByte: nat, size: nat, length: nat, own: nat, fee: nat): int {
    2 + |Vlq(Count(length, size) + 2)| + (length + OverRun(tree, height, perByte, size, length))
      + PlainLength(own, height, MAX_U64) + PlainLength(FEE_TREE_BYTES, height, fee)
  }

  lemma OverPositive(tree: nat, height: nat, perByte: nat, p: nat)
    ensures Over(tree, height, perByte, p) > 0
  {
    hide Vlq, LeastValue;
  }

  lemma OverMonotone(tree: nat, height: nat, perByte: nat, p: nat, height': nat, perByte': nat, p': nat)
    requires height <= height' && perByte <= perByte' && p <= p'
    ensures Over(tree, height, perByte, p) <= Over(tree, height', perByte', p')
  {
    hide Vlq, BoxAt;
    VlqMonotone(p, p');
    VlqMonotone(height, height');
    BoxMonotone(PieceBase(tree, 32, height, p, 1), perByte, PieceBase(tree, 32, height', p', 1), perByte');
  }

  lemma {:induction false} OutputsJoin(a: seq<Candidate>, b: seq<Candidate>, height: nat)
    ensures OutputsBytes(a + b, height) == OutputsBytes(a, height) + OutputsBytes(b, height)
    decreases a
  {
    hide CandidateBytes;
    if a == [] {
      assert a + b == b;
      assert OutputsBytes(a, height) == [];
    } else {
      var first, rest, more := CandidateBytes(a[0], height), OutputsBytes(a[1..], height), OutputsBytes(b, height);
      OutputsJoin(a[1..], b, height);
      assert (a + b)[1..] == a[1..] + b && (a + b)[0] == a[0];
      assert OutputsBytes(a + b, height) == first + (rest + more);
      assert first + (rest + more) == (first + rest) + more;
    }
  }

  lemma OneOutput(c: Candidate, height: nat)
    ensures OutputsBytes([c], height) == CandidateBytes(c, height)
  {
    hide CandidateBytes;
    assert [c][1..] == [];
    assert OutputsBytes([], height) == [];
  }

  lemma PieceLength(r: Request, piece: Bytes, index: nat, perByte: nat)
    requires |r.subject| == 32 && index <= MAX_RUN_INDEX
    ensures |CandidateBytes(AtLeast(PieceCandidate(r, piece), r.height, index, perByte), r.height)|
         == |piece| + Over(|r.location|, r.height, perByte, |piece|)
  {
    hide Vlq, LeastValue, BaseLength, AtLeast, PieceCandidate, CandidateBytes, BoxAt;
    BaseOfPiece(r, piece, index);
    OneByteIndex(index);
  }

  /** The bytes of a run's outputs, from piece `k` of those cut so far. */
  lemma {:induction false} RunLength(r: Request, record: Bytes, size: nat, all: seq<Bytes>, k: nat, perByte: nat)
    requires |r.subject| == 32 && k + |Pieces(record, size)| == |all| <= MAX_RUN_INDEX + 1 && all[k..] == Pieces(record, size)
    ensures |OutputsBytes(RecordCandidates(r, all, perByte)[k..], r.height)| == |record| + OverRun(|r.location|, r.height, perByte, size, |record|)
    decreases |record|
  {
    hide Vlq, LeastValue, BaseLength, AtLeast, PieceCandidate, CandidateBytes, BoxAt, Over;
    var outputs := RecordCandidates(r, all, perByte);
    assert all[k] == all[k..][0];
    PieceLength(r, all[k], k, perByte);
    assert outputs[k..] == [outputs[k]] + outputs[k + 1..];
    if size == 0 || |record| <= size {
      assert outputs[k + 1..] == [];
      OneOutput(outputs[k], r.height);
    } else {
      assert all[k + 1..] == all[k..][1..];
      RunLength(r, record[size..], size, all, k + 1, perByte);
      assert outputs[k..][1..] == outputs[k + 1..];
    }
  }

  lemma PlainBytes(tree: Bytes, value: nat, height: nat)
    ensures |CandidateBytes(Candidate(value, tree, []), height)| == PlainLength(|tree|, height, value)
  {
    hide Vlq;
  }

  /** The outputs a publisher makes room for: the record's, the largest change and the fee. */
  function RoomOutputs(r: Request, tree: Bytes, fee: nat, perByte: nat): seq<Candidate> {
    RecordOutputsOf(r, perByte) + [Candidate(MAX_U64, tree, []), Candidate(fee, MinerFeeTree(), [])]
  }

  lemma RoomLength(r: Request, tree: Bytes, fee: nat, perByte: nat)
    requires |r.subject| == 32 && Recordable(r, perByte)
    ensures |BodyBytes(RoomOutputs(r, tree, fee, perByte), r.height)|
         == BodyLength(|r.location|, r.height, perByte, PieceSize(r, perByte), |r.record|, |tree|, fee)
  {
    hide Vlq, LeastValue, BaseLength, CandidateBytes, BoxAt, Over, Pieces, PieceSize, MinerFeeTree, OutputsBytes, OverRun, RecordCandidates, Recordable;
    var records, size := RecordOutputsOf(r, perByte), PieceSize(r, perByte);
    var change, paid := Candidate(MAX_U64, tree, []), Candidate(fee, MinerFeeTree(), []);
    var pieces := Pieces(r.record, size);
    PiecesCounted(r.record, size);
    RunShort(r, perByte);
    assert pieces[0..] == pieces && records[0..] == records;
    RunLength(r, r.record, size, pieces, 0, perByte);
    OutputsJoin(records, [change, paid], r.height);
    OutputsJoin([change], [paid], r.height);
    assert [change, paid] == [change] + [paid];
    OneOutput(change, r.height);
    OneOutput(paid, r.height);
    PlainBytes(tree, MAX_U64, r.height);
    PlainBytes(MinerFeeTree(), fee, r.height);
    FeePrefix();
  }

  // ----- Room for inputs

  function Room(r: Request, tree: Bytes, fee: nat, perByte: nat): int {
    MAX_TRANSACTION_BYTES - 1 - |BodyBytes(RoomOutputs(r, tree, fee, perByte), r.height)|
  }

  function RoomFor(room: int): nat {
    if room < SIGNED_INPUT_BYTES then 0
    else if room / SIGNED_INPUT_BYTES < MAX_INPUTS then room / SIGNED_INPUT_BYTES else MAX_INPUTS
  }

  /** `inputRoom`: the number of signed inputs there is space for. */
  method InputRoom(r: Request, tree: Bytes, fee: nat, perByte: nat) returns (room: Option<nat>)
    requires |r.subject| == 32
    ensures room == if Recordable(r, perByte) then Some(RoomFor(Room(r, tree, fee, perByte))) else None
  {
    hide LeastValue, BaseLength, Recordable, RecordOutputsOf, BodyBytes, MinerFeeTree;
    var records := RecordOutputs(r, perByte);
    if records.None? {
      return None;
    }
    var outputs := records.value + [Candidate(MAX_U64, tree, []), Candidate(fee, MinerFeeTree(), [])];
    var left := MAX_TRANSACTION_BYTES - 1 - |BodyBytes(outputs, r.height)|;
    if left < SIGNED_INPUT_BYTES {
      return Some(0);
    }
    var n := left / SIGNED_INPUT_BYTES;
    return Some(if n < MAX_INPUTS then n else MAX_INPUTS);
  }

  /** As many inputs as there is room for always leave the signed transaction within the limit,
      whether change is made or joins the fee. */
  lemma RoomSuffices(tree: Bytes, inputs: seq<PlainBox>, r: Request, fee: nat, perByte: nat)
    requires RequestOk(r) && Recordable(r, perByte) && InputValue(inputs) <= MAX_U64 && (forall box :: box in inputs ==> |box.id| == 32)
    requires Rest(inputs, RecordOutputsOf(r, perByte), fee) >= 0 && |inputs| <= RoomFor(Room(r, tree, fee, perByte))
    requires RoomFor(Room(r, tree, fee, perByte)) > 0
    ensures
      var outputs := AllOutputs(tree, inputs, r, RecordOutputsOf(r, perByte), fee, perByte);
      |UnsignedBytes(ErgoPublication.Ids(inputs), outputs, r.height)| + PROOF_BYTES * |inputs| <= MAX_TRANSACTION_BYTES
  {
    hide Vlq, LeastValue, BaseLength, CandidateBytes, MinerFeeTree, OutputsBytes, InputsBytes, Changes, InputValue, OutputValue, Recordable, RecordOutputsOf;
    var records := RecordOutputsOf(r, perByte);
    var outputs := AllOutputs(tree, inputs, r, records, fee, perByte);
    var ids := ErgoPublication.Ids(inputs);
    UnsignedLength(ids, outputs, r.height);
    BodyWithin(tree, inputs, r, records, fee, perByte);
    if |inputs| > 0 {
      assert |inputs| * SIGNED_INPUT_BYTES <= Room(r, tree, fee, perByte);
    }
    OneByteIndex(|inputs|);
  }

  lemma UnsignedLength(ids: seq<Bytes>, outputs: seq<Candidate>, height: nat)
    requires forall id :: id in ids ==> |id| == 32
    ensures |UnsignedBytes(ids, outputs, height)| == |Vlq(|ids|)| + 34 * |ids| + |BodyBytes(outputs, height)|
  {
    hide Vlq, InputsBytes, BodyBytes;
    InputsLength(ids);
  }

  lemma {:induction false} InputsLength(ids: seq<Bytes>)
    requires forall id :: id in ids ==> |id| == 32
    ensures |InputsBytes(ids)| == 34 * |ids|
    decreases ids
  {
    if ids != [] {
      assert ids[0] in ids;
      InputsLength(ids[1..]);
    }
  }

  /** A publication's outputs are never longer than those room was made for. */
  lemma BodyWithin(tree: Bytes, inputs: seq<PlainBox>, r: Request, records: seq<Candidate>, fee: nat, perByte: nat)
    requires Rest(inputs, records, fee) >= 0 && InputValue(inputs) <= MAX_U64
    ensures
      |BodyBytes(AllOutputs(tree, inputs, r, records, fee, perByte), r.height)|
      <= |BodyBytes(records + [Candidate(MAX_U64, tree, []), Candidate(fee, MinerFeeTree(), [])], r.height)|
  {
    hide Vlq, CandidateBytes, MinerFeeTree, OutputsBytes, Changes, InputValue, OutputValue;
    var rest := Rest(inputs, records, fee);
    var change, largest, paid, all := Candidate(rest, tree, []), Candidate(MAX_U64, tree, []), Candidate(fee, MinerFeeTree(), []), Candidate(fee + rest, MinerFeeTree(), []);
    PairLength(records, largest, paid, r.height);
    PairLength(records, change, paid, r.height);
    OutputsJoin(records, [all], r.height);
    OneOutput(all, r.height);
    PlainBytes(tree, MAX_U64, r.height);
    PlainBytes(tree, rest, r.height);
    PlainBytes(MinerFeeTree(), fee, r.height);
    PlainBytes(MinerFeeTree(), fee + rest, r.height);
    VlqMonotone(rest, MAX_U64);
    VlqMonotone(fee + rest, MAX_U64);
    VlqMonotone(|records| + 1, |records| + 2);
  }

  lemma PairLength(records: seq<Candidate>, a: Candidate, b: Candidate, height: nat)
    ensures |OutputsBytes(records + [a, b], height)| == |OutputsBytes(records, height)| + |CandidateBytes(a, height)| + |CandidateBytes(b, height)|
  {
    hide CandidateBytes, OutputsBytes;
    OutputsJoin(records, [a, b], height);
    assert [a, b] == [a] + [b];
    OutputsJoin([a], [b], height);
    OneOutput(a, height);
    OneOutput(b, height);
  }

  // ----- What is carried

  /** The run the question is asked of. */
  function RunRequest(location: Bytes, length: nat): (r: Request)
    ensures |r.subject| == 32 && |r.record| == length
  {
    Request(location, seq(32, _ => 0), seq(length, _ => 0), true, MAX_U32)
  }

  function BlankTree(): Bytes {
    P2pkTree(seq(33, _ => 0))
  }

  /** Whether a record of `length` bytes is carried at a location under every option. */
  predicate Carries(location: Bytes, length: nat) {
    var r := RunRequest(location, length);
    Recordable(r, MAX_PER_BYTE) && RoomFor(Room(r, BlankTree(), MAX_U64, MAX_PER_BYTE)) > 0
  }

  /** `ergoRunCarries`: nothing where the length is out of a publication's bound. */
  method ErgoRunCarries(location: Bytes, length: int) returns (carries: Option<bool>)
    ensures carries == if 0 <= length <= MaxRecordBytes(PUBLICATION_RANGE) then Some(Carries(location, length)) else None
  {
    hide Recordable, Room;
    if length < 0 || length > MaxRecordBytes(PUBLICATION_RANGE) {
      return None;
    }
    var room := InputRoom(RunRequest(location, length), BlankTree(), MAX_U64, MAX_PER_BYTE);
    return Some(room.Some? && room.value > 0);
  }

  /** A run of `length` bytes at a size, in lengths alone. */
  predicate RunCarries(tree: nat, height: nat, perByte: nat, length: nat, own: nat, fee: nat) {
    var size := ChunkSize(tree, height, perByte);
    size > 0 && Count(length, size) + 2 <= MAX_RUN_INDEX + 1
    && BodyLength(tree, height, perByte, size, length, own, fee) + SIGNED_INPUT_BYTES < MAX_TRANSACTION_BYTES
  }

  lemma CarriesInLengths(r: Request, tree: Bytes, fee: nat, perByte: nat)
    requires |r.subject| == 32 && r.chunked
    ensures Recordable(r, perByte) && RoomFor(Room(r, tree, fee, perByte)) > 0
      <==> RunCarries(|r.location|, r.height, perByte, |r.record|, |tree|, fee)
  {
    hide BodyLength, ChunkSize, RoomOutputs;
    if Recordable(r, perByte) {
      RoomLength(r, tree, fee, perByte);
    }
  }

  lemma {:induction false} CountMonotone(length: nat, size: nat, length': nat, size': nat)
    requires length <= length' && 0 < size' <= size
    ensures Count(length, size) <= Count(length', size')
    decreases length'
  {
    if length > size {
      CountMonotone(length - size, size, length' - size', size');
    }
  }

  /** A shorter record at a longer piece size and smaller options takes no more: `size` is the longer
      size of the smaller options. */
  lemma {:induction false} OverRunMonotone(tree: nat, height: nat, perByte: nat, size: nat, length: nat, height': nat, perByte': nat, size': nat, length': nat)
    requires height <= height' && perByte <= perByte' && 0 < size' <= size && length <= length'
    requires Over(tree, height, perByte, size) <= Over(tree, height', perByte', size')
    ensures OverRun(tree, height, perByte, size, length) <= OverRun(tree, height', perByte', size', length')
    decreases length'
  {
    hide Over;
    if length <= size {
      OverMonotone(tree, height, perByte, length, height, perByte, size);
      if length' <= size' {
        OverMonotone(tree, height, perByte, length, height', perByte', length');
      } else {
        OverRunPositive(tree, height', perByte', size', length' - size');
      }
    } else {
      OverRunMonotone(tree, height, perByte, size, length - size, height', perByte', size', length' - size');
    }
  }

  lemma {:induction false} OverRunPositive(tree: nat, height: nat, perByte: nat, size: nat, length: nat)
    ensures OverRun(tree, height, perByte, size, length) > 0
    decreases length
  {
    hide Over;
    OverPositive(tree, height, perByte, length);
    OverPositive(tree, height, perByte, size);
    if !(size == 0 || length <= size) {
      OverRunPositive(tree, height, perByte, size, length - size);
    }
  }

  /** A box of some 4,000 bytes at the greatest minimum has a five-byte value. */
  lemma GreatestMinimumIsFive(base: nat)
    requires 4000 <= base <= 4200
    ensures |Vlq(LeastValue(base, MAX_PER_BYTE))| == 5
  {
    hide LeastValue, Vlq, Pow128;
    Pow128Of10();
    var top := MAX_PER_BYTE * (base + 5);
    VlqFits(top, 5);
    var n := |Vlq(top)|;
    assert MAX_PER_BYTE * (base + n) <= top;
    assert Covers(base, MAX_PER_BYTE, top);
    var least := LeastValue(base, MAX_PER_BYTE);
    VlqMonotone(least, top);
    assert Covers(base, MAX_PER_BYTE, least);
    assert least >= MAX_PER_BYTE * base;
    VlqFits(least, 4);
  }

  lemma VlqNext(n: nat)
    ensures |Vlq(n)| <= |Vlq(n + 1)| <= |Vlq(n)| + 1
  {
    if n >= 127 {
      VlqNextAbove(n);
    }
  }

  lemma {:induction false} VlqNextAbove(n: nat)
    ensures |Vlq(n)| <= |Vlq(n + 1)| <= |Vlq(n)| + 1
  {
    if n >= 127 {
      if (n + 1) / 128 == n / 128 {
      } else {
        assert (n + 1) / 128 == n / 128 + 1;
        if n >= 128 { VlqNextAbove(n / 128); }
      }
    }
  }

  /** At the longest pieces: smaller options cut longer pieces, whose outputs are no longer beside
      their bytes. */
  lemma LongestPieces(tree: nat, height: nat, perByte: nat)
    requires height <= MAX_U32 && perByte <= MAX_PER_BYTE && ChunkSize(tree, MAX_U32, MAX_PER_BYTE) > 0
    ensures
      var size, size' := ChunkSize(tree, height, perByte), ChunkSize(tree, MAX_U32, MAX_PER_BYTE);
      size' <= size && Over(tree, height, perByte, size) <= Over(tree, MAX_U32, MAX_PER_BYTE, size')
  {
    hide Vlq, LeastValue, ChunkSize;
    var size, size' := ChunkSize(tree, height, perByte), ChunkSize(tree, MAX_U32, MAX_PER_BYTE);
    FitsMonotone(tree, height, perByte, size', MAX_U32, MAX_PER_BYTE, size');
    assert size' <= size;
    if size == size' {
      OverMonotone(tree, height, perByte, size, MAX_U32, MAX_PER_BYTE, size);
    } else {
      FitsMeans(tree, height, perByte, size);
      FitsMeans(tree, MAX_U32, MAX_PER_BYTE, size');
      FitsMeans(tree, MAX_U32, MAX_PER_BYTE, size' + 1);
      VlqNext(size');
      var base, next := PieceBase(tree, 32, MAX_U32, size', 1), PieceBase(tree, 32, MAX_U32, size' + 1, 1);
      assert base + 1 <= next <= base + 2;
      NextBox(base, next);
    }
  }

  lemma NextBox(base: nat, next: nat)
    requires base + 1 <= next <= base + 2 && BoxAt(base, MAX_PER_BYTE) <= MAX_BOX_BYTES < BoxAt(next, MAX_PER_BYTE)
    ensures BoxAt(next, MAX_PER_BYTE) - next == BoxAt(base, MAX_PER_BYTE) - base
  {
    hide Vlq, LeastValue;
    Pow128Of10();
    var top := MAX_PER_BYTE * 4200;
    VlqFits(top, 5);
    LeastMonotone(next, MAX_PER_BYTE, 4100, MAX_PER_BYTE);
    GreatestMinimumIsFive(4100);
    VlqMonotone(LeastValue(next, MAX_PER_BYTE), LeastValue(4100, MAX_PER_BYTE));
    GreatestMinimumIsFive(next);
    GreatestMinimumIsFive(base);
  }

  /** What is carried under the greatest options is carried under all. */
  lemma RunCarriesMonotone(tree: nat, height: nat, perByte: nat, length: nat, length': nat, own: nat, fee: nat)
    requires height <= MAX_U32 && perByte <= MAX_PER_BYTE && length <= length' && fee <= MAX_U64
    requires RunCarries(tree, MAX_U32, MAX_PER_BYTE, length', own, MAX_U64)
    ensures RunCarries(tree, height, perByte, length, own, fee)
  {
    hide Vlq, LeastValue, ChunkSize, Over, OverRun, Count;
    var size, size' := ChunkSize(tree, height, perByte), ChunkSize(tree, MAX_U32, MAX_PER_BYTE);
    LongestPieces(tree, height, perByte);
    CountMonotone(length, size, length', size');
    OverRunMonotone(tree, height, perByte, size, length, MAX_U32, MAX_PER_BYTE, size', length');
    VlqMonotone(Count(length, size) + 2, Count(length', size') + 2);
    VlqMonotone(height, MAX_U32);
    VlqMonotone(fee, MAX_U64);
  }

  /** Monotone in the length. */
  lemma CarriesMonotone(location: Bytes, length: nat, length': nat)
    requires length <= length' && Carries(location, length')
    ensures Carries(location, length)
  {
    hide RunCarries, Recordable, Room;
    CarriesInLengths(RunRequest(location, length), BlankTree(), MAX_U64, MAX_PER_BYTE);
    CarriesInLengths(RunRequest(location, length'), BlankTree(), MAX_U64, MAX_PER_BYTE);
    RunCarriesMonotone(|location|, MAX_U32, MAX_PER_BYTE, length, length', |BlankTree()|, MAX_U64);
  }

  /** `ergoRunCapacity`: the exact threshold, or -1 where nothing is carried. */
  method ErgoRunCapacity(location: Bytes) returns (capacity: int)
    ensures -1 <= capacity <= MaxRecordBytes(PUBLICATION_RANGE)
    ensures forall length: nat :: length <= MaxRecordBytes(PUBLICATION_RANGE) ==> (Carries(location, length) <==> length <= capacity)
  {
    hide Carries;
    var none := ErgoRunCarries(location, 0);
    var low, high := 0, MaxRecordBytes(PUBLICATION_RANGE);
    if !none.value {
      forall length: nat | Carries(location, length)
        ensures false
      {
        CarriesMonotone(location, 0, length);
      }
      return -1;
    }
    while low < high
      invariant 0 <= low <= high <= MaxRecordBytes(PUBLICATION_RANGE) && Carries(location, low)
      invariant forall length: nat :: high < length <= MaxRecordBytes(PUBLICATION_RANGE) ==> !Carries(location, length)
    {
      var middle := (low + high + 1) / 2;
      var carries := ErgoRunCarries(location, middle);
      if carries.value {
        low := middle;
      } else {
        forall length: nat | middle <= length && Carries(location, length)
          ensures false
        {
          CarriesMonotone(location, middle, length);
        }
        high := middle - 1;
      }
    }
    forall length: nat | length <= low
      ensures Carries(location, length)
    {
      CarriesMonotone(location, length, low);
    }
    return low;
  }

  /** A carried record is built in one transaction at every accepted height, fee and per-byte
      minimum, from any number of boxes of the publisher's key that there is room for, of which
      there is room for one at least, where they cover it and the fee its box's minimum. */
  lemma CarriedRecordBuilds(r: Request, publicKey: Bytes, inputs: seq<PlainBox>, fee: nat, perByte: nat)
    requires RequestOk(r) && r.chunked && Carries(r.location, |r.record|)
    requires fee <= MAX_U64 && perByte <= MAX_PER_BYTE && |publicKey| == 33
    ensures Recordable(r, perByte) && RoomFor(Room(r, P2pkTree(publicKey), fee, perByte)) >= 1
    ensures
      var tree, records := P2pkTree(publicKey), RecordOutputsOf(r, perByte);
      && (forall box :: box in inputs ==> |box.id| == 32) && |inputs| <= RoomFor(Room(r, tree, fee, perByte))
      && InputValue(inputs) <= MAX_U64 && Rest(inputs, records, fee) >= 0
      && (var outputs := AllOutputs(tree, inputs, r, records, fee, perByte);
          outputs[|outputs| - 1].value >= PlainMinimum(MinerFeeTree(), r.height, |outputs| - 1, perByte))
      ==> Buildable(tree, inputs, r, fee, perByte)
  {
    hide RunCarries, Recordable, Room, MinerFeeTree, RecordOutputsOf, InputValue, OutputValue, UnsignedBytes, PlainMinimum, Changes;
    var tree := P2pkTree(publicKey);
    CarriesInLengths(RunRequest(r.location, |r.record|), BlankTree(), MAX_U64, MAX_PER_BYTE);
    RunCarriesMonotone(|r.location|, r.height, perByte, |r.record|, |r.record|, |tree|, fee);
    CarriesInLengths(r, tree, fee, perByte);
    if (forall box :: box in inputs ==> |box.id| == 32) && |inputs| <= RoomFor(Room(r, tree, fee, perByte))
       && InputValue(inputs) <= MAX_U64 && Rest(inputs, RecordOutputsOf(r, perByte), fee) >= 0 {
      RoomSuffices(tree, inputs, r, fee, perByte);
    }
  }
}
