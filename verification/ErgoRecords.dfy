/**
 The boxes that hold a record: one, or a run of them for a publication too long for one, each as full
 as a box may be and worth the least that its length allows.
 */
module ErgoRecords {
  import opened Wrappers
  import opened ErgoProfile
  import opened ErgoAttribution
  import opened ErgoWriter
  import opened ErgoMinimum

  const MAX_BOX_BYTES: nat := 4096
  /** Above it an output's index takes two bytes. */
  const MAX_RUN_INDEX: nat := 127

  datatype Request = Request(location: Bytes, subject: Bytes, record: Bytes, chunked: bool, height: nat)

  /** `ownRequest`: what a publisher takes. */
  predicate RequestOk(r: Request) {
    && |r.subject| == 32 && r.height <= MAX_U32
    && |r.record| <= if r.chunked then MaxRecordBytes(PUBLICATION_RANGE) else MAX_U16
  }

  function PieceCandidate(r: Request, piece: Bytes): Candidate {
    Candidate(0, r.location, [Coll(r.subject), Coll(piece)])
  }

  /** A box of `base` bytes beside its value, at its least value. */
  function BoxAt(base: nat, perByte: nat): nat {
    base + |Vlq(LeastValue(base, perByte))|
  }

  lemma BoxMonotone(base: nat, perByte: nat, base': nat, perByte': nat)
    requires base <= base' && perByte <= perByte'
    ensures BoxAt(base, perByte) + (base' - base) <= BoxAt(base', perByte')
  {
    hide LeastValue, Vlq;
    LeastMonotone(base, perByte, base', perByte');
    VlqMonotone(LeastValue(base, perByte), LeastValue(base', perByte'));
  }

  /** A piece's box beside its value: of `p` bytes at a location of `tree`, at an index of `index`
      bytes. */
  function PieceBase(tree: nat, subject: nat, height: nat, p: nat, index: nat): nat {
    tree + |Vlq(height)| + 2 + (1 + |Vlq(subject)| + subject) + (1 + |Vlq(p)| + p) + 32 + index
  }

  lemma BaseOfPiece(r: Request, piece: Bytes, index: nat)
    ensures BaseLength(PieceCandidate(r, piece), r.height, index) == PieceBase(|r.location|, |r.subject|, r.height, |piece|, |Vlq(index)|)
    ensures forall perByte: nat ::
      BoxLength(AtLeast(PieceCandidate(r, piece), r.height, index, perByte), r.height, index) == BoxAt(BaseLength(PieceCandidate(r, piece), r.height, index), perByte)
  {
    hide Vlq, LeastValue, BaseLength;
    var c := PieceCandidate(r, piece);
    ConcatPair(Coll(r.subject), Coll(piece));
    PieceParts(c, r.height, index);
    forall perByte: nat
      ensures BoxLength(AtLeast(c, r.height, index, perByte), r.height, index) == BoxAt(BaseLength(c, r.height, index), perByte)
    {
      SameBase(c, LeastValue(BaseLength(c, r.height, index), perByte), r.height, index);
      BoxOfBase(AtLeast(c, r.height, index, perByte), r.height, index);
    }
  }

  lemma ConcatPair(a: Bytes, b: Bytes)
    ensures Concat([a, b]) == a + b
  {
    assert [a, b][1..] == [b] && [b][1..] == [];
    assert Concat([]) == [] && Concat([b]) == b + [];
  }

  lemma PieceParts(c: Candidate, height: nat, index: nat)
    ensures BaseLength(c, height, index) == |c.tree| + |Vlq(height)| + 2 + |Concat(c.registers)| + 32 + |Vlq(index)|
  {
  }

  /** Whether a piece of `p` bytes fits its box anywhere in a run. */
  predicate Fits(tree: nat, height: nat, perByte: nat, p: nat) {
    BoxAt(PieceBase(tree, 32, height, p, 1), perByte) <= MAX_BOX_BYTES
  }

  lemma FitsMonotone(tree: nat, height: nat, perByte: nat, p: nat, height': nat, perByte': nat, p': nat)
    requires height <= height' && perByte <= perByte' && p <= p' && Fits(tree, height', perByte', p')
    ensures Fits(tree, height, perByte, p)
  {
    hide Vlq, BoxAt;
    VlqMonotone(p, p');
    VlqMonotone(height, height');
    BoxMonotone(PieceBase(tree, 32, height, p, 1), perByte, PieceBase(tree, 32, height', p', 1), perByte');
  }

  function ChunkFrom(tree: nat, height: nat, perByte: nat, p: nat): (size: nat)
    ensures size <= p && (size == 0 || Fits(tree, height, perByte, size))
    ensures forall q :: size < q <= p ==> !Fits(tree, height, perByte, q)
  {
    if p == 0 || Fits(tree, height, perByte, p) then p else ChunkFrom(tree, height, perByte, p - 1)
  }

  /** The longest piece that fits its box. */
  function ChunkSize(tree: nat, height: nat, perByte: nat): (size: nat)
    ensures size <= MAX_BOX_BYTES && (size == 0 || Fits(tree, height, perByte, size))
    ensures forall q :: size < q <= MAX_BOX_BYTES ==> !Fits(tree, height, perByte, q)
  {
    ChunkFrom(tree, height, perByte, MAX_BOX_BYTES)
  }

  lemma OneByteIndex(index: nat)
    requires index <= MAX_RUN_INDEX
    ensures |Vlq(index)| == 1
  {
  }

  /** The binary search for it. */
  method FindChunkSize(r: Request, perByte: nat) returns (size: nat)
    requires |r.subject| == 32
    ensures size == ChunkSize(|r.location|, r.height, perByte)
  {
    hide Fits, Vlq, BoxLength, BaseLength, LeastValue;
    ghost var chunk := ChunkSize(|r.location|, r.height, perByte);
    var low, high := 0, if MAX_U16 < MAX_BOX_BYTES then MAX_U16 else MAX_BOX_BYTES;
    while low < high
      invariant low <= chunk <= high <= MAX_BOX_BYTES
    {
      var middle := (low + high + 1) / 2;
      var piece: Bytes := seq(middle, _ => 0);
      var c := PieceCandidate(r, piece);
      var value := MinimumValue(c, r.height, MAX_RUN_INDEX, perByte);
      ghost var fits := Fits(|r.location|, r.height, perByte, middle);
      assert fits <==> BoxLength(c.(value := value), r.height, MAX_RUN_INDEX) <= MAX_BOX_BYTES by {
        BaseOfPiece(r, piece, MAX_RUN_INDEX);
        OneByteIndex(MAX_RUN_INDEX);
        FitsMeans(|r.location|, r.height, perByte, middle);
      }
      if BoxLength(c.(value := value), r.height, MAX_RUN_INDEX) <= MAX_BOX_BYTES {
        low := middle;
      } else {
        if chunk >= middle {
          FitsMonotone(|r.location|, r.height, perByte, middle, r.height, perByte, chunk);
        }
        high := middle - 1;
      }
    }
    return low;
  }

  lemma FitsMeans(tree: nat, height: nat, perByte: nat, p: nat)
    ensures Fits(tree, height, perByte, p) <==> BoxAt(PieceBase(tree, 32, height, p, 1), perByte) <= MAX_BOX_BYTES
  {
  }

  // ----- The run

  /** A record cut into pieces of `size`; an empty record is one empty piece. */
  function Pieces(record: Bytes, size: nat): (pieces: seq<Bytes>)
    ensures |pieces| > 0
    decreases |record|
  {
    if size == 0 || |record| <= size then [record] else [record[..size]] + Pieces(record[size..], size)
  }

  lemma {:induction false} PiecesJoin(record: Bytes, size: nat)
    ensures Concat(Pieces(record, size)) == record
    decreases |record|
  {
    if !(size == 0 || |record| <= size) {
      PiecesJoin(record[size..], size);
      var pieces := Pieces(record, size);
      assert pieces[1..] == Pieces(record[size..], size);
      assert record[..size] + record[size..] == record;
    } else {
      assert [record][1..] == [];
    }
  }

  /** How many pieces a record of `length` bytes makes. */
  function Count(length: nat, size: nat): (count: nat)
    ensures count > 0
    decreases length
  {
    if size == 0 || length <= size then 1 else 1 + Count(length - size, size)
  }

  lemma {:induction false} PiecesCounted(record: Bytes, size: nat)
    ensures |Pieces(record, size)| == Count(|record|, size)
    ensures size > 0 ==> forall i :: 0 <= i < |Pieces(record, size)| ==> |Pieces(record, size)[i]| <= size
    decreases |record|
  {
    if !(size == 0 || |record| <= size) {
      PiecesCounted(record[size..], size);
    }
  }

  lemma {:induction false} CountBounds(length: nat, size: nat)
    requires size > 0 && length > 0
    ensures (Count(length, size) - 1) * size < length <= Count(length, size) * size
    decreases length
  {
    if length > size {
      CountBounds(length - size, size);
      var n := Count(length - size, size);
      assert n * size == (n - 1) * size + size && (n + 1) * size == n * size + size;
    }
  }

  lemma Quotient(x: int, d: int, q: int, rest: int)
    requires 0 <= rest < d && x == q * d + rest
    ensures x / d == q
  {
    var e := x / d - q;
    assert e * d == (x / d) * d - q * d;
    assert x == (x / d) * d + x % d;
    MultipleFar(e, d);
  }

  lemma MultipleFar(e: int, d: int)
    requires d > 0
    ensures e >= 1 ==> e * d >= d
    ensures e <= -1 ==> e * d <= -d
  {
  }

  /** The source's own count: at least one, else the length over the size rounded up. */
  lemma CountRounds(length: nat, size: nat)
    requires size > 0
    ensures Count(length, size) == if (length + size - 1) / size < 1 then 1 else (length + size - 1) / size
  {
    var n := Count(length, size);
    if length == 0 {
      Quotient(size - 1, size, 0, size - 1);
    } else {
      CountBounds(length, size);
      assert n * size == (n - 1) * size + size;
      Quotient(length + size - 1, size, n, length + size - 1 - n * size);
    }
  }

  /** A record's outputs, each at its own least value. */
  function RecordCandidates(r: Request, pieces: seq<Bytes>, perByte: nat): (outputs: seq<Candidate>)
    ensures |outputs| == |pieces|
  {
    seq(|pieces|, i requires 0 <= i < |pieces| => AtLeast(PieceCandidate(r, pieces[i]), r.height, i, perByte))
  }

  function PieceSize(r: Request, perByte: nat): nat {
    if r.chunked then ChunkSize(|r.location|, r.height, perByte) else |r.record|
  }

  /** Whether a record's outputs can be written: a run that leaves room for change and fee at one-byte
      indices, and every box within the node's bound. */
  predicate Recordable(r: Request, perByte: nat) {
    var size := PieceSize(r, perByte);
    && (r.chunked ==> size > 0 && Count(|r.record|, size) + 2 <= MAX_RUN_INDEX + 1)
    && (!r.chunked ==> BoxAt(PieceBase(|r.location|, 32, r.height, |r.record|, 1), perByte) <= MAX_BOX_BYTES)
  }

  function RecordOutputsOf(r: Request, perByte: nat): seq<Candidate> {
    RecordCandidates(r, Pieces(r.record, PieceSize(r, perByte)), perByte)
  }

  /** Every piece of a run fits its box. */
  lemma PieceFits(r: Request, perByte: nat, i: nat)
    requires |r.subject| == 32 && Recordable(r, perByte)
    requires i < |Pieces(r.record, PieceSize(r, perByte))|
    ensures i <= MAX_RUN_INDEX
    ensures BoxLength(RecordOutputsOf(r, perByte)[i], r.height, i) <= MAX_BOX_BYTES
  {
    hide Vlq, LeastValue, BaseLength, BoxLength, BoxAt, AtLeast, Pieces, PieceCandidate;
    var size := PieceSize(r, perByte);
    var pieces := Pieces(r.record, size);
    PiecesCounted(r.record, size);
    if !r.chunked {
      SolePiece(r.record);
    } else {
      FitsMonotone(|r.location|, r.height, perByte, |pieces[i]|, r.height, perByte, size);
      FitsMeans(|r.location|, r.height, perByte, |pieces[i]|);
    }
    OneByteIndex(i);
    BaseOfPiece(r, pieces[i], i);
  }

  lemma SolePiece(record: Bytes)
    ensures Pieces(record, |record|) == [record]
  {
  }

  /** `recordOutputs`. */
  method RecordOutputs(r: Request, perByte: nat) returns (outputs: Option<seq<Candidate>>)
    requires |r.subject| == 32
    ensures outputs == if Recordable(r, perByte) then Some(RecordOutputsOf(r, perByte)) else None
  {
    hide Vlq, LeastValue, BaseLength, BoxLength, BoxAt, AtLeast, PieceCandidate, ChunkSize, Fits;
    var size := |r.record|;
    if r.chunked {
      size := FindChunkSize(r, perByte);
      if size == 0 {
        return None;
      }
      CountRounds(|r.record|, size);
      var count := (|r.record| + size - 1) / size;
      if (if count < 1 then 1 else count) + 2 > MAX_RUN_INDEX + 1 {
        return None;
      }
    }
    ghost var pieces := Pieces(r.record, size);
    var done: seq<Candidate> := [];
    var at := 0;
    assert r.record[0..] == r.record;
    while at < |r.record| || |done| == 0
      invariant |done| <= |pieces| && at >= 0
      invariant |done| < |pieces| <==> at < |r.record| || |done| == 0
      invariant |done| < |pieces| ==> at <= |r.record| && Pieces(r.record[at..], size) == pieces[|done|..]
      invariant done == RecordCandidates(r, pieces, perByte)[..|done|]
      invariant Recordable(r, perByte) || |done| == 0
      decreases |pieces| - |done|
    {
      var end := if at + size <= |r.record| then at + size else |r.record|;
      var piece := r.record[at..end];
      NextPiece(r.record, at, size, pieces, |done|);
      assert piece == pieces[|done|];
      var c, index := PieceCandidate(r, piece), |done|;
      var value := MinimumValue(c, r.height, index, perByte);
      assert c.(value := value) == RecordCandidates(r, pieces, perByte)[index] by { LeastIs(c, r.height, index, perByte); }
      if BoxLength(c.(value := value), r.height, index) > MAX_BOX_BYTES {
        if Recordable(r, perByte) { PieceFits(r, perByte, index); }
        return None;
      }
      assert Recordable(r, perByte) by {
        if !r.chunked {
          SolePiece(r.record);
          BaseOfPiece(r, piece, 0);
          OneByteIndex(0);
          LeastIs(c, r.height, 0, perByte);
        }
      }
      done := done + [c.(value := value)];
      at := at + size;
      if size == 0 {
        assert |done| == |pieces| && done == RecordCandidates(r, pieces, perByte)[..|done|];
        break;
      }
    }
    assert |done| == |pieces|;
    assert RecordCandidates(r, pieces, perByte)[..|pieces|] == RecordCandidates(r, pieces, perByte);
    return Some(done);
  }

  lemma LeastIs(c: Candidate, height: nat, index: nat, perByte: nat)
    ensures AtLeast(c, height, index, perByte) == c.(value := LeastValue(BaseLength(c, height, index), perByte))
  {
  }

  lemma NextPiece(record: Bytes, at: nat, size: nat, pieces: seq<Bytes>, n: nat)
    requires n < |pieces| && at <= |record| && Pieces(record[at..], size) == pieces[n..]
    requires size > 0 || at == |record| == 0
    ensures pieces[n] == record[at..if at + size <= |record| then at + size else |record|]
    ensures n + 1 < |pieces| <==> at + size < |record|
    ensures n + 1 < |pieces| ==> Pieces(record[at + size..], size) == pieces[n + 1..]
  {
    var rest := record[at..];
    if |rest| > size {
      assert rest[size..] == record[at + size..];
      assert pieces[n..][1..] == pieces[n + 1..];
    }
  }
}
