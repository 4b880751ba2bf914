/**
 The bytes a publisher writes, and that the framer reads them back: variable-length integers,
 constants, outputs and inputs. `Holds` says that a string stands at a position of the bytes; each
 reading lemma is over any bytes holding what was written.
 */
module ErgoWriter {
  import opened Wrappers
  import opened ErgoScan
  import opened ErgoProfile
  import opened ErgoAttribution

  // ----- Strings in place

  predicate Holds(bytes: Bytes, at: nat, x: Bytes) {
    at + |x| <= |bytes| && bytes[at..at + |x|] == x
  }

  lemma HoldsBoth(bytes: Bytes, at: nat, x: Bytes, y: Bytes)
    ensures Holds(bytes, at, x + y) <==> Holds(bytes, at, x) && Holds(bytes, at + |x|, y)
  {
    if Holds(bytes, at, x + y) {
      var s := bytes[at..at + |x| + |y|];
      assert s[..|x|] == x && s[|x|..] == y;
      assert s[..|x|] == bytes[at..at + |x|] && s[|x|..] == bytes[at + |x|..at + |x| + |y|];
    }
    if Holds(bytes, at, x) && Holds(bytes, at + |x|, y) {
      assert bytes[at..at + |x + y|] == bytes[at..at + |x|] + bytes[at + |x|..at + |x| + |y|];
    }
  }

  lemma HoldsOne(bytes: Bytes, at: nat, b: Byte)
    requires Holds(bytes, at, [b])
    ensures at < |bytes| && bytes[at] == b
  {
    assert bytes[at..at + 1][0] == b;
  }

  // ----- Variable-length integers

  function Vlq(n: nat): (out: Bytes)
    ensures |out| > 0
  {
    if n < 128 then [n] else [n % 128 + 128] + Vlq(n / 128)
  }

  lemma VlqStep(n: nat)
    ensures Vlq(n) == if n / 128 > 0 then [n % 128 + 128] + Vlq(n / 128) else [n % 128]
  {
  }

  method WriteVlq(n: nat) returns (out: Bytes)
    ensures out == Vlq(n)
  {
    hide Vlq;
    out := [];
    var rest, more := n, true;
    while more
      invariant out + (if more then Vlq(rest) else []) == Vlq(n)
      decreases if more then rest + 1 else 0
    {
      VlqStep(rest);
      var low: Byte := rest % 128;
      rest := rest / 128;
      more := rest > 0;
      var b: Byte := if more then low + 128 else low;
      assert out + ([b] + (if more then Vlq(rest) else [])) == (out + [b]) + (if more then Vlq(rest) else []);
      out := out + [b];
    }
  }

  lemma {:induction false} VlqFits(n: nat, k: nat)
    requires k > 0
    ensures |Vlq(n)| <= k <==> n < Pow128(k)
  {
    assert Pow128(1) == 128 * Pow128(0) && Pow128(k) == 128 * Pow128(k - 1);
    if k == 1 {
    } else if n < 128 {
      Pow128AtLeast(k - 1);
    } else {
      VlqFits(n / 128, k - 1);
      DivBelow(n, Pow128(k - 1));
    }
  }

  lemma {:induction false} Pow128AtLeast(k: nat)
    ensures Pow128(k) >= 1
  {
  }

  lemma DivBelow(n: nat, p: nat)
    ensures n / 128 < p <==> n < 128 * p
  {
  }

  lemma {:induction false} VlqMonotone(m: nat, n: nat)
    requires m <= n
    ensures |Vlq(m)| <= |Vlq(n)|
  {
    if n >= 128 && m >= 128 {
      VlqMonotone(m / 128, n / 128);
    }
  }

  lemma Pow128Of10()
    ensures Pow128(10) > MAX_U64 && Pow128(5) == 0x8_0000_0000 && Pow128(4) == 0x1000_0000 && Pow128(1) == 128
  {
    assert Pow128(1) == 128 && Pow128(2) == 0x4000 && Pow128(3) == 0x20_0000;
    assert Pow128(4) == 128 * Pow128(3) && Pow128(5) == 128 * Pow128(4) && Pow128(6) == 128 * Pow128(5);
    assert Pow128(7) == 128 * Pow128(6) && Pow128(8) == 128 * Pow128(7) && Pow128(9) == 128 * Pow128(8) && Pow128(10) == 128 * Pow128(9);
  }

  /** `n` at digit `k` of a value. */
  function Raised(n: nat, k: nat): nat {
    n * Pow128(k)
  }

  lemma RaisedDigits(n: nat, k: nat)
    ensures n >= 128 ==> Digit(n % 128 + 128, k) + Raised(n / 128, k + 1) == Raised(n, k)
    ensures n < 128 ==> Digit(n, k) == Raised(n, k)
  {
    if n >= 128 {
      var q, r, p := n / 128, n % 128, Pow128(k);
      assert (r + 128) % 128 == r;
      assert r * p + q * (128 * p) == (r + q * 128) * p;
    }
  }

  lemma {:induction false} VlqReadFrom(bytes: Bytes, at: nat, k: nat, value: nat, n: nat, max: nat)
    requires Holds(bytes, at, Vlq(n)) && k + |Vlq(n)| <= 10 && value + Raised(n, k) <= max && (n > 0 || k == 0)
    ensures VlqFrom(bytes, at, k, value, max) == Some((value + Raised(n, k), at + |Vlq(n)|))
    decreases n
  {
    hide Raised, Digit;
    RaisedDigits(n, k);
    if n < 128 {
      HoldsOne(bytes, at, n);
    } else {
      HoldsBoth(bytes, at, [n % 128 + 128], Vlq(n / 128));
      HoldsOne(bytes, at, n % 128 + 128);
      VlqReadFrom(bytes, at + 1, k + 1, value + Digit(n % 128 + 128, k), n / 128, max);
    }
  }

  /** Writing then reading an integer of at most 64 bits gives it back. */
  lemma VlqReads(bytes: Bytes, at: nat, n: nat, max: nat)
    requires Holds(bytes, at, Vlq(n)) && n <= max && n <= MAX_U64
    ensures ReadVlq(bytes, at, max) == Some((n, at + |Vlq(n)|))
  {
    hide Vlq;
    Pow128Of10();
    VlqFits(n, 10);
    RaisedZero(n);
    VlqReadFrom(bytes, at, 0, 0, n, max);
  }

  lemma RaisedZero(n: nat)
    ensures Raised(n, 0) == n
  {
  }

  lemma {:induction false} LengthReadFrom(constant: Bytes, at: nat, k: nat, length: nat, n: nat)
    requires Holds(constant, at, Vlq(n)) && k + |Vlq(n)| <= 5 && (n > 0 || k == 0)
    ensures LengthFrom(constant, at, k, length) == Some((length + Raised(n, k), at + |Vlq(n)|))
    decreases n
  {
    hide Raised, Digit;
    RaisedDigits(n, k);
    if n < 128 {
      HoldsOne(constant, at, n);
    } else {
      HoldsBoth(constant, at, [n % 128 + 128], Vlq(n / 128));
      HoldsOne(constant, at, n % 128 + 128);
      LengthReadFrom(constant, at + 1, k + 1, length + Digit(n % 128 + 128, k), n / 128);
    }
  }

  // ----- Constants

  function Coll(b: Bytes): Bytes {
    [COLL_BYTE_TYPE] + Vlq(|b|) + b
  }

  lemma CollReads(bytes: Bytes, at: nat, b: Bytes)
    requires Holds(bytes, at, Coll(b)) && |b| <= MAX_U16
    ensures FrameColl(bytes, at) == Some(at + |Coll(b)|) && bytes[at..at + |Coll(b)|] == Coll(b)
  {
    hide Vlq, ReadVlq;
    HoldsBoth(bytes, at, [COLL_BYTE_TYPE] + Vlq(|b|), b);
    HoldsBoth(bytes, at, [COLL_BYTE_TYPE], Vlq(|b|));
    HoldsOne(bytes, at, COLL_BYTE_TYPE);
    VlqReads(bytes, at + 1, |b|, MAX_U16);
  }

  lemma CollBytesReads(b: Bytes)
    requires |b| <= MAX_U16
    ensures CollBytes(Coll(b)) == Some(b)
  {
    hide Vlq, LengthFrom, Pow128;
    var c, n := Coll(b), |b|;
    Pow128Of10();
    VlqFits(n, 4);
    RaisedZero(n);
    assert c[1..1 + |Vlq(n)|] == Vlq(n);
    LengthReadFrom(c, 1, 0, 0, n);
    assert c[1 + |Vlq(n)|..] == b;
  }

  // ----- Trees

  lemma {:induction false} VlqLocal(bytes: Bytes, start: nat, t: Bytes, at: nat, k: nat, value: nat, max: nat)
    requires Holds(bytes, start, t) && VlqFrom(t, at, k, value, max).Some?
    ensures VlqFrom(bytes, start + at, k, value, max) == Some((VlqFrom(t, at, k, value, max).value.0, start + VlqFrom(t, at, k, value, max).value.1))
    decreases 10 - k
  {
    hide Digit;
    assert bytes[start..start + |t|][at] == t[at];
    if t[at] >= 128 {
      VlqLocal(bytes, start, t, at + 1, k + 1, value + Digit(t[at], k), max);
    }
  }

  /** A whole tree is read as itself wherever it stands. */
  lemma TreeReads(bytes: Bytes, at: nat, t: Bytes)
    requires Holds(bytes, at, t) && IsTree(t)
    ensures FrameTree(bytes, at) == Some(at + |t|)
  {
    hide MinerFeeTree, VlqFrom;
    var s := bytes[at..at + |t|];
    assert s == t && bytes[at] == t[0];
    if (t[0] / 8) % 2 == 1 {
      VlqLocal(bytes, at, t, 1, 0, 0, MAX_U32);
    } else {
      PrefixLocal(bytes, at, t, P2pkPrefix());
      PrefixLocal(bytes, at, t, MinerFeeTree());
      FeePrefix();
      if !StartsWith(t, 0, P2pkPrefix()) {
        assert StartsWith(t, 0, MinerFeeTree());
        assert t[0..|MinerFeeTree()|][0] == MinerFeeTree()[0];
        if StartsWith(bytes, at, P2pkPrefix()) { P2pkFirst(bytes, at); }
      }
    }
  }

  lemma PrefixLocal(bytes: Bytes, at: nat, t: Bytes, prefix: Bytes)
    requires Holds(bytes, at, t)
    ensures StartsWith(t, 0, prefix) ==> StartsWith(bytes, at, prefix)
  {
    if StartsWith(t, 0, prefix) {
      assert bytes[at..at + |t|][..|prefix|] == bytes[at..at + |prefix|];
    }
  }

  lemma FeePrefix()
    ensures |MinerFeeTree()| == 105 && MinerFeeTree()[0] == 0x10
  {
    hide MinerFeeByte;
  }

  lemma P2pkFirst(bytes: Bytes, at: nat)
    requires at < |bytes| && StartsWith(bytes, at, P2pkPrefix())
    ensures bytes[at] == 0
  {
    assert bytes[at..at + 3][0] == bytes[at];
  }

  lemma FeeIsTree()
    ensures IsTree(MinerFeeTree())
  {
    hide MinerFeeTree;
    FeePrefix();
    var t := MinerFeeTree();
    assert t[0..|t|] == t;
    if StartsWith(t, 0, P2pkPrefix()) { P2pkFirst(t, 0); }
  }

  /** The tree that one public key of 33 bytes can spend. */
  function P2pkTree(publicKey: Bytes): Bytes {
    P2pkPrefix() + publicKey
  }

  lemma P2pkIsTree(publicKey: Bytes)
    requires |publicKey| == 33
    ensures IsTree(P2pkTree(publicKey))
  {
    hide MinerFeeTree;
    var t := P2pkTree(publicKey);
    assert t[0..3] == P2pkPrefix();
  }

  // ----- Outputs

  /** One output of a transaction: its registers as serialized constants. */
  datatype Candidate = Candidate(value: nat, tree: Bytes, registers: seq<Bytes>)

  function Concat(parts: seq<Bytes>): Bytes {
    if parts == [] then [] else parts[0] + Concat(parts[1..])
  }

  /** No tokens, and the registers' number as one byte. */
  function Counts(c: Candidate): Bytes {
    [0, |c.registers| % 256]
  }

  function CandidateBytes(c: Candidate, height: nat): Bytes {
    Vlq(c.value) + (c.tree + (Vlq(height) + (Counts(c) + Concat(c.registers))))
  }

  ghost predicate Readable(c: Candidate) {
    && c.value <= MAX_U64 && IsTree(c.tree) && |c.registers| <= 6
    && forall i :: 0 <= i < |c.registers| ==> IsConstant(c.registers[i])
  }

  ghost predicate IsConstant(r: Bytes) {
    exists b: Bytes :: |b| <= MAX_U16 && r == Coll(b)
  }

  lemma {:induction false} RegistersRead(bytes: Bytes, at: nat, registers: seq<Bytes>, done: seq<Bytes>)
    requires Holds(bytes, at, Concat(registers)) && forall i :: 0 <= i < |registers| ==> IsConstant(registers[i])
    ensures FrameRegisters(bytes, at, |registers|, done) == Some((done + registers, at + |Concat(registers)|))
    decreases registers
  {
    hide FrameColl, Coll;
    if registers == [] {
      assert done + registers == done;
    } else {
      var b: Bytes :| |b| <= MAX_U16 && registers[0] == Coll(b);
      HoldsBoth(bytes, at, registers[0], Concat(registers[1..]));
      CollReads(bytes, at, b);
      RegistersRead(bytes, at + |registers[0]|, registers[1..], done + [registers[0]]);
      assert done + [registers[0]] + registers[1..] == done + registers;
    }
  }

  /** Where an output's parts stand. */
  lemma CandidateParts(bytes: Bytes, at: nat, c: Candidate, height: nat) returns (t: nat, h: nat, n: nat)
    requires |c.registers| <= 6 && Holds(bytes, at, CandidateBytes(c, height))
    ensures t == at + |Vlq(c.value)| && h == t + |c.tree| && n == h + |Vlq(height)| && n + 2 <= |bytes|
    ensures Holds(bytes, at, Vlq(c.value)) && Holds(bytes, t, c.tree) && Holds(bytes, h, Vlq(height))
    ensures bytes[n] == 0 && bytes[n + 1] == |c.registers| && Holds(bytes, n + 2, Concat(c.registers))
    ensures n + 2 + |Concat(c.registers)| == at + |CandidateBytes(c, height)| && bytes[t..h] == c.tree
  {
    hide Vlq, Concat;
    var counts, rest := Counts(c), Concat(c.registers);
    HoldsBoth(bytes, at, Vlq(c.value), c.tree + (Vlq(height) + (counts + rest)));
    t := at + |Vlq(c.value)|;
    HoldsBoth(bytes, t, c.tree, Vlq(height) + (counts + rest));
    h := t + |c.tree|;
    HoldsBoth(bytes, h, Vlq(height), counts + rest);
    n := h + |Vlq(height)|;
    HoldsBoth(bytes, n, counts, rest);
    assert counts == [0] + [|c.registers|];
    HoldsBoth(bytes, n, [0], [|c.registers|]);
    HoldsOne(bytes, n, 0);
    HoldsOne(bytes, n + 1, |c.registers|);
  }

  /** An output written is read as its tree and registers. */
  lemma CandidateReads(bytes: Bytes, at: nat, c: Candidate, height: nat)
    requires Readable(c) && height <= MAX_U32 && Holds(bytes, at, CandidateBytes(c, height))
    ensures FrameOutput(bytes, at) == Some((Output(c.tree, c.registers), at + |CandidateBytes(c, height)|))
  {
    hide Vlq, ReadVlq, FrameTree, FrameRegisters, IsTree, IsConstant, Concat, FrameTokens, CandidateBytes, Holds;
    var t, h, n := CandidateParts(bytes, at, c, height);
    VlqReads(bytes, at, c.value, MAX_U64);
    TreeReads(bytes, t, c.tree);
    VlqReads(bytes, h, height, MAX_U32);
    NoTokens(bytes, n + 1);
    assert FrameHead(bytes, at) == Some((c.tree, n + 1));
    RegistersRead(bytes, n + 2, c.registers, []);
    assert [] + c.registers == c.registers;
  }

  lemma NoTokens(bytes: Bytes, at: nat)
    requires at <= |bytes|
    ensures FrameTokens(bytes, at, 0) == Some(at)
  {
  }

  function OutputsBytes(outputs: seq<Candidate>, height: nat): Bytes
  {
    if outputs == [] then [] else CandidateBytes(outputs[0], height) + OutputsBytes(outputs[1..], height)
  }

  /** What the framer sees of outputs. */
  function Views(outputs: seq<Candidate>): (views: seq<Output>)
    ensures |views| == |outputs|
  {
    seq(|outputs|, i requires 0 <= i < |outputs| => Output(outputs[i].tree, outputs[i].registers))
  }

  lemma {:induction false} OutputsRead(bytes: Bytes, at: nat, outputs: seq<Candidate>, height: nat, done: seq<Output>)
    requires (forall c :: c in outputs ==> Readable(c)) && height <= MAX_U32
    requires at <= |bytes| && Holds(bytes, at, OutputsBytes(outputs, height))
    ensures FrameOutputs(bytes, at, |outputs|, done) == Some((done + Views(outputs), at + |OutputsBytes(outputs, height)|))
    decreases outputs
  {
    hide FrameOutput, CandidateBytes, Readable;
    if outputs == [] {
      assert done + Views(outputs) == done;
    } else {
      assert outputs[0] in outputs;
      HoldsBoth(bytes, at, CandidateBytes(outputs[0], height), OutputsBytes(outputs[1..], height));
      CandidateReads(bytes, at, outputs[0], height);
      var view := Output(outputs[0].tree, outputs[0].registers);
      OutputsRead(bytes, at + |CandidateBytes(outputs[0], height)|, outputs[1..], height, done + [view]);
      assert done + [view] + Views(outputs[1..]) == done + Views(outputs);
    }
  }

  // ----- Inputs and the whole

  /** An unsigned input: the box's id, an empty proof and an empty extension. */
  function InputBytes(id: Bytes): Bytes {
    id + [0, 0]
  }

  function InputsBytes(ids: seq<Bytes>): Bytes {
    if ids == [] then [] else InputBytes(ids[0]) + InputsBytes(ids[1..])
  }

  lemma InputReads(bytes: Bytes, at: nat, id: Bytes)
    requires |id| == 32 && Holds(bytes, at, InputBytes(id))
    ensures FrameInput(bytes, at) == Some(at + 34)
  {
    hide ReadVlq;
    assert Vlq(0) == [0];
    HoldsBoth(bytes, at, id, [0, 0]);
    assert [0, 0] == [0] + [0];
    HoldsBoth(bytes, at + 32, [0], [0]);
    HoldsOne(bytes, at + 33, 0);
    VlqReads(bytes, at + 32, 0, MAX_U16);
  }

  lemma {:induction false} InputsRead(bytes: Bytes, at: nat, ids: seq<Bytes>)
    requires (forall id :: id in ids ==> |id| == 32) && at <= |bytes| && Holds(bytes, at, InputsBytes(ids))
    ensures FrameInputs(bytes, at, |ids|) == Some(at + |InputsBytes(ids)|)
    decreases ids
  {
    hide FrameInput, InputBytes;
    if ids != [] {
      assert ids[0] in ids;
      HoldsBoth(bytes, at, InputBytes(ids[0]), InputsBytes(ids[1..]));
      InputReads(bytes, at, ids[0]);
      assert |InputBytes(ids[0])| == 34 by { InputWidth(ids[0]); }
      InputsRead(bytes, at + 34, ids[1..]);
    }
  }

  lemma InputWidth(id: Bytes)
    requires |id| == 32
    ensures |InputBytes(id)| == 34
  {
  }

  /** The rest of a transaction: two empty lists and the outputs. */
  function BodyBytes(outputs: seq<Candidate>, height: nat): Bytes
  {
    [0, 0] + (Vlq(|outputs|) + OutputsBytes(outputs, height))
  }

  function UnsignedBytes(ids: seq<Bytes>, outputs: seq<Candidate>, height: nat): Bytes
  {
    Vlq(|ids|) + (InputsBytes(ids) + BodyBytes(outputs, height))
  }

  /** Where a transaction's parts stand. */
  lemma UnsignedParts(ids: seq<Bytes>, outputs: seq<Candidate>, height: nat) returns (i: nat, b: nat, o: nat)
    ensures var bytes := UnsignedBytes(ids, outputs, height);
      && i == |Vlq(|ids|)| && b == i + |InputsBytes(ids)| && o == b + 2 + |Vlq(|outputs|)| && |bytes| == o + |OutputsBytes(outputs, height)|
      && Holds(bytes, 0, Vlq(|ids|)) && Holds(bytes, i, InputsBytes(ids)) && Holds(bytes, b, Vlq(0)) && Holds(bytes, b + 1, Vlq(0))
      && Holds(bytes, b + 2, Vlq(|outputs|)) && Holds(bytes, o, OutputsBytes(outputs, height))
  {
    hide Vlq, InputsBytes, OutputsBytes;
    var bytes, body := UnsignedBytes(ids, outputs, height), BodyBytes(outputs, height);
    assert Holds(bytes, 0, bytes) by { assert bytes[0..|bytes|] == bytes; }
    HoldsBoth(bytes, 0, Vlq(|ids|), InputsBytes(ids) + body);
    i := |Vlq(|ids|)|;
    HoldsBoth(bytes, i, InputsBytes(ids), body);
    b := i + |InputsBytes(ids)|;
    HoldsBoth(bytes, b, [0, 0], Vlq(|outputs|) + OutputsBytes(outputs, height));
    VlqZero();
    assert [0, 0] == Vlq(0) + Vlq(0);
    HoldsBoth(bytes, b, Vlq(0), Vlq(0));
    HoldsBoth(bytes, b + 2, Vlq(|outputs|), OutputsBytes(outputs, height));
    o := b + 2 + |Vlq(|outputs|)|;
  }

  /** Writing then reading: a transaction of readable outputs frames to exactly those. */
  lemma UnsignedReads(ids: seq<Bytes>, outputs: seq<Candidate>, height: nat)
    requires (forall id :: id in ids ==> |id| == 32) && (forall c :: c in outputs ==> Readable(c))
    requires height <= MAX_U32 && |ids| <= MAX_U16 && |outputs| <= MAX_U16
    ensures Frame(UnsignedBytes(ids, outputs, height)) == Some(Views(outputs))
  {
    hide Vlq, ReadVlq, FrameInputs, FrameOutputs, InputsBytes, OutputsBytes, Readable, UnsignedBytes, Holds, FrameIds;
    var bytes := UnsignedBytes(ids, outputs, height);
    var i, b, o := UnsignedParts(ids, outputs, height);
    VlqZero();
    VlqReads(bytes, 0, |ids|, MAX_U16);
    HoldsWithin(bytes, i, InputsBytes(ids));
    InputsRead(bytes, i, ids);
    NoIds(bytes, b, MAX_U16);
    NoIds(bytes, b + 1, MAX_U32);
    VlqReads(bytes, b + 2, |outputs|, MAX_U16);
    OutputsRead(bytes, o, outputs, height, []);
    assert [] + Views(outputs) == Views(outputs);
  }

  lemma HoldsWithin(bytes: Bytes, at: nat, x: Bytes)
    requires Holds(bytes, at, x)
    ensures at + |x| <= |bytes|
  {
  }

  lemma NoIds(bytes: Bytes, at: nat, max: nat)
    requires Holds(bytes, at, Vlq(0))
    ensures FrameIds(bytes, at, max) == Some(at + 1)
  {
    hide Vlq, ReadVlq, Holds;
    VlqZero();
    VlqReads(bytes, at, 0, max);
  }

  lemma VlqZero()
    ensures Vlq(0) == [0]
  {
  }
}
