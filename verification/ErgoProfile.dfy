/**
 The framing of one unsigned transaction by a cursor. What it accepts is a grammar over byte strings,
 written beside it as functions; it gives the outputs' trees and registers, of which those that a
 publication could have made are picked out, and the objects a profile makes of them.
 */
module ErgoProfile {
  import opened Wrappers
  import opened ErgoScan

  const MAX_U16: nat := 0xffff
  const MAX_U32: nat := 0xffff_ffff
  const MAX_U64: nat := 0xffff_ffff_ffff_ffff
  const COLL_BYTE_TYPE: Byte := 0x0e
  const MAX_EXTENSION: nat := 127
  const P2PK_BYTES: nat := 36

  function P2pkPrefix(): seq<Byte> {
    [0x00, 0x08, 0xcd]
  }

  /** The bytes of Ergo's miner-fee proposition after its header, read as one big-endian integer. */
  const MINER_FEE_REST: nat :=
    0x05040004000e36100204a00b08cd0279be667ef9dcbbac55a06295ce870b07029bfcdb2dce28d959f2815b16f81798ea02d192a39a8cc7a701730073011001020402d19683030193a38cc7b2a57300000193c2b2a57301007473027303830108cdeeac93b1a57304

  function Pow256(k: nat): (p: nat)
    ensures p > 0
  {
    if k == 0 then 1 else 256 * Pow256(k - 1)
  }

  function MinerFeeByte(i: nat): Byte
    requires i < 104
  {
    (MINER_FEE_REST / Pow256(103 - i)) % 256
  }

  /** Ergo's miner-fee proposition, one of the two unsized trees the framer reads. */
  function MinerFeeTree(): seq<Byte> {
    [0x10] + seq(104, i requires 0 <= i < 104 => MinerFeeByte(i))
  }

  function Pow128(k: nat): (p: nat)
    ensures p > 0
  {
    if k == 0 then 1 else 128 * Pow128(k - 1)
  }

  /** What the `k`-th byte of a VLQ adds to its value. */
  function Digit(b: Byte, k: nat): nat {
    (b % 128) * Pow128(k)
  }

  // ----- the grammar -----

  /** The bytes after position `at` of a VLQ whose first `k` bytes gave `value`: at most ten bytes, minimal, no larger than `max`. */
  function VlqFrom(bytes: seq<Byte>, at: nat, k: nat, value: nat, max: nat): (r: Option<(nat, nat)>)
    ensures r.Some? ==> r.value.0 <= max && at < r.value.1 <= |bytes|
    decreases 10 - k
  {
    if k >= 10 || at >= |bytes| then None
    else
      var b := bytes[at];
      var sum := value + Digit(b, k);
      if b >= 128 then VlqFrom(bytes, at + 1, k + 1, sum, max)
      else if (b == 0 && k > 0) || sum > max then None
      else Some((sum, at + 1))
  }

  function ReadVlq(bytes: seq<Byte>, at: nat, max: nat): (r: Option<(nat, nat)>)
    ensures r.Some? ==> r.value.0 <= max && at < r.value.1 <= |bytes|
  {
    VlqFrom(bytes, at, 0, 0, max)
  }

  function Skip(bytes: seq<Byte>, at: nat, count: nat): Option<nat>
    requires at <= |bytes|
  {
    if count > |bytes| - at then None else Some(at + count)
  }

  predicate StartsWith(bytes: seq<Byte>, at: nat, prefix: seq<Byte>)
    requires at <= |bytes|
  {
    |prefix| <= |bytes| - at && bytes[at..at + |prefix|] == prefix
  }

  /** Where a `Coll[Byte]` constant in place ends. */
  function FrameColl(bytes: seq<Byte>, at: nat): (r: Option<nat>)
    requires at <= |bytes|
    ensures r.Some? ==> at < r.value <= |bytes|
  {
    if at >= |bytes| || bytes[at] != COLL_BYTE_TYPE then None
    else
      var length := ReadVlq(bytes, at + 1, MAX_U16);
      if length.None? then None else Skip(bytes, length.value.1, length.value.0)
  }

  /** Where an ErgoTree ends: a sized tree, or exactly one of the two unsized ones. */
  function FrameTree(bytes: seq<Byte>, at: nat): (r: Option<nat>)
    requires at <= |bytes|
    ensures r.Some? ==> at < r.value <= |bytes|
  {
    if at >= |bytes| || bytes[at] >= 32 then None
    else if (bytes[at] / 8) % 2 == 1 then
      var size := ReadVlq(bytes, at + 1, MAX_U32);
      if size.None? then None else Skip(bytes, size.value.1, size.value.0)
    else if StartsWith(bytes, at, P2pkPrefix()) && P2PK_BYTES <= |bytes| - at then Some(at + P2PK_BYTES)
    else if StartsWith(bytes, at, MinerFeeTree()) then Some(at + |MinerFeeTree()|)
    else None
  }

  function FrameEntries(bytes: seq<Byte>, at: nat, n: nat): (r: Option<nat>)
    requires at <= |bytes|
    ensures r.Some? ==> at <= r.value <= |bytes|
    decreases n
  {
    if n == 0 then Some(at)
    else if at >= |bytes| then None
    else
      var next := FrameColl(bytes, at + 1);
      if next.None? then None else FrameEntries(bytes, next.value, n - 1)
  }

  /** One input: a box id, an empty proof and an extension of `Coll[Byte]` entries. */
  function FrameInput(bytes: seq<Byte>, at: nat): (r: Option<nat>)
    requires at <= |bytes|
    ensures r.Some? ==> at < r.value <= |bytes|
  {
    var box := Skip(bytes, at, 32);
    if box.None? then None
    else
      var proof := ReadVlq(bytes, box.value, MAX_U16);
      if proof.None? || proof.value.0 != 0 || proof.value.1 >= |bytes| || bytes[proof.value.1] > MAX_EXTENSION then None
      else FrameEntries(bytes, proof.value.1 + 1, bytes[proof.value.1])
  }

  function FrameInputs(bytes: seq<Byte>, at: nat, n: nat): (r: Option<nat>)
    requires at <= |bytes|
    ensures r.Some? ==> at <= r.value <= |bytes|
    decreases n
  {
    if n == 0 then Some(at)
    else
      var next := FrameInput(bytes, at);
      if next.None? then None else FrameInputs(bytes, next.value, n - 1)
  }

  /** A counted list of 32-byte ids. */
  function FrameIds(bytes: seq<Byte>, at: nat, max: nat): (r: Option<nat>)
    ensures r.Some? ==> at < r.value <= |bytes|
  {
    var count := ReadVlq(bytes, at, max);
    if count.None? then None else Skip(bytes, count.value.1, 32 * count.value.0)
  }

  function FrameTokens(bytes: seq<Byte>, at: nat, n: nat): (r: Option<nat>)
    requires at <= |bytes|
    ensures r.Some? ==> at <= r.value <= |bytes|
    decreases n
  {
    if n == 0 then Some(at)
    else
      var index := ReadVlq(bytes, at, MAX_U32);
      if index.None? then None
      else
        var amount := ReadVlq(bytes, index.value.1, MAX_U64);
        if amount.None? then None else FrameTokens(bytes, amount.value.1, n - 1)
  }

  function FrameRegisters(bytes: seq<Byte>, at: nat, n: nat, done: seq<seq<Byte>>): (r: Option<(seq<seq<Byte>>, nat)>)
    requires at <= |bytes|
    ensures r.Some? ==> at <= r.value.1 <= |bytes| && |r.value.0| == |done| + n
    decreases n
  {
    if n == 0 then Some((done, at))
    else
      var next := FrameColl(bytes, at);
      if next.None? then None else FrameRegisters(bytes, next.value, n - 1, done + [bytes[at..next.value]])
  }

  /** An output as the framer reads it: its tree and its registers' constants, R4 first. */
  datatype Output = Output(tree: seq<Byte>, registers: seq<seq<Byte>>)

  /** Where an output's value, tree, height and tokens end, and its tree. */
  function FrameHead(bytes: seq<Byte>, at: nat): (r: Option<(seq<Byte>, nat)>)
    requires at <= |bytes|
    ensures r.Some? ==> at < r.value.1 <= |bytes|
  {
    var value := ReadVlq(bytes, at, MAX_U64);
    if value.None? then None
    else
      var tree := FrameTree(bytes, value.value.1);
      if tree.None? then None
      else
        var height := ReadVlq(bytes, tree.value, MAX_U32);
        if height.None? || height.value.1 >= |bytes| then None
        else
          var tokens := FrameTokens(bytes, height.value.1 + 1, bytes[height.value.1]);
          if tokens.None? then None else Some((bytes[value.value.1..tree.value], tokens.value))
  }

  function FrameOutput(bytes: seq<Byte>, at: nat): (r: Option<(Output, nat)>)
    requires at <= |bytes|
    ensures r.Some? ==> at < r.value.1 <= |bytes|
  {
    var head := FrameHead(bytes, at);
    if head.None? || head.value.1 >= |bytes| || bytes[head.value.1] > 6 then None
    else
      var registers := FrameRegisters(bytes, head.value.1 + 1, bytes[head.value.1], []);
      if registers.None? then None else Some((Output(head.value.0, registers.value.0), registers.value.1))
  }

  function FrameOutputs(bytes: seq<Byte>, at: nat, n: nat, done: seq<Output>): (r: Option<(seq<Output>, nat)>)
    requires at <= |bytes|
    ensures r.Some? ==> at <= r.value.1 <= |bytes| && |r.value.0| == |done| + n
    decreases n
  {
    if n == 0 then Some((done, at))
    else
      var next := FrameOutput(bytes, at);
      if next.None? then None else FrameOutputs(bytes, next.value.1, n - 1, done + [next.value.0])
  }

  /** A transaction's outputs, or nothing where its bytes leave the grammar. */
  function Frame(bytes: seq<Byte>): Option<seq<Output>> {
    var inputs := ReadVlq(bytes, 0, MAX_U16);
    if inputs.None? then None
    else
      var spent := FrameInputs(bytes, inputs.value.1, inputs.value.0);
      if spent.None? then None
      else
        var dataInputs := FrameIds(bytes, spent.value, MAX_U16);
        if dataInputs.None? then None
        else
          var tokenIds := FrameIds(bytes, dataInputs.value, MAX_U32);
          if tokenIds.None? then None
          else
            var count := ReadVlq(bytes, tokenIds.value, MAX_U16);
            if count.None? then None
            else
              var outputs := FrameOutputs(bytes, count.value.1, count.value.0, []);
              if outputs.Some? && outputs.value.1 == |bytes| then Some(outputs.value.0) else None
  }

  // ----- constants and the shape -----

  /** The length and the end of a constant's VLQ: at most five bytes, minimal. */
  function LengthFrom(constant: seq<Byte>, at: nat, k: nat, length: nat): (r: Option<(nat, nat)>)
    ensures r.Some? ==> at < r.value.1 <= |constant|
    decreases 5 - k
  {
    if k > 4 || at >= |constant| then None
    else
      var b := constant[at];
      var sum := length + Digit(b, k);
      if b >= 128 then LengthFrom(constant, at + 1, k + 1, sum)
      else if b == 0 && k > 0 then None
      else Some((sum, at + 1))
  }

  /** The bytes of a `Coll[Byte]` constant ending exactly. */
  function CollBytes(constant: seq<Byte>): Option<seq<Byte>> {
    if |constant| < 2 || constant[0] != COLL_BYTE_TYPE then None
    else
      var length := LengthFrom(constant, 1, 0, 0);
      if length.None? || |constant| - length.value.1 != length.value.0 then None else Some(constant[length.value.1..])
  }

  /** An output's subject and its bytes, where the first register is a subject's constant and the second any. */
  function ShapeOf(output: Output): Option<(seq<Byte>, seq<Byte>)> {
    if |output.registers| < 2 then None
    else
      var subject, piece := CollBytes(output.registers[0]), CollBytes(output.registers[1]);
      if subject.None? || |subject.value| != 32 || piece.None? then None else Some((subject.value, piece.value))
  }

  function ShapedIn(outputs: seq<Output>): seq<Shaped> {
    if outputs == [] then []
    else
      var last := |outputs| - 1;
      var shape := ShapeOf(outputs[last]);
      ShapedIn(outputs[..last]) + (if shape.Some? then [Shaped(last, shape.value.0)] else [])
  }

  // ----- the cursor -----

  class Cursor {
    const bytes: seq<Byte>
    var at: nat

    ghost predicate Valid()
      reads this
    {
      at <= |bytes|
    }

    constructor (bytes: seq<Byte>)
      ensures Valid() && at == 0 && this.bytes == bytes
    {
      this.bytes := bytes;
      at := 0;
    }

    method ReadByte() returns (b: Option<Byte>)
      requires Valid()
      modifies this`at
      ensures Valid()
      ensures if old(at) < |bytes| then b == Some(bytes[old(at)]) && at == old(at) + 1 else b.None? && at == old(at)
    {
      if at == |bytes| { return None; }
      b := Some(bytes[at]);
      at := at + 1;
    }

    method Vlq(max: nat) returns (v: Option<nat>)
      requires Valid()
      modifies this`at
      ensures Valid()
      ensures ReadVlq(bytes, old(at), max) == if v.Some? then Some((v.value, at)) else None
    {
      hide Digit;
      var value: nat, k: nat := 0, 0;
      while k < 10
        invariant k <= 10 && Valid()
        invariant ReadVlq(bytes, old(at), max) == VlqFrom(bytes, at, k, value, max)
        decreases 10 - k
      {
        var b := ReadByte();
        if b.None? { return None; }
        value := value + Digit(b.value, k);
        if b.value < 128 {
          return if (b.value == 0 && k > 0) || value > max then None else Some(value);
        }
        k := k + 1;
      }
      return None;
    }

    method SkipBytes(count: nat) returns (ok: bool)
      requires Valid()
      modifies this`at
      ensures Valid()
      ensures Skip(bytes, old(at), count) == if ok then Some(at) else None
      ensures !ok ==> at == old(at)
    {
      if count > |bytes| - at { return false; }
      at := at + count;
      return true;
    }

    method Begins(prefix: seq<Byte>) returns (yes: bool)
      requires Valid()
      ensures yes == StartsWith(bytes, at, prefix)
    {
      if |prefix| > |bytes| - at { return false; }
      for i := 0 to |prefix|
        invariant bytes[at..at + i] == prefix[..i]
      {
        if bytes[at + i] != prefix[i] {
          assert bytes[at..at + |prefix|][i] == bytes[at + i];
          return false;
        }
        assert bytes[at..at + i + 1] == bytes[at..at + i] + [bytes[at + i]];
      }
      assert prefix[..|prefix|] == prefix;
      return true;
    }

    method Coll() returns (constant: Option<seq<Byte>>)
      requires Valid()
      modifies this`at
      ensures Valid()
      ensures FrameColl(bytes, old(at)) == if constant.Some? then Some(at) else None
      ensures constant.Some? ==> old(at) <= at && constant.value == bytes[old(at)..at]
    {
      var start := at;
      var code := ReadByte();
      if code != Some(COLL_BYTE_TYPE) { return None; }
      var length := Vlq(MAX_U16);
      if length.None? { return None; }
      var ok := SkipBytes(length.value);
      if !ok { return None; }
      return Some(bytes[start..at]);
    }

    method Tree() returns (tree: Option<seq<Byte>>)
      requires Valid()
      modifies this`at
      ensures Valid()
      ensures FrameTree(bytes, old(at)) == if tree.Some? then Some(at) else None
      ensures tree.Some? ==> old(at) <= at && tree.value == bytes[old(at)..at]
    {
      hide MinerFeeTree;
      var start := at;
      var header := ReadByte();
      if header.None? || header.value >= 32 { return None; }
      if (header.value / 8) % 2 == 1 {
        var size := Vlq(MAX_U32);
        if size.None? { return None; }
        var ok := SkipBytes(size.value);
        if !ok { return None; }
      } else {
        at := start;
        var p2pk := Begins(P2pkPrefix());
        if p2pk {
          var ok := SkipBytes(P2PK_BYTES);
          if ok { return Some(bytes[start..at]); }
        }
        var fee := Begins(MinerFeeTree());
        if !fee { return None; }
        at := at + |MinerFeeTree()|;
      }
      return Some(bytes[start..at]);
    }

    /** One input past the cursor. */
    method Input() returns (ok: bool)
      requires Valid()
      modifies this`at
      ensures Valid()
      ensures FrameInput(bytes, old(at)) == if ok then Some(at) else None
    {
      hide ReadVlq;
      hide FrameColl;
      var box := SkipBytes(32);
      if !box { return false; }
      var proof := Vlq(MAX_U16);
      if proof != Some(0) { return false; }
      var entries := ReadByte();
      if entries.None? || entries.value > MAX_EXTENSION { return false; }
      for e := 0 to entries.value
        invariant Valid() && FrameInput(bytes, old(at)) == FrameEntries(bytes, at, entries.value - e)
      {
        var key := ReadByte();
        if key.None? { return false; }
        var value := Coll();
        if value.None? { return false; }
      }
      return true;
    }

    /** One output past the cursor. */
    method NextOutput() returns (output: Option<Output>)
      requires Valid()
      modifies this`at
      ensures Valid()
      ensures FrameOutput(bytes, old(at)) == if output.Some? then Some((output.value, at)) else None
    {
      hide FrameTree;
      hide ReadVlq;
      hide FrameColl;
      var value := Vlq(MAX_U64);
      if value.None? { return None; }
      var tree := Tree();
      if tree.None? { return None; }
      var height := Vlq(MAX_U32);
      if height.None? { return None; }
      var tokens := ReadByte();
      if tokens.None? { return None; }
      for t := 0 to tokens.value
        invariant Valid()
        invariant FrameHead(bytes, old(at)) ==
                  var end := FrameTokens(bytes, at, tokens.value - t);
                  if end.None? then None else Some((tree.value, end.value))
      {
        var index := Vlq(MAX_U32);
        if index.None? { return None; }
        var amount := Vlq(MAX_U64);
        if amount.None? { return None; }
      }
      assert FrameHead(bytes, old(at)) == Some((tree.value, at));
      var count := ReadByte();
      if count.None? || count.value > 6 { return None; }
      ghost var first := at;
      var registers: seq<seq<Byte>> := [];
      for r := 0 to count.value
        invariant Valid() && FrameRegisters(bytes, first, count.value, []) == FrameRegisters(bytes, at, count.value - r, registers)
      {
        var constant := Coll();
        if constant.None? { return None; }
        registers := registers + [constant.value];
      }
      return Some(Output(tree.value, registers));
    }
  }

  /** The framer: one pass of the cursor. */
  method FrameTransaction(unsigned: seq<Byte>) returns (outputs: Option<seq<Output>>)
    ensures outputs == Frame(unsigned)
  {
    hide FrameInput;
    hide FrameOutput;
    hide ReadVlq;
    var cursor := new Cursor(unsigned);
    var inputs := cursor.Vlq(MAX_U16);
    if inputs.None? { return None; }
    ghost var first := cursor.at;
    for i := 0 to inputs.value
      invariant fresh(cursor) && cursor.Valid()
      invariant FrameInputs(unsigned, first, inputs.value) == FrameInputs(unsigned, cursor.at, inputs.value - i)
    {
      var ok := cursor.Input();
      if !ok { return None; }
    }
    var dataInputs := cursor.Vlq(MAX_U16);
    if dataInputs.None? { return None; }
    var skipped := cursor.SkipBytes(32 * dataInputs.value);
    if !skipped { return None; }
    var tokenIds := cursor.Vlq(MAX_U32);
    if tokenIds.None? { return None; }
    skipped := cursor.SkipBytes(32 * tokenIds.value);
    if !skipped { return None; }
    var count := cursor.Vlq(MAX_U16);
    if count.None? { return None; }
    ghost var body := cursor.at;
    var read: seq<Output> := [];
    for o := 0 to count.value
      invariant fresh(cursor) && cursor.Valid()
      invariant FrameOutputs(unsigned, body, count.value, []) == FrameOutputs(unsigned, cursor.at, count.value - o, read)
    {
      var next := cursor.NextOutput();
      if next.None? { return None; }
      read := read + [next.value];
    }
    return if cursor.at == |unsigned| then Some(read) else None;
  }

  /** The framed outputs with the shape, their indices and subjects in output order. */
  method ShapedOutputs(unsigned: seq<Byte>) returns (found: Option<seq<Shaped>>)
    ensures Frame(unsigned).None? ==> found.None?
    ensures Frame(unsigned).Some? ==> found == Some(ShapedIn(Frame(unsigned).value))
  {
    var outputs := FrameTransaction(unsigned);
    if outputs.None? { return None; }
    var read, shaped: seq<Shaped> := outputs.value, [];
    for o := 0 to |read|
      invariant shaped == ShapedIn(read[..o])
    {
      assert read[..o + 1][..o] == read[..o];
      var shape := ShapeOf(read[o]);
      if shape.Some? { shaped := shaped + [Shaped(o, shape.value.0)]; }
    }
    assert read[..|read|] == read;
    return Some(shaped);
  }
}
