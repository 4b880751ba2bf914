/**
 The limbs a scan emits are the subject's: in every state the machine reaches, over any bytes, an
 output with the shape carries two limbs below 2^128, so writing them as bytes loses nothing.
 */
module ScanLimbs {
  import opened ErgoScan
  import opened ErgoProfile
  import opened ScanAgreement
  import opened ScanSpacing

  const LIMB: nat := 0x1_0000_0000_0000_0000_0000_0000_0000_0000

  /** What an output with the shape is emitted with: its limbs as registers, and its index. */
  datatype Raw = Raw(hi: nat, lo: nat, output: nat)

  predicate Small(s: ScanState) {
    s.hi < LIMB && s.lo < LIMB
  }

  /** A limb being read holds what its bytes so far make; nothing is marked until both are read. */
  predicate LimbsOk(s: ScanState) {
    match s.mode
    case R4_CT | R4_CLEN | R4_BODY => s.sh == 0
    case R4_HI => s.sh == 0 && 1 <= s.r <= 16 && s.hi < Pow256(16 - s.r)
    case R4_LO => s.sh == 0 && 1 <= s.r <= 16 && s.hi < LIMB && s.lo < Pow256(16 - s.r)
    case _ => s.sh != 0 ==> Small(s)
  }

  lemma Appends(x: Field, r: Field, b: Byte)
    requires 1 <= r <= 16 && x < Pow256(16 - r)
    ensures 256 * x + b < Pow256(17 - r) && (r >= 2 ==> 17 - r == 16 - (r - 1)) && Pow256(17 - r) <= LIMB < P
    ensures Moved(x, APPEND, b) == 256 * x + b
  {
    Pow256Of16();
    assert Pow256(17 - r) == 256 * Pow256(16 - r);
    Pow256Rises(17 - r, 16);
  }

  lemma {:induction false} Pow256Rises(a: nat, b: nat)
    requires a <= b
    ensures Pow256(a) <= Pow256(b)
    decreases b
  {
    if a < b {
      Pow256Rises(a, b - 1);
    }
  }

  predicate LimbMode(m: Mode) {
    m.R4_CT? || m.R4_CLEN? || m.R4_BODY? || m.R4_HI? || m.R4_LO?
  }

  /** Outside the subject's modes no action touches a limb, sets the mark from nothing or enters them
      past their count. */
  lemma PlainAction(s: ScanState, b: Byte)
    requires !SubjectMode(s.mode)
    ensures var x := ActAt(s, b); x.hi.KEEP? && x.lo.KEEP? && (x.sh.KEEP? || x.sh.DOUBLE?) && !LimbMode(x.next)
  {
    hide Transition, ValueAt;
    var cls, e := ByteClass(GroupOf(s.mode), b), TestsAt(s, b);
    if !Plain(s.mode, cls) { StopOrContinue(s.mode, cls, e); }
    else if InputMode(s.mode) { InputTransition(s.mode, cls, e); }
    else if ListMode(s.mode) { ListTransition(s.mode, cls, e); }
    else if OutputMode(s.mode) { OutputTransition(s.mode, cls, e); }
    else { TailTransition(s.mode, cls, e); }
  }

  lemma PlainStepKeeps(s: ScanState, b: Byte)
    requires LimbsOk(s) && !SubjectMode(s.mode)
    ensures LimbsOk(Step(s, b))
  {
    hide ActAt, ValueAt, Pow256;
    PlainAction(s, b);
  }

  /** The subject's modes but those that read a limb. */
  lemma CountStepKeeps(s: ScanState, b: Byte)
    requires LimbsOk(s) && SubjectMode(s.mode) && !s.mode.R4_HI? && !s.mode.R4_LO?
    ensures LimbsOk(Step(s, b))
  {
    hide Transition, ValueAt;
    assert Pow256(0) == 1;
    var cls, e := ByteClass(GroupOf(s.mode), b), TestsAt(s, b);
    if !Plain(s.mode, cls) { StopOrContinue(s.mode, cls, e); } else { SubjectTransition(s.mode, cls, e); }
  }

  lemma LimbAction(s: ScanState, b: Byte)
    requires s.mode.R4_HI? || s.mode.R4_LO?
    ensures ActAt(s, b) == SubjectRule(s.mode, 0, TestsAt(s, b))
  {
    hide Transition, ValueAt, SubjectRule;
    assert ByteClass(GroupOf(s.mode), b) == 0;
    SubjectTransition(s.mode, 0, TestsAt(s, b));
  }

  lemma HighStepKeeps(s: ScanState, b: Byte)
    requires LimbsOk(s) && s.mode.R4_HI?
    ensures LimbsOk(Step(s, b))
  {
    hide ActAt, ValueAt, Pow256;
    assert Pow256(0) == 1 by { PowerZero(); }
    LimbAction(s, b);
    Appends(s.hi, s.r, b);
    if s.r == 1 { Pow256Of16(); }
  }

  lemma LowStepKeeps(s: ScanState, b: Byte)
    requires LimbsOk(s) && s.mode.R4_LO?
    ensures LimbsOk(Step(s, b))
  {
    hide ActAt, ValueAt, Pow256;
    LimbAction(s, b);
    Appends(s.lo, s.r, b);
    if s.r == 1 { Pow256Of16(); }
  }

  lemma PowerZero()
    ensures Pow256(0) == 1
  {
  }

  lemma StepKeepsLimbs(s: ScanState, b: Byte)
    requires LimbsOk(s)
    ensures LimbsOk(Step(s, b))
    ensures Ends(s, b) ==> Small(Step(s, b))
  {
    hide LimbsOk;
    if s.mode.R4_HI? { HighStepKeeps(s, b); }
    else if s.mode.R4_LO? { LowStepKeeps(s, b); }
    else if SubjectMode(s.mode) { CountStepKeeps(s, b); }
    else { PlainStepKeeps(s, b); }
    if Ends(s, b) {
      EndMode(s, b);
      EndSmall(Step(s, b));
    }
  }

  lemma EndSmall(s: ScanState)
    requires LimbsOk(s) && s.sh == 2 && (s.mode.END? || s.mode.V_VALUE?)
    ensures Small(s)
  {
  }

  lemma EndMode(s: ScanState, b: Byte)
    requires Ends(s, b)
    ensures Step(s, b).mode.END? || Step(s, b).mode.V_VALUE?
  {
    hide Transition, ValueAt, Moved;
    var cls, e := ByteClass(GroupOf(s.mode), b), TestsAt(s, b);
    if !Plain(s.mode, cls) { StopOrContinue(s.mode, cls, e); }
    else if InputMode(s.mode) { InputTransition(s.mode, cls, e); }
    else if ListMode(s.mode) { ListTransition(s.mode, cls, e); }
    else if OutputMode(s.mode) { OutputTransition(s.mode, cls, e); }
    else if SubjectMode(s.mode) { SubjectTransition(s.mode, cls, e); }
    else { TailTransition(s.mode, cls, e); }
  }

  // ----- What is emitted

  /** The outputs with the shape over the bytes `[from, end)`, as the circuits carry them. */
  function Raws(s: ScanState, bytes: seq<Byte>, from: nat, end: nat): seq<Raw>
    requires from <= end <= |bytes|
    decreases end
  {
    if from == end then []
    else
      var before := Feed(Scan(s, []), bytes, from, end - 1).state;
      var b := bytes[end - 1];
      Raws(s, bytes, from, end - 1) + if Ends(before, b) then [Raw(Step(before, b).hi, Step(before, b).lo, before.outputs)] else []
  }

  function Shape(raw: Raw): Shaped {
    Shaped(raw.output, LimbBytes(raw.hi, 16) + LimbBytes(raw.lo, 16))
  }

  function Shapes(raws: seq<Raw>): (found: seq<Shaped>)
    ensures |found| == |raws|
  {
    seq(|raws|, i requires 0 <= i < |raws| => Shape(raws[i]))
  }

  /** A scan's state does not depend on what it has found. */
  lemma {:induction false} FoundApart(sc: Scan, bytes: seq<Byte>, from: nat, end: nat)
    requires from <= end <= |bytes|
    ensures Feed(sc, bytes, from, end).state == Feed(Scan(sc.state, []), bytes, from, end).state
    ensures Feed(sc, bytes, from, end).found == sc.found + Feed(Scan(sc.state, []), bytes, from, end).found
    decreases end
  {
    hide Step, Found;
    if from < end {
      FoundApart(sc, bytes, from, end - 1);
    }
  }

  /** From a reachable state every emitted output's bytes are what the scan finds, and its limbs are
      those bytes' own. */
  lemma {:induction false} RawsAreFound(s: ScanState, bytes: seq<Byte>, from: nat, end: nat)
    requires from <= end <= |bytes| && LimbsOk(s)
    ensures LimbsOk(Feed(Scan(s, []), bytes, from, end).state)
    ensures Feed(Scan(s, []), bytes, from, end).found == Shapes(Raws(s, bytes, from, end))
    ensures forall raw :: raw in Raws(s, bytes, from, end) ==> raw.hi < LIMB && raw.lo < LIMB
    decreases end
  {
    hide Step, Ends, LimbsOk, LimbBytes;
    if from < end {
      RawsAreFound(s, bytes, from, end - 1);
      StepKeepsLimbs(Feed(Scan(s, []), bytes, from, end - 1).state, bytes[end - 1]);
    }
  }

  lemma {:induction false} RawsSplit(s: ScanState, bytes: seq<Byte>, from: nat, mid: nat, end: nat)
    requires from <= mid <= end <= |bytes|
    ensures Raws(s, bytes, from, end) == Raws(s, bytes, from, mid) + Raws(Feed(Scan(s, []), bytes, from, mid).state, bytes, mid, end)
    decreases end
  {
    hide Step, Ends;
    if mid < end {
      RawsSplit(s, bytes, from, mid, end - 1);
      FeedSplit(Scan(s, []), bytes, from, mid, end - 1);
      FoundApart(Feed(Scan(s, []), bytes, from, mid), bytes, mid, end - 1);
    }
  }

  lemma StartsOk()
    ensures LimbsOk(START)
  {
  }

  /** Bytes written from a limb below 2^128 read back as it. */
  lemma {:induction false} LimbReadsBack(limb: nat, n: nat)
    requires limb < Pow256(n)
    ensures BigEndian(LimbBytes(limb, n)) == limb
  {
    if n > 0 {
      var out := LimbBytes(limb / 256, n - 1) + [limb % 256];
      assert out[..|out| - 1] == LimbBytes(limb / 256, n - 1);
      LimbReadsBack(limb / 256, n - 1);
    }
  }

  /** The subject's two halves are the emitted limbs. */
  lemma ShapeLimbs(raw: Raw)
    requires raw.hi < LIMB && raw.lo < LIMB
    ensures |Shape(raw).subject| == 32
    ensures BigEndian(Shape(raw).subject[..16]) == raw.hi && BigEndian(Shape(raw).subject[16..]) == raw.lo
  {
    Pow256Of16();
    LimbReadsBack(raw.hi, 16);
    LimbReadsBack(raw.lo, 16);
    assert Shape(raw).subject[..16] == LimbBytes(raw.hi, 16) && Shape(raw).subject[16..] == LimbBytes(raw.lo, 16);
  }
}
