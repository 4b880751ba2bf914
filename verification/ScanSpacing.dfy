/**
 How close two shaped ends can come: from any state the machine can be in, however it got there,
 42 bytes part them, so a slot of 128 bytes never ends more than four shaped outputs.
 */
module ScanSpacing {
  import opened ErgoScan

  const SLOT: nat := 128
  const LIST_PER_SLOT: nat := 4
  const SPACING: nat := 42

  function BytesLeft(r: Field): nat {
    if r == 0 then P else r
  }

  /** A lower bound on the bytes through the next shaped end. */
  function Distance(s: ScanState): nat {
    match s.mode
    case TREE => 41
    case V_TSIZE | S_TBODY | PAT_P2PK | PAT_FEE => 40
    case V_HEIGHT | V_TIDX => 39
    case TOKCNT | V_TAMT => 38
    case REGCNT => 37
    case R4_CT => if s.sh == 0 then 36 else 1
    case R4_CLEN => if s.sh == 0 then 35 else 1
    case R4_HI => BytesLeft(s.r) + 18
    case R4_LO => BytesLeft(s.r) + 2
    case R5_CT => if s.sh == 0 then SPACING else 2
    case R4_BODY | R5_CLEN | R5_BODY | RX_CT | RX_CLEN | RX_BODY => if s.sh == 0 then SPACING else 1
    case _ => SPACING
  }

  ghost predicate Nears(s: ScanState, b: Byte) {
    Distance(Step(s, b)) + 1 >= Distance(s) &&
    (Ends(s, b) ==> Distance(s) <= 1 && Distance(Step(s, b)) >= SPACING)
  }

  lemma FarStep(s: ScanState, b: Byte)
    requires InputMode(s.mode) || ListMode(s.mode)
    ensures Nears(s, b)
  {
    hide Transition;
    hide ValueAt;
    hide Moved;
    var cls := ByteClass(GroupOf(s.mode), b);
    if !Plain(s.mode, cls) { StopOrContinue(s.mode, cls, TestsAt(s, b)); }
    else if InputMode(s.mode) { InputTransition(s.mode, cls, TestsAt(s, b)); }
    else { ListTransition(s.mode, cls, TestsAt(s, b)); }
  }

  /** A continuing VLQ byte keeps its mode and a byte the mode cannot take stops the scan. */
  lemma StopOrContinue(m: Mode, cls: nat, e: Tests)
    requires !Plain(m, cls)
    ensures Transition(m, cls, e) == Go(ERR) || Transition(m, cls, e) == Action(m, KEEP, KEEP, KEEP, true, false, KEEP, KEEP, KEEP)
  {
  }

  lemma OutputNears(s: ScanState, b: Byte)
    requires OutputMode(s.mode)
    ensures Nears(s, b)
  {
    hide Transition;
    hide ValueAt;
    hide Moved;
    var cls := ByteClass(GroupOf(s.mode), b);
    if !Plain(s.mode, cls) { StopOrContinue(s.mode, cls, TestsAt(s, b)); } else { OutputTransition(s.mode, cls, TestsAt(s, b)); }
  }

  lemma CountNears(s: ScanState, b: Byte)
    requires s.mode.REGCNT? || s.mode.R4_CT? || s.mode.R4_CLEN?
    ensures Nears(s, b)
  {
    hide Transition;
    hide ValueAt;
    var cls := ByteClass(GroupOf(s.mode), b);
    if !Plain(s.mode, cls) { StopOrContinue(s.mode, cls, TestsAt(s, b)); } else { SubjectTransition(s.mode, cls, TestsAt(s, b)); }
  }

  lemma HighNears(s: ScanState, b: Byte)
    requires s.mode.R4_HI?
    ensures Nears(s, b)
  {
    hide Transition;
    hide ValueAt;
    var cls := ByteClass(GroupOf(s.mode), b);
    if !Plain(s.mode, cls) { StopOrContinue(s.mode, cls, TestsAt(s, b)); } else { SubjectTransition(s.mode, cls, TestsAt(s, b)); }
  }

  lemma LowNears(s: ScanState, b: Byte)
    requires s.mode.R4_LO?
    ensures Nears(s, b)
  {
    hide Transition;
    hide ValueAt;
    var cls := ByteClass(GroupOf(s.mode), b);
    if !Plain(s.mode, cls) { StopOrContinue(s.mode, cls, TestsAt(s, b)); } else { SubjectTransition(s.mode, cls, TestsAt(s, b)); }
  }

  lemma BodyNears(s: ScanState, b: Byte)
    requires s.mode.R4_BODY?
    ensures Nears(s, b)
  {
    hide Transition;
    hide ValueAt;
    var cls := ByteClass(GroupOf(s.mode), b);
    if !Plain(s.mode, cls) { StopOrContinue(s.mode, cls, TestsAt(s, b)); } else { SubjectTransition(s.mode, cls, TestsAt(s, b)); }
  }

  lemma NextNears(s: ScanState, b: Byte)
    requires s.mode.R5_CT? || s.mode.R5_CLEN? || s.mode.R5_BODY?
    ensures Nears(s, b)
  {
    hide Transition;
    hide ValueAt;
    var cls := ByteClass(GroupOf(s.mode), b);
    if !Plain(s.mode, cls) { StopOrContinue(s.mode, cls, TestsAt(s, b)); } else { TailTransition(s.mode, cls, TestsAt(s, b)); }
  }

  lemma RestNears(s: ScanState, b: Byte)
    requires s.mode.RX_CT? || s.mode.RX_CLEN?
    ensures Nears(s, b)
  {
    hide Transition;
    hide ValueAt;
    var cls := ByteClass(GroupOf(s.mode), b);
    if !Plain(s.mode, cls) { StopOrContinue(s.mode, cls, TestsAt(s, b)); } else { TailTransition(s.mode, cls, TestsAt(s, b)); }
  }

  lemma LastNears(s: ScanState, b: Byte)
    requires s.mode.RX_BODY? || s.mode.END? || s.mode.ERR?
    ensures Nears(s, b)
  {
    hide Transition;
    hide ValueAt;
    var cls := ByteClass(GroupOf(s.mode), b);
    if !Plain(s.mode, cls) { StopOrContinue(s.mode, cls, TestsAt(s, b)); } else { TailTransition(s.mode, cls, TestsAt(s, b)); }
  }

  /** A byte brings the next shaped end at most one nearer, and an end puts the next one 42 bytes away. */
  lemma StepNears(s: ScanState, b: Byte)
    ensures Nears(s, b)
  {
    hide Nears;
    if InputMode(s.mode) || ListMode(s.mode) { FarStep(s, b); }
    else if OutputMode(s.mode) { OutputNears(s, b); }
    else if s.mode.REGCNT? || s.mode.R4_CT? || s.mode.R4_CLEN? { CountNears(s, b); }
    else if s.mode.R4_HI? { HighNears(s, b); }
    else if s.mode.R4_LO? { LowNears(s, b); }
    else if s.mode.R4_BODY? { BodyNears(s, b); }
    else if s.mode.R5_CT? || s.mode.R5_CLEN? || s.mode.R5_BODY? { NextNears(s, b); }
    else if s.mode.RX_CT? || s.mode.RX_CLEN? { RestNears(s, b); }
    else { LastNears(s, b); }
  }

  function MostEnds(distance: nat, n: nat): nat {
    if n < distance || distance == 0 then (if distance == 0 then 1 + n / SPACING else 0) else 1 + (n - distance) / SPACING
  }

  lemma OneByte(distance: nat, next: nat, n: nat, ended: bool)
    requires n > 0 && next + 1 >= distance && (ended ==> distance <= 1 && next >= SPACING)
    ensures (if ended then 1 else 0) + MostEnds(next, n - 1) <= MostEnds(distance, n)
  {
  }

  lemma {:induction false} FoundBound(sc: Scan, bytes: seq<Byte>, from: nat, end: nat)
    requires from <= end <= |bytes|
    ensures var after := Feed(sc, bytes, from, end);
            |after.found| - |sc.found| <= MostEnds(Distance(sc.state), end - from)
    decreases end - from
  {
    hide Step, Ends, Distance, MostEnds;
    if from < end {
      var next := Feed(sc, bytes, from, from + 1);
      FeedOne(sc, bytes, from);
      FeedSplit(sc, bytes, from, from + 1, end);
      StepNears(sc.state, bytes[from]);
      OneByte(Distance(sc.state), Distance(next.state), end - from, Ends(sc.state, bytes[from]));
      FoundBound(next, bytes, from + 1, end);
    }
  }

  lemma DistancePositive(s: ScanState)
    ensures Distance(s) >= 1
  {
  }

  /** From any state, a slot's bytes end at most four shaped outputs. */
  lemma SlotEndsFour(sc: Scan, bytes: seq<Byte>, from: nat, end: nat)
    requires from <= end <= |bytes| && end - from <= SLOT
    ensures |Feed(sc, bytes, from, end).found| <= |sc.found| + LIST_PER_SLOT
  {
    hide Distance;
    DistancePositive(sc.state);
    FoundBound(sc, bytes, from, end);
  }
}
