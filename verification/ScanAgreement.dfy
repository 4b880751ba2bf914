/**
 The scan and the framer read one grammar: over every transaction the framer accepts, the table
 machine, its registers modulo the field prime, emits exactly the framer's shaped outputs.
 */
module ScanAgreement {
  import opened Wrappers
  import opened ErgoScan
  import opened ErgoProfile

  /** The registers between two fields of the grammar. */
  predicate Rest(s: ScanState) {
    s.r == 0 && s.a == 0 && s.p == 1
  }

  /** An update that does not read what the byte brings. */
  predicate Blind(u: Lin) {
    u.KEEP? || u.DEC? || u.DOUBLE? || u.SET?
  }

  // ----- a VLQ -----

  /** The state after a VLQ of value `v`, and what it emits. */
  function LandAction(s: ScanState, v: Field): Action {
    Transition(s.mode, 0, Tests(s.r == 1, v == 0, v == 32, s.c1 == 1, s.c2 == 1))
  }

  function Land(s: ScanState, v: Field): ScanState {
    Update(s.(a := 0, p := 1), LandAction(s, v), v, 0)
  }

  function Emitted(before: ScanState, x: Action, after: ScanState): seq<Shaped> {
    if x.oend && after.sh == 2 then [Shaped(before.outputs, LimbBytes(after.hi, 16) + LimbBytes(after.lo, 16))] else []
  }

  ghost predicate ByteBlind(x: Action) {
    !x.vk && Blind(x.c2) && Blind(x.hi) && Blind(x.lo)
  }

  lemma InputLanding(m: Mode, e: Tests)
    requires InputMode(m) && GroupOf(m).VLQ?
    ensures ByteBlind(InputRule(m, 0, e))
  {
  }

  lemma ListLanding(m: Mode, e: Tests)
    requires ListMode(m) && GroupOf(m).VLQ?
    ensures ByteBlind(ListRule(m, 0, e))
  {
  }

  lemma OutputLanding(m: Mode, e: Tests)
    requires OutputMode(m) && GroupOf(m).VLQ?
    ensures ByteBlind(OutputRule(m, 0, e))
  {
  }

  lemma SubjectLanding(e: Tests)
    ensures ByteBlind(SubjectRule(R4_CLEN, 0, e))
  {
  }

  lemma TailLanding(e: Tests)
    ensures ByteBlind(TailRule(R5_CLEN, 0, e)) && ByteBlind(TailRule(RX_CLEN, 0, e))
  {
  }

  /** The action of a VLQ's last byte reads its value, never the byte. */
  lemma LandingAction(m: Mode, e: Tests)
    requires GroupOf(m).VLQ?
    ensures ByteBlind(Transition(m, 0, e))
  {
    hide InputRule;
    hide ListRule;
    hide OutputRule;
    hide SubjectRule;
    hide TailRule;
    hide Transition;
    hide ByteBlind;
    if InputMode(m) { InputLanding(m, e); InputTransition(m, 0, e); }
    else if ListMode(m) { ListLanding(m, e); ListTransition(m, 0, e); }
    else if OutputMode(m) { OutputLanding(m, e); OutputTransition(m, 0, e); }
    else if m.R4_CLEN? { SubjectLanding(e); SubjectTransition(m, 0, e); }
    else { TailLanding(e); TailTransition(m, 0, e); }
  }

  /** A byte's part of a VLQ, in the registers' terms. */
  lemma DigitValue(s: ScanState, b: Byte, k: nat)
    requires GroupOf(s.mode).VLQ? && s.p == Pow128(k) && s.a + Digit(b, k) < P
    ensures ValueAt(s, b) == s.a + Digit(b, k)
  {
    hide GroupOf;
    hide Pow128;
    assert b - 128 * Continues(GroupOf(s.mode), b) == b % 128;
  }

  lemma ContinuingStep(s: ScanState, b: Byte, k: nat)
    requires GroupOf(s.mode).VLQ? && b >= 128 && s.p == Pow128(k) && s.a + Digit(b, k) < P && 128 * Pow128(k) < P
    ensures Step(s, b) == s.(a := s.a + Digit(b, k), p := 128 * Pow128(k)) && Found(s, b) == []
  {
    hide GroupOf;
    hide Digit;
    hide LimbBytes;
    hide ValueAt;
    DigitValue(s, b, k);
    assert ActAt(s, b) == Action(s.mode, KEEP, KEEP, KEEP, true, false, KEEP, KEEP, KEEP);
  }

  lemma FinalStep(s: ScanState, b: Byte, k: nat, v: Field)
    requires GroupOf(s.mode).VLQ? && b < 128 && s.p == Pow128(k) && s.a + Digit(b, k) == v
    ensures Step(s, b) == Land(s, v) && Found(s, b) == Emitted(s, LandAction(s, v), Land(s, v))
  {
    hide Transition;
    hide LimbBytes;
    hide GroupOf;
    hide Digit;
    hide ValueAt;
    hide Pow128;
    DigitValue(s, b, k);
    LandingAction(s.mode, TestsAt(s, b));
  }

  lemma Pow128Below(k: nat)
    requires k <= 10
    ensures Pow128(k) < P && Pow128(10) == 0x40_0000_0000_0000_0000 && (k < 10 ==> 128 * Pow128(k) < P)
  {
    assert Pow128(1) == 128 && Pow128(2) == 0x4000 && Pow128(3) == 0x20_0000 && Pow128(4) == 0x1000_0000;
    assert Pow128(5) == 128 * Pow128(4) && Pow128(6) == 128 * Pow128(5) && Pow128(7) == 128 * Pow128(6);
    assert Pow128(8) == 128 * Pow128(7) && Pow128(9) == 128 * Pow128(8) && Pow128(10) == 128 * Pow128(9);
  }

  lemma {:induction false} VlqSum(bytes: seq<Byte>, at: nat, k: nat, value: nat, max: nat)
    requires VlqFrom(bytes, at, k, value, max).Some?
    ensures at < |bytes| && k < 10 && value + Digit(bytes[at], k) <= VlqFrom(bytes, at, k, value, max).value.0
    decreases 10 - k
  {
    hide Digit;
    if bytes[at] >= 128 { VlqSum(bytes, at + 1, k + 1, value + Digit(bytes[at], k), max); }
  }

  lemma {:induction false} VlqSteps(sc: Scan, bytes: seq<Byte>, at: nat, k: nat, value: nat, max: nat)
    requires GroupOf(sc.state.mode).VLQ? && max <= MAX_U64
    requires VlqFrom(bytes, at, k, value, max).Some? && sc.state.a == value && sc.state.p == Pow128(k)
    ensures var (v, end) := VlqFrom(bytes, at, k, value, max).value;
            Feed(sc, bytes, at, end) == Scan(Land(sc.state, v), sc.found + Emitted(sc.state, LandAction(sc.state, v), Land(sc.state, v)))
    decreases 10 - k
  {
    hide Step;
    hide Found;
    hide Land;
    hide LandAction;
    hide GroupOf;
    hide Pow128;
    hide Digit;
    var s := sc.state;
    var (v, end) := VlqFrom(bytes, at, k, value, max).value;
    VlqSum(bytes, at, k, value, max);
    var b := bytes[at];
    FeedOne(sc, bytes, at);
    Pow128Below(k);
    Pow128Next(k);
    if b >= 128 {
      ContinuingStep(s, b, k);
      var next := Scan(Step(s, b), sc.found);
      assert sc.found + [] == sc.found;
      VlqSteps(next, bytes, at + 1, k + 1, value + Digit(b, k), max);
      FeedSplit(sc, bytes, at, at + 1, end);
      LandIgnoresPartial(s, next.state.a, next.state.p, v);
    } else {
      FinalStep(s, b, k, v);
    }
  }

  lemma Pow128Next(k: nat)
    ensures Pow128(k + 1) == 128 * Pow128(k)
  {
  }

  lemma LandIgnoresPartial(s: ScanState, a: Field, p: Field, v: Field)
    ensures Land(s.(a := a, p := p), v) == Land(s, v) && LandAction(s.(a := a, p := p), v) == LandAction(s, v)
  {
    hide Transition;
  }

  /** Reading a VLQ of the grammar, the machine lands with exactly its value. */
  lemma ScanVlq(sc: Scan, bytes: seq<Byte>, at: nat, max: nat)
    requires GroupOf(sc.state.mode).VLQ? && sc.state.a == 0 && sc.state.p == 1 && max <= MAX_U64
    requires ReadVlq(bytes, at, max).Some?
    ensures var (v, end) := ReadVlq(bytes, at, max).value;
            Feed(sc, bytes, at, end) == Scan(Land(sc.state, v), sc.found + Emitted(sc.state, LandAction(sc.state, v), Land(sc.state, v)))
  {
    hide Land;
    hide LandAction;
    VlqSteps(sc, bytes, at, 0, 0, max);
  }

  // ----- a run of bytes -----

  predicate RunMode(m: Mode) {
    m.S_BOX? || m.E_BODY? || m.S_DI? || m.S_TOK? || m.S_TBODY? || m.PAT_P2PK? || m.PAT_FEE? ||
    m.R4_BODY? || m.R5_BODY? || m.RX_BODY?
  }

  function ExitAction(s: ScanState): Action {
    Transition(s.mode, 0, Tests(true, false, false, s.c1 == 1, s.c2 == 1))
  }

  /** The state after the last byte of a run. */
  function Exit(s: ScanState): ScanState {
    Update(s.(r := 1), ExitAction(s), 0, 0)
  }

  lemma RulesContinue(m: Mode, e: Tests)
    requires RunMode(m) && !e.zR
    ensures InputMode(m) ==> InputRule(m, 0, e) == Move(m, DEC, KEEP, KEEP)
    ensures ListMode(m) ==> ListRule(m, 0, e) == Move(m, DEC, KEEP, KEEP)
    ensures OutputMode(m) ==> OutputRule(m, 0, e) == Move(m, DEC, KEEP, KEEP)
  {
  }

  lemma RegisterRulesContinue(m: Mode, e: Tests)
    requires RunMode(m) && !e.zR
    ensures SubjectMode(m) ==> SubjectRule(m, 0, e) == Move(m, DEC, KEEP, KEEP)
    ensures TailMode(m) ==> TailRule(m, 0, e) == Move(m, DEC, KEEP, KEEP)
  {
  }

  lemma RunContinues(m: Mode, e: Tests)
    requires RunMode(m) && !e.zR
    ensures Transition(m, 0, e) == Move(m, DEC, KEEP, KEEP)
  {
    hide Transition;
    hide InputRule;
    hide ListRule;
    hide OutputRule;
    hide SubjectRule;
    hide TailRule;
    RulesContinue(m, e);
    RegisterRulesContinue(m, e);
    if InputMode(m) { InputTransition(m, 0, e); }
    else if ListMode(m) { ListTransition(m, 0, e); }
    else if OutputMode(m) { OutputTransition(m, 0, e); }
    else if m.R4_BODY? { SubjectTransition(m, 0, e); }
    else { TailTransition(m, 0, e); }
  }

  ghost predicate ExitsBlindly(x: Action, y: Action) {
    x == y && !x.vk && Blind(x.r) && Blind(x.c1) && Blind(x.c2) && Blind(x.hi) && Blind(x.lo)
  }

  function Exiting(e: Tests): Tests {
    Tests(true, false, false, e.zC1, e.zC2)
  }

  lemma InputRunExits(m: Mode, e: Tests)
    requires RunMode(m) && InputMode(m) && e.zR
    ensures ExitsBlindly(InputRule(m, 0, e), InputRule(m, 0, Exiting(e)))
  {
  }

  lemma ListRunExits(m: Mode, e: Tests)
    requires RunMode(m) && ListMode(m) && e.zR
    ensures ExitsBlindly(ListRule(m, 0, e), ListRule(m, 0, Exiting(e)))
  {
  }

  lemma OutputRunExits(m: Mode, e: Tests)
    requires RunMode(m) && OutputMode(m) && e.zR
    ensures ExitsBlindly(OutputRule(m, 0, e), OutputRule(m, 0, Exiting(e)))
  {
  }

  lemma SubjectRunExits(e: Tests)
    requires e.zR
    ensures ExitsBlindly(SubjectRule(R4_BODY, 0, e), SubjectRule(R4_BODY, 0, Exiting(e)))
  {
  }

  lemma TailRunExits(e: Tests)
    requires e.zR
    ensures ExitsBlindly(TailRule(R5_BODY, 0, e), TailRule(R5_BODY, 0, Exiting(e)))
    ensures ExitsBlindly(TailRule(RX_BODY, 0, e), TailRule(RX_BODY, 0, Exiting(e)))
  {
  }

  /** The last byte of a run leaves without reading the byte or its value. */
  lemma RunExits(m: Mode, e: Tests)
    requires RunMode(m) && e.zR
    ensures ExitsBlindly(Transition(m, 0, e), Transition(m, 0, Exiting(e)))
  {
    hide InputRule;
    hide ListRule;
    hide OutputRule;
    hide SubjectRule;
    hide TailRule;
    hide ExitsBlindly;
    hide Transition;
    if InputMode(m) { InputRunExits(m, e); InputTransition(m, 0, e); InputTransition(m, 0, Exiting(e)); }
    else if ListMode(m) { ListRunExits(m, e); ListTransition(m, 0, e); ListTransition(m, 0, Exiting(e)); }
    else if OutputMode(m) { OutputRunExits(m, e); OutputTransition(m, 0, e); OutputTransition(m, 0, Exiting(e)); }
    else if m.R4_BODY? { SubjectRunExits(e); SubjectTransition(m, 0, e); SubjectTransition(m, 0, Exiting(e)); }
    else { TailRunExits(e); TailTransition(m, 0, e); TailTransition(m, 0, Exiting(e)); }
  }

  lemma RunStep(s: ScanState, b: Byte)
    requires RunMode(s.mode) && s.a == 0 && s.p == 1 && s.r >= 1
    ensures s.r > 1 ==> Step(s, b) == s.(r := s.r - 1) && Found(s, b) == []
    ensures s.r == 1 ==> Step(s, b) == Exit(s) && Found(s, b) == Emitted(s, ExitAction(s), Exit(s))
  {
    hide Transition;
    hide LimbBytes;
    hide ValueAt;
    if s.r == 1 { RunExits(s.mode, TestsAt(s, b)); } else { RunContinues(s.mode, TestsAt(s, b)); }
    assert ByteClass(GroupOf(s.mode), b) == 0;
  }

  lemma ExitIgnoresCount(s: ScanState, r: Field)
    ensures Exit(s.(r := r)) == Exit(s) && ExitAction(s.(r := r)) == ExitAction(s)
  {
    hide Transition;
  }

  /** A run takes exactly its bytes. */
  lemma {:induction false} ScanRun(sc: Scan, bytes: seq<Byte>, at: nat, n: nat)
    requires RunMode(sc.state.mode) && sc.state.a == 0 && sc.state.p == 1
    requires n >= 1 && sc.state.r == n && at + n <= |bytes|
    ensures Feed(sc, bytes, at, at + n) == Scan(Exit(sc.state), sc.found + Emitted(sc.state, ExitAction(sc.state), Exit(sc.state)))
    decreases n
  {
    hide Step;
    hide Found;
    hide Exit;
    hide ExitAction;
    hide LimbBytes;
    RunStep(sc.state, bytes[at]);
    FeedOne(sc, bytes, at);
    if n > 1 {
      var next := Scan(sc.state.(r := sc.state.r - 1), sc.found);
      assert sc.found + [] == sc.found;
      ScanRun(next, bytes, at + 1, n - 1);
      FeedSplit(sc, bytes, at, at + 1, at + n);
      ExitIgnoresCount(sc.state, sc.state.r - 1);
    }
  }

  // ----- inputs -----

  lemma NoneEmitted(found: seq<Shaped>)
    ensures found + [] == found
  {
  }

  /** A byte a mode takes in one step. */
  lemma OneByte(s: ScanState, b: Byte)
    requires Rest(s)
    ensures s.mode.PROOF? && b == 0 ==> Step(s, b) == s.(mode := EXTCNT) && Found(s, b) == []
    ensures s.mode.E_KEY? ==> Step(s, b) == s.(mode := E_CT) && Found(s, b) == []
    ensures b == COLL_BYTE_TYPE && s.mode.E_CT? ==> Step(s, b) == s.(mode := E_CLEN) && Found(s, b) == []
    ensures b == COLL_BYTE_TYPE && s.mode.R4_CT? ==> Step(s, b) == s.(mode := R4_CLEN) && Found(s, b) == []
  {
    hide LimbBytes;
    hide ValueAt;
  }

  lemma OneRegisterByte(s: ScanState, b: Byte)
    requires Rest(s) && b == COLL_BYTE_TYPE
    ensures s.mode.R5_CT? ==> Step(s, b) == s.(mode := R5_CLEN) && Found(s, b) == []
    ensures s.mode.RX_CT? ==> Step(s, b) == s.(mode := RX_CLEN) && Found(s, b) == []
  {
    hide LimbBytes;
    hide ValueAt;
  }

  /** The state past an input, with one fewer left. */
  function InputPast(s: ScanState): ScanState
    requires s.c1 >= 1
  {
    if s.c1 == 1 then s.(mode := V_DI, c1 := 0) else s.(mode := S_BOX, r := 32, c1 := s.c1 - 1)
  }

  /** The state past an extension entry, with one fewer left. */
  function EntryPast(s: ScanState): ScanState
    requires s.c1 >= 1 && s.c2 >= 1
  {
    if s.c2 == 1 then InputPast(s.(c2 := 0)) else s.(mode := E_KEY, c2 := s.c2 - 1)
  }

  lemma EntryLengthLands(s: ScanState, v: nat)
    requires Rest(s) && s.mode.E_CLEN? && s.c1 >= 1 && s.c2 >= 1 && v < P
    ensures Land(s, v) == (if v == 0 then EntryPast(s) else s.(mode := E_BODY, r := v)) && !LandAction(s, v).oend
  {
  }

  lemma EntryBodyExits(s: ScanState)
    requires s.a == 0 && s.p == 1 && s.mode.E_BODY? && s.c1 >= 1 && s.c2 >= 1
    ensures Exit(s) == EntryPast(s.(r := 0)) && !ExitAction(s).oend
  {
  }

  /** A `Coll[Byte]` constant's length and where its bytes start. */
  lemma CollParts(bytes: seq<Byte>, at: nat)
    requires at <= |bytes| && FrameColl(bytes, at).Some?
    ensures at < |bytes| && bytes[at] == COLL_BYTE_TYPE && ReadVlq(bytes, at + 1, MAX_U16).Some?
    ensures var (length, start) := ReadVlq(bytes, at + 1, MAX_U16).value; length <= MAX_U16 && FrameColl(bytes, at) == Some(start + length)
  {
  }

  /** An extension constant's length and bytes. */
  lemma ScanEntryBytes(sc: Scan, bytes: seq<Byte>, at: nat, end: nat)
    requires Rest(sc.state) && sc.state.mode.E_CLEN? && sc.state.c1 >= 1 && sc.state.c2 >= 1
    requires ReadVlq(bytes, at, MAX_U16).Some? && end <= |bytes|
    requires var (length, start) := ReadVlq(bytes, at, MAX_U16).value; end == start + length
    ensures Feed(sc, bytes, at, end) == Scan(EntryPast(sc.state), sc.found)
  {
    hide Land;
    hide Exit;
    hide ReadVlq;
    hide Feed;
    hide EntryPast;
    var (length, start) := ReadVlq(bytes, at, MAX_U16).value;
    NoneEmitted(sc.found);
    ScanVlq(sc, bytes, at, MAX_U16);
    EntryLengthLands(sc.state, length);
    FeedSplit(sc, bytes, at, start, end);
    if length == 0 {
      FeedNone(Scan(EntryPast(sc.state), sc.found), bytes, end);
    } else {
      var body := Scan(sc.state.(mode := E_BODY, r := length), sc.found);
      ScanRun(body, bytes, start, length);
      EntryBodyExits(body.state);
      EntryPastOf(sc.state, E_BODY);
    }
  }

  lemma ScanEntry(sc: Scan, bytes: seq<Byte>, at: nat, end: nat)
    requires Rest(sc.state) && sc.state.mode.E_KEY? && sc.state.c1 >= 1 && sc.state.c2 >= 1
    requires at < |bytes| && FrameColl(bytes, at + 1) == Some(end)
    ensures Feed(sc, bytes, at, end) == Scan(EntryPast(sc.state), sc.found)
  {
    hide Step;
    hide Found;
    hide FrameColl;
    hide ReadVlq;
    hide Feed;
    hide EntryPast;
    CollParts(bytes, at + 1);
    var s := sc.state;
    NoneEmitted(sc.found);
    FeedOne(sc, bytes, at);
    OneByte(s, bytes[at]);
    var typed := Scan(s.(mode := E_CT), sc.found);
    FeedOne(typed, bytes, at + 1);
    OneByte(typed.state, bytes[at + 1]);
    FeedSplit(sc, bytes, at, at + 1, end);
    FeedSplit(typed, bytes, at + 1, at + 2, end);
    ScanEntryBytes(Scan(s.(mode := E_CLEN), sc.found), bytes, at + 2, end);
    EntryPastOf(s, E_CLEN);
  }

  lemma EntryPastOf(s: ScanState, m: Mode)
    requires s.c1 >= 1 && s.c2 >= 1 && s.r == 0
    ensures EntryPast(s.(mode := m)) == EntryPast(s)
  {
  }

  lemma FeedNone(sc: Scan, bytes: seq<Byte>, at: nat)
    requires at <= |bytes|
    ensures Feed(sc, bytes, at, at) == sc
  {
  }

  lemma {:induction false} ScanEntries(sc: Scan, bytes: seq<Byte>, at: nat, n: nat, end: nat)
    requires Rest(sc.state) && sc.state.mode.E_KEY? && sc.state.c1 >= 1 && sc.state.c2 == n && n >= 1
    requires at <= |bytes| && FrameEntries(bytes, at, n) == Some(end)
    ensures Feed(sc, bytes, at, end) == Scan(InputPast(sc.state.(c2 := 0)), sc.found)
    decreases n
  {
    hide FrameColl;
    hide Feed;
    var next := FrameColl(bytes, at + 1).value;
    ScanEntry(sc, bytes, at, next);
    FeedSplit(sc, bytes, at, next, end);
    if n == 1 {
      FeedNone(Scan(EntryPast(sc.state), sc.found), bytes, end);
    } else {
      ScanEntries(Scan(EntryPast(sc.state), sc.found), bytes, next, n - 1, end);
      assert InputPast(EntryPast(sc.state).(c2 := 0)) == InputPast(sc.state.(c2 := 0));
    }
  }

  lemma CountStep(s: ScanState, b: Byte)
    requires Rest(s) && s.mode.EXTCNT? && s.c1 >= 1 && b <= MAX_EXTENSION
    ensures Step(s, b) == (if b == 0 then InputPast(s) else s.(mode := E_KEY, c2 := b)) && Found(s, b) == []
  {
    hide LimbBytes;
    hide ValueAt;
  }

  lemma BoxExits(s: ScanState)
    requires s.a == 0 && s.p == 1 && s.mode.S_BOX?
    ensures Exit(s) == s.(mode := PROOF, r := 0) && !ExitAction(s).oend
  {
  }

  lemma InputParts(bytes: seq<Byte>, at: nat, end: nat)
    requires at <= |bytes| && FrameInput(bytes, at) == Some(end)
    ensures at + 34 <= |bytes| && bytes[at + 32] == 0 && bytes[at + 33] <= MAX_EXTENSION && at + 34 <= end
    ensures FrameEntries(bytes, at + 34, bytes[at + 33]) == Some(end)
  {
    ZeroVlq(bytes, at + 32);
  }

  /** A minimal VLQ of value zero is the one byte zero. */
  lemma ZeroVlq(bytes: seq<Byte>, at: nat)
    requires ReadVlq(bytes, at, MAX_U16).Some? && ReadVlq(bytes, at, MAX_U16).value.0 == 0
    ensures at < |bytes| && bytes[at] == 0 && ReadVlq(bytes, at, MAX_U16).value.1 == at + 1
  {
    if bytes[at] >= 128 {
      VlqAtLeast(bytes, at + 1, 1, Digit(bytes[at], 0), MAX_U16);
    } else {
      assert Pow128(0) == 1;
    }
  }

  /** A minimal VLQ of more than `k` bytes is at least `128^k`. */
  lemma {:induction false} VlqAtLeast(bytes: seq<Byte>, at: nat, k: nat, value: nat, max: nat)
    requires k > 0 && VlqFrom(bytes, at, k, value, max).Some?
    ensures VlqFrom(bytes, at, k, value, max).value.0 >= Pow128(k)
    decreases 10 - k
  {
    if bytes[at] >= 128 {
      VlqAtLeast(bytes, at + 1, k + 1, value + Digit(bytes[at], k), max);
    } else {
      DigitAtLeast(bytes[at], k);
    }
  }

  lemma DigitAtLeast(b: Byte, k: nat)
    requires 0 < b < 128
    ensures Digit(b, k) >= Pow128(k)
  {
    assert b % 128 == b;
    assert b * Pow128(k) >= 1 * Pow128(k);
  }

  lemma ScanInput(sc: Scan, bytes: seq<Byte>, at: nat, end: nat)
    requires sc.state.a == 0 && sc.state.p == 1 && sc.state.mode.S_BOX? && sc.state.r == 32 && sc.state.c1 >= 1 && sc.state.c2 == 0
    requires at <= |bytes| && FrameInput(bytes, at) == Some(end)
    ensures Feed(sc, bytes, at, end) == Scan(InputPast(sc.state.(r := 0)), sc.found)
  {
    hide Step;
    hide Found;
    hide FrameInput;
    hide FrameEntries;
    hide Feed;
    hide Exit;
    hide InputPast;
    InputParts(bytes, at, end);
    NoneEmitted(sc.found);
    var s, n := sc.state.(r := 0), bytes[at + 33];
    ScanRun(sc, bytes, at, 32);
    BoxExits(sc.state);
    var proof := Scan(s.(mode := PROOF), sc.found);
    FeedOne(proof, bytes, at + 32);
    OneByte(proof.state, 0);
    var counted := Scan(s.(mode := EXTCNT), sc.found);
    FeedOne(counted, bytes, at + 33);
    CountStep(counted.state, n);
    InputPastOf(s, EXTCNT);
    InputPastOf(s, E_KEY);
    FeedSplit(sc, bytes, at, at + 32, end);
    FeedSplit(proof, bytes, at + 32, at + 33, end);
    FeedSplit(counted, bytes, at + 33, at + 34, end);
    if n == 0 {
      EntriesNone(bytes, at + 34);
      FeedNone(Scan(InputPast(s), sc.found), bytes, end);
    } else {
      ScanEntries(Scan(s.(mode := E_KEY, c2 := n), sc.found), bytes, at + 34, n, end);
    }
  }

  lemma EntriesNone(bytes: seq<Byte>, at: nat)
    requires at <= |bytes|
    ensures FrameEntries(bytes, at, 0) == Some(at)
  {
  }

  lemma InputPastOf(s: ScanState, m: Mode)
    requires s.c1 >= 1
    ensures InputPast(s.(mode := m)) == InputPast(s)
    ensures s.c2 == 0 ==> forall n: Field :: InputPast(s.(mode := m, c2 := n).(c2 := 0)) == InputPast(s)
  {
  }

  lemma {:induction false} ScanInputs(sc: Scan, bytes: seq<Byte>, at: nat, n: nat, end: nat)
    requires sc.state.a == 0 && sc.state.p == 1 && sc.state.mode.S_BOX? && sc.state.r == 32 && sc.state.c1 == n && n >= 1 && sc.state.c2 == 0
    requires at <= |bytes| && FrameInputs(bytes, at, n) == Some(end)
    ensures Feed(sc, bytes, at, end) == Scan(sc.state.(mode := V_DI, r := 0, c1 := 0), sc.found)
    decreases n
  {
    hide FrameInput;
    hide Feed;
    var next := FrameInput(bytes, at).value;
    ScanInput(sc, bytes, at, next);
    FeedSplit(sc, bytes, at, next, end);
    var past := Scan(InputPast(sc.state.(r := 0)), sc.found);
    if n == 1 {
      FeedNone(past, bytes, end);
    } else {
      ScanInputs(past, bytes, next, n - 1, end);
    }
  }

  // ----- data inputs, token ids -----

  lemma IdsLand(s: ScanState, v: nat)
    requires Rest(s) && v <= MAX_U32
    ensures s.mode.V_DI? ==> Land(s, v) == (if v == 0 then s.(mode := V_TOK) else s.(mode := S_DI, r := 32 * v)) && !LandAction(s, v).oend
    ensures s.mode.V_TOK? ==> Land(s, v) == (if v == 0 then s.(mode := V_OUT) else s.(mode := S_TOK, r := 32 * v)) && !LandAction(s, v).oend
  {
    hide Transition;
    if s.mode.V_DI? || s.mode.V_TOK? { ListTransition(s.mode, 0, Tests(s.r == 1, v == 0, v == 32, s.c1 == 1, s.c2 == 1)); }
  }

  lemma IdsExit(s: ScanState)
    requires s.a == 0 && s.p == 1
    ensures s.mode.S_DI? ==> Exit(s) == s.(mode := V_TOK, r := 0) && !ExitAction(s).oend
    ensures s.mode.S_TOK? ==> Exit(s) == s.(mode := V_OUT, r := 0) && !ExitAction(s).oend
  {
    hide Transition;
    if s.mode.S_DI? || s.mode.S_TOK? { ListTransition(s.mode, 0, Tests(true, false, false, s.c1 == 1, s.c2 == 1)); }
  }

  /** A counted list of ids is passed over whole. */
  lemma ScanIds(sc: Scan, bytes: seq<Byte>, at: nat, max: nat, end: nat)
    requires Rest(sc.state) && (sc.state.mode.V_DI? || sc.state.mode.V_TOK?) && max <= MAX_U32
    requires FrameIds(bytes, at, max) == Some(end)
    ensures Feed(sc, bytes, at, end) == Scan(sc.state.(mode := if sc.state.mode.V_DI? then V_TOK else V_OUT), sc.found)
  {
    hide Land;
    hide LandAction;
    hide Exit;
    hide ExitAction;
    hide ReadVlq;
    hide Feed;
    var (v, start) := ReadVlq(bytes, at, max).value;
    var s, done := sc.state, sc.state.(mode := if sc.state.mode.V_DI? then V_TOK else V_OUT);
    NoneEmitted(sc.found);
    ScanVlq(sc, bytes, at, max);
    IdsLand(s, v);
    FeedSplit(sc, bytes, at, start, end);
    if v == 0 {
      FeedNone(Scan(done, sc.found), bytes, end);
    } else {
      var run := Scan(s.(mode := if s.mode.V_DI? then S_DI else S_TOK, r := 32 * v), sc.found);
      ScanRun(run, bytes, start, 32 * v);
      IdsExit(run.state);
    }
  }

  // ----- an output before its registers -----

  lemma OutputLands(s: ScanState, v: nat)
    requires Rest(s) && v < P
    ensures s.mode.V_VALUE? ==> Land(s, v) == s.(mode := TREE) && !LandAction(s, v).oend
    ensures s.mode.V_TSIZE? ==> Land(s, v) == (if v == 0 then s.(mode := V_HEIGHT) else s.(mode := S_TBODY, r := v)) && !LandAction(s, v).oend
    ensures s.mode.V_HEIGHT? ==> Land(s, v) == s.(mode := TOKCNT) && !LandAction(s, v).oend
    ensures s.mode.V_TIDX? ==> Land(s, v) == s.(mode := V_TAMT) && !LandAction(s, v).oend
  {
    hide Transition;
    if OutputMode(s.mode) && GroupOf(s.mode).VLQ? {
      OutputTransition(s.mode, 0, Tests(s.r == 1, v == 0, v == 32, s.c1 == 1, s.c2 == 1));
    }
  }

  lemma AmountLands(s: ScanState, v: nat)
    requires Rest(s) && v < P && s.mode.V_TAMT? && s.c2 >= 1
    ensures Land(s, v) == s.(mode := if s.c2 == 1 then REGCNT else V_TIDX, c2 := s.c2 - 1) && !LandAction(s, v).oend
  {
    hide Transition;
    OutputTransition(s.mode, 0, Tests(s.r == 1, v == 0, v == 32, s.c1 == 1, s.c2 == 1));
  }

  lemma TreeExits(s: ScanState)
    requires s.a == 0 && s.p == 1 && (s.mode.S_TBODY? || s.mode.PAT_P2PK? || s.mode.PAT_FEE?)
    ensures Exit(s) == s.(mode := V_HEIGHT, r := 0) && !ExitAction(s).oend
  {
    hide Transition;
    OutputTransition(s.mode, 0, Tests(true, false, false, s.c1 == 1, s.c2 == 1));
  }

  lemma TreeStep(s: ScanState, b: Byte)
    requires Rest(s) && s.mode.TREE?
    ensures b < 32 && (b / 8) % 2 == 1 ==> Step(s, b) == s.(mode := V_TSIZE) && Found(s, b) == []
    ensures b == 0 ==> Step(s, b) == s.(mode := PAT_P2PK, r := 35) && Found(s, b) == []
    ensures b == 0x10 ==> Step(s, b) == s.(mode := PAT_FEE, r := 104) && Found(s, b) == []
  {
    hide Transition;
    hide LimbBytes;
    hide ValueAt;
    var cls := ByteClass(GroupOf(s.mode), b);
    if cls != 3 { OutputTransition(s.mode, cls, TestsAt(s, b)); }
  }

  lemma TreeParts(bytes: seq<Byte>, at: nat, end: nat)
    requires at <= |bytes| && FrameTree(bytes, at) == Some(end)
    ensures at < |bytes|
    ensures if (bytes[at] / 8) % 2 == 1 then
              bytes[at] < 32 && ReadVlq(bytes, at + 1, MAX_U32).Some? &&
              var (size, start) := ReadVlq(bytes, at + 1, MAX_U32).value; end == start + size && size <= MAX_U32
            else (bytes[at] == 0 && end == at + 36) || (bytes[at] == 0x10 && end == at + 105)
  {
    if (bytes[at] / 8) % 2 != 1 {
      assert StartsWith(bytes, at, P2pkPrefix()) ==> bytes[at..at + 3][0] == bytes[at];
      assert StartsWith(bytes, at, MinerFeeTree()) ==> bytes[at..at + 105][0] == bytes[at];
    }
  }

  lemma ScanTree(sc: Scan, bytes: seq<Byte>, at: nat, end: nat)
    requires Rest(sc.state) && sc.state.mode.TREE? && at <= |bytes| && FrameTree(bytes, at) == Some(end)
    ensures Feed(sc, bytes, at, end) == Scan(sc.state.(mode := V_HEIGHT), sc.found)
  {
    hide Land;
    hide LandAction;
    hide Exit;
    hide ExitAction;
    hide ReadVlq;
    hide Feed;
    hide FrameTree;
    hide Step;
    hide Found;
    TreeParts(bytes, at, end);
    NoneEmitted(sc.found);
    var s, done := sc.state, Scan(sc.state.(mode := V_HEIGHT), sc.found);
    FeedOne(sc, bytes, at);
    TreeStep(s, bytes[at]);
    FeedSplit(sc, bytes, at, at + 1, end);
    if (bytes[at] / 8) % 2 == 1 {
      var sized := Scan(s.(mode := V_TSIZE), sc.found);
      var (size, start) := ReadVlq(bytes, at + 1, MAX_U32).value;
      ScanVlq(sized, bytes, at + 1, MAX_U32);
      OutputLands(sized.state, size);
      FeedSplit(sized, bytes, at + 1, start, end);
      if size == 0 {
        FeedNone(done, bytes, end);
      } else {
        var body := Scan(s.(mode := S_TBODY, r := size), sc.found);
        ScanRun(body, bytes, start, size);
        TreeExits(body.state);
      }
    } else {
      var body := Scan(s.(mode := if bytes[at] == 0 then PAT_P2PK else PAT_FEE, r := if bytes[at] == 0 then 35 else 104), sc.found);
      ScanRun(body, bytes, at + 1, body.state.r);
      TreeExits(body.state);
    }
  }

  lemma {:induction false} ScanTokens(sc: Scan, bytes: seq<Byte>, at: nat, n: nat, end: nat)
    requires Rest(sc.state) && sc.state.mode.V_TIDX? && sc.state.c2 == n && n >= 1
    requires at <= |bytes| && FrameTokens(bytes, at, n) == Some(end)
    ensures Feed(sc, bytes, at, end) == Scan(sc.state.(mode := REGCNT, c2 := 0), sc.found)
    decreases n
  {
    hide Land;
    hide LandAction;
    hide ReadVlq;
    hide Feed;
    NoneEmitted(sc.found);
    var (index, mid) := ReadVlq(bytes, at, MAX_U32).value;
    var (amount, next) := ReadVlq(bytes, mid, MAX_U64).value;
    ScanVlq(sc, bytes, at, MAX_U32);
    OutputLands(sc.state, index);
    var token := Scan(sc.state.(mode := V_TAMT), sc.found);
    ScanVlq(token, bytes, mid, MAX_U64);
    AmountLands(token.state, amount);
    FeedSplit(sc, bytes, at, mid, end);
    FeedSplit(token, bytes, mid, next, end);
    var past := Scan(sc.state.(mode := if n == 1 then REGCNT else V_TIDX, c2 := n - 1), sc.found);
    if n == 1 {
      FeedNone(past, bytes, end);
    } else {
      ScanTokens(past, bytes, next, n - 1, end);
    }
  }

  lemma TokenCountStep(s: ScanState, b: Byte)
    requires Rest(s) && s.mode.TOKCNT?
    ensures Step(s, b) == (if b == 0 then s.(mode := REGCNT) else s.(mode := V_TIDX, c2 := b)) && Found(s, b) == []
  {
    hide Transition;
    hide LimbBytes;
    hide ValueAt;
    OutputTransition(s.mode, ByteClass(GroupOf(s.mode), b), TestsAt(s, b));
  }

  lemma HeadParts(bytes: seq<Byte>, at: nat, tree: seq<Byte>, end: nat) returns (first: nat, height: nat, tokens: nat)
    requires at <= |bytes| && FrameHead(bytes, at) == Some((tree, end))
    ensures ReadVlq(bytes, at, MAX_U64).Some? && first == ReadVlq(bytes, at, MAX_U64).value.1 && FrameTree(bytes, first) == Some(height)
    ensures ReadVlq(bytes, height, MAX_U32).Some? && tokens == ReadVlq(bytes, height, MAX_U32).value.1 < |bytes|
    ensures FrameTokens(bytes, tokens + 1, bytes[tokens]) == Some(end) && tree == bytes[first..height] && tokens + 1 <= end
  {
    first := ReadVlq(bytes, at, MAX_U64).value.1;
    height := FrameTree(bytes, first).value;
    tokens := ReadVlq(bytes, height, MAX_U32).value.1;
  }

  /** An output's value, tree, height and tokens bring the machine to its register count. */
  lemma ScanHead(sc: Scan, bytes: seq<Byte>, at: nat, tree: seq<Byte>, end: nat)
    requires Rest(sc.state) && sc.state.mode.V_VALUE? && sc.state.c2 == 0
    requires at <= |bytes| && FrameHead(bytes, at) == Some((tree, end))
    ensures Feed(sc, bytes, at, end) == Scan(sc.state.(mode := REGCNT), sc.found)
  {
    hide Land;
    hide LandAction;
    hide ReadVlq;
    hide Feed;
    hide FrameHead;
    hide FrameTree;
    hide FrameTokens;
    hide Step;
    hide Found;
    NoneEmitted(sc.found);
    var first, height, tokens := HeadParts(bytes, at, tree, end);
    var s, n := sc.state, bytes[tokens];
    ScanVlq(sc, bytes, at, MAX_U64);
    OutputLands(s, ReadVlq(bytes, at, MAX_U64).value.0);
    var valued := Scan(s.(mode := TREE), sc.found);
    ScanTree(valued, bytes, first, height);
    var framed := Scan(s.(mode := V_HEIGHT), sc.found);
    ScanVlq(framed, bytes, height, MAX_U32);
    OutputLands(framed.state, ReadVlq(bytes, height, MAX_U32).value.0);
    var counted := Scan(s.(mode := TOKCNT), sc.found);
    FeedOne(counted, bytes, tokens);
    TokenCountStep(counted.state, n);
    FeedSplit(sc, bytes, at, first, end);
    FeedSplit(valued, bytes, first, height, end);
    FeedSplit(framed, bytes, height, tokens, end);
    FeedSplit(counted, bytes, tokens, tokens + 1, end);
    if n == 0 {
      assert FrameTokens(bytes, tokens + 1, 0) == Some(tokens + 1) by { TokensNone(bytes, tokens + 1); }
      FeedNone(Scan(s.(mode := REGCNT), sc.found), bytes, end);
    } else {
      ScanTokens(Scan(s.(mode := V_TIDX, c2 := n), sc.found), bytes, tokens + 1, n, end);
    }
  }

  lemma TokensNone(bytes: seq<Byte>, at: nat)
    requires at <= |bytes|
    ensures FrameTokens(bytes, at, 0) == Some(at)
  {
  }

  // ----- an output's registers -----

  /** The state past an output, with one fewer left. */
  function OutPast(s: ScanState): ScanState
    requires s.c1 >= 1
  {
    s.(mode := if s.c1 == 1 then END else V_VALUE, c1 := s.c1 - 1, outputs := s.outputs + 1)
  }

  /** The state past a register: at the next constant, or past the output. */
  function RegPast(s: ScanState, next: Mode): ScanState
    requires s.c1 >= 1 && s.c2 >= 1
  {
    if s.c2 == 1 then OutPast(s.(c2 := 0)) else s.(mode := next, c2 := s.c2 - 1)
  }

  function ShapedAt(s: ScanState): seq<Shaped> {
    if s.sh == 2 then [Shaped(s.outputs, LimbBytes(s.hi, 16) + LimbBytes(s.lo, 16))] else []
  }

  /** What ending a register emits: an output with the shape, where it was the last. */
  function EmittedPast(s: ScanState): seq<Shaped> {
    if s.c2 == 1 then ShapedAt(s) else []
  }

  lemma RegisterCountStep(s: ScanState, b: Byte)
    requires Rest(s) && s.mode.REGCNT? && s.c1 >= 1 && b <= 6
    ensures Step(s, b) == (if b == 0 then OutPast(s.(sh := 0)) else s.(mode := R4_CT, c2 := b, sh := 0)) && Found(s, b) == []
  {
    hide Transition;
    hide LimbBytes;
    hide ValueAt;
    SubjectTransition(s.mode, ByteClass(GroupOf(s.mode), b), TestsAt(s, b));
  }

  lemma SubjectLengthLands(s: ScanState, v: nat)
    requires Rest(s) && s.mode.R4_CLEN? && s.c1 >= 1 && s.c2 >= 1 && s.sh == 0 && v < P
    ensures v == 0 ==> Land(s, v) == RegPast(s, R5_CT) && Emitted(s, LandAction(s, v), Land(s, v)) == []
    ensures v == 32 ==> Land(s, v) == s.(mode := R4_HI, r := 16, hi := 0) && !LandAction(s, v).oend
    ensures v != 0 && v != 32 ==> Land(s, v) == s.(mode := R4_BODY, r := v) && !LandAction(s, v).oend
  {
    hide Transition;
    hide LimbBytes;
    SubjectTransition(s.mode, 0, Tests(s.r == 1, v == 0, v == 32, s.c1 == 1, s.c2 == 1));
  }

  lemma SubjectBodyExits(s: ScanState)
    requires s.a == 0 && s.p == 1 && s.mode.R4_BODY? && s.c1 >= 1 && s.c2 >= 1 && s.sh == 0
    ensures Exit(s) == RegPast(s.(r := 0), R5_CT) && Emitted(s, ExitAction(s), Exit(s)) == []
  {
    hide Transition;
    hide LimbBytes;
    SubjectTransition(s.mode, 0, Tests(true, false, false, s.c1 == 1, s.c2 == 1));
  }

  // ----- the subject's two limbs -----

  /** Bytes read as one big-endian integer. */
  function BigEndian(b: seq<Byte>): nat {
    if b == [] then 0 else 256 * BigEndian(b[..|b| - 1]) + b[|b| - 1]
  }

  lemma {:induction false} BigEndianBound(b: seq<Byte>)
    ensures BigEndian(b) < Pow256(|b|)
  {
    if b != [] { BigEndianBound(b[..|b| - 1]); }
  }

  lemma {:induction false} LimbRoundTrip(b: seq<Byte>)
    ensures LimbBytes(BigEndian(b), |b|) == b
  {
    if b != [] {
      LimbRoundTrip(b[..|b| - 1]);
      var q, low: nat := BigEndian(b[..|b| - 1]), b[|b| - 1];
      assert (256 * q + low) / 256 == q && (256 * q + low) % 256 == low;
    }
  }

  lemma Pow256Of16()
    ensures Pow256(16) == 0x1_0000_0000_0000_0000_0000_0000_0000_0000 < P
  {
    assert Pow256(1) == 256 && Pow256(2) == 0x1_0000 && Pow256(3) == 256 * Pow256(2) && Pow256(4) == 256 * Pow256(3);
    assert Pow256(5) == 256 * Pow256(4) && Pow256(6) == 256 * Pow256(5) && Pow256(7) == 256 * Pow256(6) && Pow256(8) == 256 * Pow256(7);
    assert Pow256(9) == 256 * Pow256(8) && Pow256(10) == 256 * Pow256(9) && Pow256(11) == 256 * Pow256(10) && Pow256(12) == 256 * Pow256(11);
    assert Pow256(13) == 256 * Pow256(12) && Pow256(14) == 256 * Pow256(13) && Pow256(15) == 256 * Pow256(14) && Pow256(16) == 256 * Pow256(15);
  }

  lemma {:induction false} Pow256Monotone(i: nat, j: nat)
    requires i <= j
    ensures Pow256(i) <= Pow256(j)
  {
    if i < j { Pow256Monotone(i, j - 1); }
  }

  lemma LimbFits(b: seq<Byte>)
    requires |b| <= 16
    ensures BigEndian(b) < P
  {
    BigEndianBound(b);
    Pow256Monotone(|b|, 16);
    Pow256Of16();
  }

  lemma HighStep(s: ScanState, b: Byte)
    requires s.a == 0 && s.p == 1 && s.mode.R4_HI? && s.r >= 1 && 256 * s.hi + b < P
    ensures s.r > 1 ==> Step(s, b) == s.(r := s.r - 1, hi := 256 * s.hi + b) && Found(s, b) == []
    ensures s.r == 1 ==> Step(s, b) == s.(mode := R4_LO, r := 16, hi := 256 * s.hi + b, lo := 0) && Found(s, b) == []
  {
    hide Transition;
    hide LimbBytes;
    hide ValueAt;
    SubjectTransition(s.mode, 0, TestsAt(s, b));
  }

  lemma LowStep(s: ScanState, b: Byte)
    requires s.a == 0 && s.p == 1 && s.mode.R4_LO? && s.r >= 1 && s.c1 >= 1 && s.c2 >= 1 && 256 * s.lo + b < P
    ensures s.r > 1 ==> Step(s, b) == s.(r := s.r - 1, lo := 256 * s.lo + b) && Found(s, b) == []
    ensures s.r == 1 ==> Step(s, b) == RegPast(s.(r := 0, lo := 256 * s.lo + b, sh := 1), R5_CT) && Found(s, b) == []
  {
    hide Transition;
    hide LimbBytes;
    hide ValueAt;
    SubjectTransition(s.mode, 0, TestsAt(s, b));
  }

  lemma BigEndianNext(bytes: seq<Byte>, start: nat, k: nat)
    requires start + k < |bytes|
    ensures BigEndian(bytes[start..start + k + 1]) == 256 * BigEndian(bytes[start..start + k]) + bytes[start + k]
  {
    assert bytes[start..start + k + 1][..k] == bytes[start..start + k];
  }

  lemma {:induction false} ScanHigh(sc: Scan, bytes: seq<Byte>, start: nat, k: nat)
    requires sc.state.a == 0 && sc.state.p == 1 && sc.state.mode.R4_HI? && sc.state.r == 16 && sc.state.hi == 0
    requires k < 16 && start + 16 <= |bytes|
    ensures BigEndian(bytes[start..start + k]) < P
    ensures Feed(sc, bytes, start, start + k) == Scan(sc.state.(r := 16 - k, hi := BigEndian(bytes[start..start + k])), sc.found)
  {
    hide Step;
    hide Found;
    LimbFits(bytes[start..start + k]);
    if k == 0 {
      assert bytes[start..start] == [];
    } else {
      ScanHigh(sc, bytes, start, k - 1);
      BigEndianNext(bytes, start, k - 1);
      LimbFits(bytes[start..start + k - 1]);
      HighStep(sc.state.(r := 17 - k, hi := BigEndian(bytes[start..start + k - 1])), bytes[start + k - 1]);
    }
  }

  lemma {:induction false} ScanLow(sc: Scan, bytes: seq<Byte>, start: nat, k: nat)
    requires sc.state.a == 0 && sc.state.p == 1 && sc.state.mode.R4_LO? && sc.state.r == 16 && sc.state.lo == 0
    requires sc.state.c1 >= 1 && sc.state.c2 >= 1 && k < 16 && start + 16 <= |bytes|
    ensures BigEndian(bytes[start..start + k]) < P
    ensures Feed(sc, bytes, start, start + k) == Scan(sc.state.(r := 16 - k, lo := BigEndian(bytes[start..start + k])), sc.found)
  {
    hide Step;
    hide Found;
    LimbFits(bytes[start..start + k]);
    if k == 0 {
      assert bytes[start..start] == [];
    } else {
      ScanLow(sc, bytes, start, k - 1);
      BigEndianNext(bytes, start, k - 1);
      LimbFits(bytes[start..start + k - 1]);
      LowStep(sc.state.(r := 17 - k, lo := BigEndian(bytes[start..start + k - 1])), bytes[start + k - 1]);
    }
  }

  /** The state that has read a 32-byte subject at `start`. */
  function WithSubject(s: ScanState, bytes: seq<Byte>, start: nat): ScanState
    requires start + 32 <= |bytes|
  {
    LimbFits(bytes[start..start + 16]);
    LimbFits(bytes[start + 16..start + 32]);
    s.(hi := BigEndian(bytes[start..start + 16]), lo := BigEndian(bytes[start + 16..start + 32]), sh := 1)
  }

  lemma ScanSubject(sc: Scan, bytes: seq<Byte>, start: nat)
    requires sc.state.a == 0 && sc.state.p == 1 && sc.state.mode.R4_HI? && sc.state.r == 16 && sc.state.hi == 0
    requires sc.state.c1 >= 1 && sc.state.c2 >= 1 && start + 32 <= |bytes|
    ensures Feed(sc, bytes, start, start + 32) == Scan(RegPast(WithSubject(sc.state.(r := 0), bytes, start), R5_CT), sc.found)
  {
    hide Step;
    hide Found;
    hide BigEndian;
    NoneEmitted(sc.found);
    ScanHigh(sc, bytes, start, 15);
    BigEndianNext(bytes, start, 15);
    LimbFits(bytes[start..start + 16]);
    var high := sc.state.(r := 1, hi := BigEndian(bytes[start..start + 15]));
    HighStep(high, bytes[start + 15]);
    var low := Scan(sc.state.(mode := R4_LO, r := 16, hi := BigEndian(bytes[start..start + 16]), lo := 0), sc.found);
    ScanLow(low, bytes, start + 16, 15);
    BigEndianNext(bytes, start + 16, 15);
    LimbFits(bytes[start + 16..start + 32]);
    LowStep(low.state.(r := 1, lo := BigEndian(bytes[start + 16..start + 31])), bytes[start + 31]);
    FeedOne(Scan(high, sc.found), bytes, start + 15);
    FeedSplit(sc, bytes, start, start + 15, start + 16);
    FeedSplit(sc, bytes, start, start + 16, start + 32);
    RegPastOf(low.state, R5_CT);
  }

  lemma RegPastOf(s: ScanState, next: Mode)
    requires s.c1 >= 1 && s.c2 >= 1
    ensures forall m: Mode :: RegPast(s.(mode := m), next) == RegPast(s, next)
  {
  }

  /** R4: its bytes go to the subject's limbs exactly where there are 32. */
  lemma ScanR4(sc: Scan, bytes: seq<Byte>, at: nat, end: nat, start: nat)
    requires Rest(sc.state) && sc.state.mode.R4_CT? && sc.state.c1 >= 1 && sc.state.c2 >= 1 && sc.state.sh == 0
    requires at <= |bytes| && FrameColl(bytes, at) == Some(end)
    requires ReadVlq(bytes, at + 1, MAX_U16).Some? && start == ReadVlq(bytes, at + 1, MAX_U16).value.1
    ensures start <= end
    ensures Feed(sc, bytes, at, end) ==
            Scan(RegPast(if end == start + 32 then WithSubject(sc.state, bytes, start) else sc.state, R5_CT), sc.found)
  {
    hide Land;
    hide LandAction;
    hide Exit;
    hide ExitAction;
    hide ReadVlq;
    hide Feed;
    hide FrameColl;
    hide Step;
    hide Found;
    hide RegPast;
    hide BigEndian;
    CollParts(bytes, at);
    NoneEmitted(sc.found);
    var s := sc.state;
    var (length, _) := ReadVlq(bytes, at + 1, MAX_U16).value;
    FeedOne(sc, bytes, at);
    OneByte(s, bytes[at]);
    var sized := Scan(s.(mode := R4_CLEN), sc.found);
    ScanVlq(sized, bytes, at + 1, MAX_U16);
    SubjectLengthLands(sized.state, length);
    FeedSplit(sc, bytes, at, at + 1, end);
    FeedSplit(sized, bytes, at + 1, start, end);
    RegPastOf(s, R5_CT);
    if length == 0 {
      FeedNone(Scan(RegPast(s, R5_CT), sc.found), bytes, end);
    } else if length == 32 {
      ScanSubject(Scan(s.(mode := R4_HI, r := 16, hi := 0), sc.found), bytes, start);
      RegPastOf(WithSubject(s, bytes, start), R5_CT);
    } else {
      var body := Scan(s.(mode := R4_BODY, r := length), sc.found);
      ScanRun(body, bytes, start, length);
      SubjectBodyExits(body.state);
    }
  }

  // ----- R5 and the registers after it -----

  /** R5 completes the shape where R4 began it; a later register keeps it. */
  function TailPast(s: ScanState): (t: ScanState)
    ensures t.c1 == s.c1 && t.c2 == s.c2
  {
    if s.mode.R5_CT? || s.mode.R5_CLEN? || s.mode.R5_BODY? then s.(sh := Mod(2 * s.sh)) else s
  }

  lemma TailLengthLands(s: ScanState, v: nat)
    requires Rest(s) && (s.mode.R5_CLEN? || s.mode.RX_CLEN?) && s.c1 >= 1 && s.c2 >= 1 && v < P
    ensures v == 0 ==> Land(s, v) == RegPast(TailPast(s), RX_CT) && Emitted(s, LandAction(s, v), Land(s, v)) == EmittedPast(TailPast(s))
    ensures v != 0 ==> Land(s, v) == s.(mode := if s.mode.R5_CLEN? then R5_BODY else RX_BODY, r := v) && !LandAction(s, v).oend
  {
    hide Transition;
    hide LimbBytes;
    TailTransition(s.mode, 0, Tests(s.r == 1, v == 0, v == 32, s.c1 == 1, s.c2 == 1));
  }

  lemma TailBodyExits(s: ScanState)
    requires s.a == 0 && s.p == 1 && (s.mode.R5_BODY? || s.mode.RX_BODY?) && s.c1 >= 1 && s.c2 >= 1
    ensures Exit(s) == RegPast(TailPast(s.(r := 0)), RX_CT) && Emitted(s, ExitAction(s), Exit(s)) == EmittedPast(TailPast(s.(r := 0)))
  {
    hide Transition;
    hide LimbBytes;
    TailTransition(s.mode, 0, Tests(true, false, false, s.c1 == 1, s.c2 == 1));
  }

  lemma TailPastOf(s: ScanState, m: Mode)
    requires s.c1 >= 1 && s.c2 >= 1
    requires (s.mode.R5_CT? && (m.R5_CLEN? || m.R5_BODY?)) || (s.mode.RX_CT? && (m.RX_CLEN? || m.RX_BODY?))
    ensures RegPast(TailPast(s.(mode := m)), RX_CT) == RegPast(TailPast(s), RX_CT)
    ensures EmittedPast(TailPast(s.(mode := m))) == EmittedPast(TailPast(s))
  {
    hide LimbBytes;
  }

  lemma ScanTail(sc: Scan, bytes: seq<Byte>, at: nat, end: nat)
    requires Rest(sc.state) && (sc.state.mode.R5_CT? || sc.state.mode.RX_CT?) && sc.state.c1 >= 1 && sc.state.c2 >= 1
    requires at <= |bytes| && FrameColl(bytes, at) == Some(end)
    ensures Feed(sc, bytes, at, end) == Scan(RegPast(TailPast(sc.state), RX_CT), sc.found + EmittedPast(TailPast(sc.state)))
  {
    hide Land;
    hide LandAction;
    hide Exit;
    hide ExitAction;
    hide ReadVlq;
    hide Feed;
    hide FrameColl;
    hide Step;
    hide Found;
    hide RegPast;
    hide TailPast;
    hide EmittedPast;
    hide Emitted;
    CollParts(bytes, at);
    NoneEmitted(sc.found);
    var s := sc.state;
    var (length, start) := ReadVlq(bytes, at + 1, MAX_U16).value;
    var clen, body := if s.mode.R5_CT? then R5_CLEN else RX_CLEN, if s.mode.R5_CT? then R5_BODY else RX_BODY;
    FeedOne(sc, bytes, at);
    OneRegisterByte(s, bytes[at]);
    var sized := Scan(s.(mode := clen), sc.found);
    ScanVlq(sized, bytes, at + 1, MAX_U16);
    TailLengthLands(sized.state, length);
    FeedSplit(sc, bytes, at, at + 1, end);
    FeedSplit(sized, bytes, at + 1, start, end);
    TailPastOf(s, clen);
    TailPastOf(s, body);
    if length == 0 {
      FeedNone(Scan(RegPast(TailPast(s), RX_CT), sc.found + EmittedPast(TailPast(s))), bytes, end);
    } else {
      assert Emitted(sized.state, LandAction(sized.state, length), Land(sized.state, length)) == [] by { NotEnded(sized.state, LandAction(sized.state, length), Land(sized.state, length)); }
      var run := Scan(s.(mode := body, r := length), sc.found);
      ScanRun(run, bytes, start, length);
      TailBodyExits(run.state);
      assert run.state.(r := 0) == s.(mode := body);
    }
  }

  lemma NotEnded(before: ScanState, x: Action, after: ScanState)
    requires !x.oend
    ensures Emitted(before, x, after) == []
  {
  }

  /** The registers after R5 keep the shape, and the last of them ends the output. */
  lemma {:induction false} ScanRest(sc: Scan, bytes: seq<Byte>, at: nat, n: nat, end: nat, done: seq<seq<Byte>>)
    requires Rest(sc.state) && sc.state.mode.RX_CT? && sc.state.c1 >= 1 && sc.state.c2 == n && n >= 1
    requires at <= |bytes| && FrameRegisters(bytes, at, n, done).Some? && FrameRegisters(bytes, at, n, done).value.1 == end
    ensures Feed(sc, bytes, at, end) == Scan(OutPast(sc.state.(c2 := 0)), sc.found + ShapedAt(sc.state))
    decreases n
  {
    hide FrameColl;
    hide Feed;
    hide LimbBytes;
    hide OutPast;
    var next := FrameColl(bytes, at).value;
    ScanTail(sc, bytes, at, next);
    FeedSplit(sc, bytes, at, next, end);
    NoneEmitted(sc.found);
    if n == 1 {
      FeedNone(Scan(OutPast(sc.state.(c2 := 0)), sc.found + ShapedAt(sc.state)), bytes, end);
    } else {
      var past := sc.state.(c2 := n - 1);
      ScanRest(Scan(past, sc.found), bytes, next, n - 1, end, done + [bytes[at..next]]);
      assert past.(c2 := 0) == sc.state.(c2 := 0);
    }
  }

  // ----- the shape as the framer reads it -----

  /** A length of at most 65,535 takes at most three bytes. */
  lemma VlqShort(bytes: seq<Byte>, at: nat, k: nat, value: nat)
    requires VlqFrom(bytes, at, k, value, MAX_U16).Some?
    ensures k <= 2
  {
    if k > 2 {
      VlqAtLeast(bytes, at, k, value, MAX_U16);
      Pow128Above(k);
    }
  }

  lemma {:induction false} LengthAgrees(bytes: seq<Byte>, from: nat, at: nat, k: nat, value: nat, own: seq<Byte>)
    requires from <= at && from + |own| <= |bytes| && (forall i :: 0 <= i < |own| ==> own[i] == bytes[from + i])
    requires VlqFrom(bytes, at, k, value, MAX_U16).Some?
    requires VlqFrom(bytes, at, k, value, MAX_U16).value.1 <= from + |own|
    ensures var (v, start) := VlqFrom(bytes, at, k, value, MAX_U16).value;
            start >= from && LengthFrom(own, at - from, k, value) == Some((v, start - from))
    decreases 10 - k
  {
    hide Digit;
    VlqShort(bytes, at, k, value);
    assert at < from + |own| && own[at - from] == bytes[at];
    if bytes[at] >= 128 {
      LengthAgrees(bytes, from, at + 1, k + 1, value + Digit(bytes[at], k), own);
    }
  }

  lemma {:induction false} Pow128Above(k: nat)
    requires k > 2
    ensures Pow128(k) > MAX_U16
  {
    if k == 3 {
      assert Pow128(3) == 128 * Pow128(2) && Pow128(2) == 128 * Pow128(1) && Pow128(1) == 128;
    } else {
      Pow128Above(k - 1);
    }
  }

  /** A framed constant's bytes are its content. */
  lemma CollContent(bytes: seq<Byte>, at: nat, end: nat, start: nat)
    requires at <= |bytes| && FrameColl(bytes, at) == Some(end)
    requires ReadVlq(bytes, at + 1, MAX_U16).Some? && start == ReadVlq(bytes, at + 1, MAX_U16).value.1
    ensures at <= start <= end <= |bytes| && CollBytes(bytes[at..end]) == Some(bytes[start..end])
  {
    hide LengthFrom;
    hide VlqFrom;
    CollParts(bytes, at);
    LengthAgrees(bytes, at, at + 1, 0, 0, bytes[at..end]);
    assert bytes[at..end][start - at..] == bytes[start..end];
  }

  lemma {:induction false} RegistersKept(bytes: seq<Byte>, at: nat, n: nat, done: seq<seq<Byte>>)
    requires at <= |bytes| && FrameRegisters(bytes, at, n, done).Some?
    ensures done <= FrameRegisters(bytes, at, n, done).value.0
    decreases n
  {
    hide FrameColl;
    if n > 0 { RegistersKept(bytes, FrameColl(bytes, at).value, n - 1, done + [bytes[at..FrameColl(bytes, at).value]]); }
  }

  /** What an output's shape adds to the framer's reading. */
  function ShapedOutput(index: nat, registers: seq<seq<Byte>>): seq<Shaped> {
    var shape := ShapeOf(Output([], registers));
    if shape.Some? then [Shaped(index, shape.value.0)] else []
  }

  /** A subject read into the limbs comes back as its own bytes. */
  lemma SubjectEmitted(s: ScanState, bytes: seq<Byte>, start: nat)
    requires start + 32 <= |bytes|
    ensures LimbBytes(WithSubject(s, bytes, start).hi, 16) + LimbBytes(WithSubject(s, bytes, start).lo, 16) == bytes[start..start + 32]
  {
    LimbRoundTrip(bytes[start..start + 16]);
    LimbRoundTrip(bytes[start + 16..start + 32]);
    assert bytes[start..start + 32] == bytes[start..start + 16] + bytes[start + 16..start + 32];
  }

  lemma NoShape(bytes: seq<Byte>, at: nat, end: nat, start: nat, registers: seq<seq<Byte>>, index: nat)
    requires at <= |bytes| && FrameColl(bytes, at) == Some(end)
    requires ReadVlq(bytes, at + 1, MAX_U16).Some? && start == ReadVlq(bytes, at + 1, MAX_U16).value.1
    requires |registers| >= 1 && registers[0] == bytes[at..end] && (|registers| == 1 || end != start + 32)
    ensures ShapedOutput(index, registers) == []
  {
    hide CollBytes;
    CollContent(bytes, at, end, start);
  }

  lemma FullShape(bytes: seq<Byte>, at: nat, mid: nat, start: nat, end: nat, registers: seq<seq<Byte>>, index: nat)
    requires at <= |bytes| && FrameColl(bytes, at) == Some(mid) && FrameColl(bytes, mid) == Some(end)
    requires ReadVlq(bytes, at + 1, MAX_U16).Some? && start == ReadVlq(bytes, at + 1, MAX_U16).value.1
    requires |registers| >= 2 && registers[0] == bytes[at..mid] && registers[1] == bytes[mid..end] && mid == start + 32
    ensures start + 32 <= |bytes| && ShapedOutput(index, registers) == [Shaped(index, bytes[start..start + 32])]
  {
    hide CollBytes;
    CollContent(bytes, at, mid, start);
    CollParts(bytes, mid);
    CollContent(bytes, mid, end, ReadVlq(bytes, mid + 1, MAX_U16).value.1);
  }

  // ----- outputs -----

  lemma RegisterParts(bytes: seq<Byte>, at: nat, n: nat, done: seq<seq<Byte>>)
    requires at <= |bytes| && n >= 1 && FrameRegisters(bytes, at, n, done).Some?
    ensures FrameColl(bytes, at).Some?
    ensures var next := FrameColl(bytes, at).value;
            FrameRegisters(bytes, next, n - 1, done + [bytes[at..next]]) == FrameRegisters(bytes, at, n, done) &&
            |FrameRegisters(bytes, at, n, done).value.0| == |done| + n && |FrameRegisters(bytes, at, n, done).value.0| > |done| &&
            FrameRegisters(bytes, at, n, done).value.0[|done|] == bytes[at..next]
  {
    hide FrameColl;
    var next := FrameColl(bytes, at).value;
    RegistersKept(bytes, next, n - 1, done + [bytes[at..next]]);
  }

  /** An output's registers bring the machine past it, emitting exactly its shape. */
  lemma ScanRegisters(sc: Scan, bytes: seq<Byte>, at: nat, n: nat, registers: seq<seq<Byte>>, end: nat)
    requires Rest(sc.state) && sc.state.mode.R4_CT? && sc.state.c1 >= 1 && sc.state.c2 == n && n >= 1 && sc.state.sh == 0
    requires at <= |bytes| && FrameRegisters(bytes, at, n, []) == Some((registers, end))
    ensures var after := Feed(sc, bytes, at, end);
            after.found == sc.found + ShapedOutput(sc.state.outputs, registers) &&
            Rest(after.state) && after.state.mode == OutPast(sc.state).mode && after.state.c1 == sc.state.c1 - 1 &&
            after.state.c2 == 0 && after.state.outputs == sc.state.outputs + 1
  {
    hide FrameRegisters;
    hide FrameColl;
    hide Feed;
    hide ReadVlq;
    hide ShapedOutput;
    hide LimbBytes;
    hide BigEndian;
    RegisterParts(bytes, at, n, []);
    var mid := FrameColl(bytes, at).value;
    CollParts(bytes, at);
    var start := ReadVlq(bytes, at + 1, MAX_U16).value.1;
    var full := mid == start + 32;
    NoneEmitted(sc.found);
    ScanR4(sc, bytes, at, mid, start);
    var s := if full then WithSubject(sc.state, bytes, start) else sc.state;
    assert [] + [bytes[at..mid]] == [bytes[at..mid]];
    RegistersEnd(bytes, mid, n - 1, [bytes[at..mid]]);
    FeedSplit(sc, bytes, at, mid, end);
    if n == 1 {
      RegistersNone(bytes, mid, [bytes[at..mid]]);
      FeedNone(Scan(OutPast(s.(c2 := 0)), sc.found), bytes, end);
      NoShape(bytes, at, mid, start, registers, sc.state.outputs);
    } else {
      ScanLater(Scan(s.(mode := R5_CT, c2 := n - 1), sc.found), bytes, mid, n - 1, end, [bytes[at..mid]]);
      RegisterParts(bytes, mid, n - 1, [bytes[at..mid]]);
      if full {
        FullShape(bytes, at, mid, start, FrameColl(bytes, mid).value, registers, sc.state.outputs);
        SubjectEmitted(sc.state, bytes, start);
      } else {
        NoShape(bytes, at, mid, start, registers, sc.state.outputs);
      }
    }
  }

  lemma RegistersEnd(bytes: seq<Byte>, at: nat, n: nat, done: seq<seq<Byte>>)
    requires at <= |bytes| && FrameRegisters(bytes, at, n, done).Some?
    ensures at <= FrameRegisters(bytes, at, n, done).value.1 <= |bytes|
  {
  }

  lemma RegistersNone(bytes: seq<Byte>, at: nat, done: seq<seq<Byte>>)
    requires at <= |bytes|
    ensures FrameRegisters(bytes, at, 0, done) == Some((done, at))
  {
  }

  /** R5 and what follows it. */
  lemma ScanLater(sc: Scan, bytes: seq<Byte>, at: nat, n: nat, end: nat, done: seq<seq<Byte>>)
    requires Rest(sc.state) && sc.state.mode.R5_CT? && sc.state.c1 >= 1 && sc.state.c2 == n && n >= 1 && sc.state.sh <= 1
    requires at <= |bytes| && FrameRegisters(bytes, at, n, done).Some? && FrameRegisters(bytes, at, n, done).value.1 == end
    ensures Feed(sc, bytes, at, end) == Scan(OutPast(sc.state.(c2 := 0, sh := 2 * sc.state.sh)), sc.found + ShapedAt(sc.state.(sh := 2 * sc.state.sh)))
  {
    hide FrameRegisters;
    hide FrameColl;
    hide Feed;
    hide LimbBytes;
    NoneEmitted(sc.found);
    RegisterParts(bytes, at, n, done);
    var next, s := FrameColl(bytes, at).value, sc.state.(sh := 2 * sc.state.sh);
    ScanTail(sc, bytes, at, next);
    RegistersEnd(bytes, next, n - 1, done + [bytes[at..next]]);
    FeedSplit(sc, bytes, at, next, end);
    if n == 1 {
      RegistersNone(bytes, next, done + [bytes[at..next]]);
      FeedNone(Scan(OutPast(s.(c2 := 0)), sc.found + ShapedAt(s)), bytes, end);
    } else {
      ScanRest(Scan(s.(mode := RX_CT, c2 := n - 1), sc.found), bytes, next, n - 1, end, done + [bytes[at..next]]);
    }
  }

  lemma OutputParts(bytes: seq<Byte>, at: nat, output: Output, end: nat) returns (head: nat)
    requires at <= |bytes| && FrameOutput(bytes, at) == Some((output, end))
    ensures at < head < |bytes| && FrameHead(bytes, at) == Some((output.tree, head)) && bytes[head] <= 6 && head + 1 <= end <= |bytes|
    ensures FrameRegisters(bytes, head + 1, bytes[head], []) == Some((output.registers, end))
  {
    hide FrameHead;
    hide FrameRegisters;
    head := FrameHead(bytes, at).value.1;
    RegistersEnd(bytes, head + 1, bytes[head], []);
  }

  lemma ScanOutput(sc: Scan, bytes: seq<Byte>, at: nat, output: Output, end: nat)
    requires Rest(sc.state) && sc.state.mode.V_VALUE? && sc.state.c1 >= 1 && sc.state.c2 == 0
    requires at <= |bytes| && FrameOutput(bytes, at) == Some((output, end))
    ensures var after := Feed(sc, bytes, at, end);
            after.found == sc.found + ShapedOutput(sc.state.outputs, output.registers) &&
            Rest(after.state) && after.state.mode == OutPast(sc.state).mode && after.state.c1 == sc.state.c1 - 1 &&
            after.state.c2 == 0 && after.state.outputs == sc.state.outputs + 1
  {
    hide FrameOutput;
    hide FrameHead;
    hide FrameRegisters;
    hide Feed;
    hide Step;
    hide Found;
    hide ShapeOf;
    NoneEmitted(sc.found);
    var head := OutputParts(bytes, at, output, end);
    var s, n := sc.state, bytes[head];
    ScanHead(sc, bytes, at, output.tree, head);
    var counted := Scan(s.(mode := REGCNT), sc.found);
    FeedOne(counted, bytes, head);
    RegisterCountStep(counted.state, n);
    FeedSplit(sc, bytes, at, head, end);
    FeedSplit(counted, bytes, head, head + 1, end);
    if n == 0 {
      RegistersNone(bytes, head + 1, []);
      NothingShaped(s.outputs);
      FeedNone(Scan(OutPast(counted.state.(sh := 0)), sc.found), bytes, end);
    } else {
      ScanRegisters(Scan(s.(mode := R4_CT, c2 := n, sh := 0), sc.found), bytes, head + 1, n, output.registers, end);
    }
  }

  lemma NothingShaped(index: nat)
    ensures ShapedOutput(index, []) == []
  {
  }

  lemma ShapedInNext(done: seq<Output>, output: Output)
    ensures ShapedIn(done + [output]) == ShapedIn(done) + ShapedOutput(|done|, output.registers)
  {
    hide ShapeOf;
    assert (done + [output])[..|done|] == done;
    ShapedSame(|done|, output);
  }

  lemma ShapedSame(index: nat, output: Output)
    ensures ShapedOutput(index, output.registers) == (var shape := ShapeOf(output); if shape.Some? then [Shaped(index, shape.value.0)] else [])
  {
    hide CollBytes;
  }

  lemma {:induction false} ScanOutputs(sc: Scan, bytes: seq<Byte>, at: nat, n: nat, done: seq<Output>, outputs: seq<Output>, end: nat)
    requires Rest(sc.state) && sc.state.c2 == 0 && sc.state.c1 == n && sc.state.outputs == |done| && sc.found == ShapedIn(done)
    requires sc.state.mode == if n == 0 then END else V_VALUE
    requires at <= |bytes| && FrameOutputs(bytes, at, n, done) == Some((outputs, end))
    ensures Feed(sc, bytes, at, end).found == ShapedIn(outputs)
    decreases n
  {
    hide FrameOutput;
    hide Feed;
    hide ShapedOutput;
    hide ShapedIn;
    if n == 0 {
      FeedNone(sc, bytes, end);
    } else {
      var (output, next) := FrameOutput(bytes, at).value;
      ScanOutput(sc, bytes, at, output, next);
      FeedSplit(sc, bytes, at, next, end);
      ShapedInNext(done, output);
      ScanOutputs(Feed(sc, bytes, at, next), bytes, next, n - 1, done + [output], outputs, end);
    }
  }

  // ----- a whole transaction -----

  lemma CountLands(s: ScanState, v: nat)
    requires Rest(s) && v <= MAX_U16
    ensures s.mode.V_IN? ==> Land(s, v) == (if v == 0 then s.(mode := V_DI, c1 := 0) else s.(mode := S_BOX, r := 32, c1 := v)) && !LandAction(s, v).oend
    ensures s.mode.V_OUT? ==> Land(s, v) == s.(mode := if v == 0 then END else V_VALUE, c1 := v) && !LandAction(s, v).oend
  {
    hide Transition;
    if s.mode.V_IN? { InputTransition(s.mode, 0, Tests(s.r == 1, v == 0, v == 32, s.c1 == 1, s.c2 == 1)); }
    if s.mode.V_OUT? { ListTransition(s.mode, 0, Tests(s.r == 1, v == 0, v == 32, s.c1 == 1, s.c2 == 1)); }
  }

  /** From its start the machine passes a transaction's inputs. */
  lemma ScanSpent(bytes: seq<Byte>, end: nat)
    requires ReadVlq(bytes, 0, MAX_U16).Some?
    requires FrameInputs(bytes, ReadVlq(bytes, 0, MAX_U16).value.1, ReadVlq(bytes, 0, MAX_U16).value.0) == Some(end)
    ensures Feed(Scan(START, []), bytes, 0, end) == Scan(START.(mode := V_DI), [])
  {
    hide Land;
    hide LandAction;
    hide ReadVlq;
    hide Feed;
    hide FrameInputs;
    var (inputs, start) := ReadVlq(bytes, 0, MAX_U16).value;
    NoneEmitted([]);
    ScanVlq(Scan(START, []), bytes, 0, MAX_U16);
    CountLands(START, inputs);
    InputsEnd(bytes, start, inputs);
    FeedSplit(Scan(START, []), bytes, 0, start, end);
    if inputs == 0 {
      FeedNone(Scan(START.(mode := V_DI), []), bytes, end);
    } else {
      ScanInputs(Scan(START.(mode := S_BOX, r := 32, c1 := inputs), []), bytes, start, inputs, end);
    }
  }

  lemma InputsEnd(bytes: seq<Byte>, at: nat, n: nat)
    requires at <= |bytes| && FrameInputs(bytes, at, n).Some?
    ensures at <= FrameInputs(bytes, at, n).value <= |bytes| && (n == 0 ==> FrameInputs(bytes, at, n).value == at)
  {
  }

  lemma FrameParts(bytes: seq<Byte>) returns (spent: nat, dataInputs: nat, tokenIds: nat)
    requires Frame(bytes).Some?
    ensures ReadVlq(bytes, 0, MAX_U16).Some?
    ensures FrameInputs(bytes, ReadVlq(bytes, 0, MAX_U16).value.1, ReadVlq(bytes, 0, MAX_U16).value.0) == Some(spent)
    ensures FrameIds(bytes, spent, MAX_U16) == Some(dataInputs) && FrameIds(bytes, dataInputs, MAX_U32) == Some(tokenIds)
    ensures ReadVlq(bytes, tokenIds, MAX_U16).Some?
    ensures FrameOutputs(bytes, ReadVlq(bytes, tokenIds, MAX_U16).value.1, ReadVlq(bytes, tokenIds, MAX_U16).value.0, []) ==
            Some((Frame(bytes).value, |bytes|))
    ensures spent <= dataInputs <= tokenIds < |bytes|
  {
    hide ReadVlq;
    hide FrameInputs;
    hide FrameIds;
    hide FrameOutputs;
    spent := FrameInputs(bytes, ReadVlq(bytes, 0, MAX_U16).value.1, ReadVlq(bytes, 0, MAX_U16).value.0).value;
    dataInputs := FrameIds(bytes, spent, MAX_U16).value;
    tokenIds := FrameIds(bytes, dataInputs, MAX_U32).value;
  }

  /** The two readers agree: whatever the framer accepts, the machine finds its shaped outputs and no others. */
  lemma ScanAgrees(bytes: seq<Byte>)
    requires Frame(bytes).Some?
    ensures ScanAll(bytes) == ShapedIn(Frame(bytes).value)
  {
    hide Land;
    hide LandAction;
    hide ReadVlq;
    hide Feed;
    hide Frame;
    hide FrameInputs;
    hide FrameIds;
    hide FrameOutputs;
    hide ShapedIn;
    var spent, dataInputs, tokenIds := FrameParts(bytes);
    var (count, body) := ReadVlq(bytes, tokenIds, MAX_U16).value;
    var sc, n := Scan(START, []), |bytes|;
    NoneEmitted([]);
    ScanSpent(bytes, spent);
    var inputs := Scan(START.(mode := V_DI), []);
    ScanIds(inputs, bytes, spent, MAX_U16, dataInputs);
    var tokens := Scan(START.(mode := V_TOK), []);
    ScanIds(tokens, bytes, dataInputs, MAX_U32, tokenIds);
    var counted := Scan(START.(mode := V_OUT), []);
    ScanVlq(counted, bytes, tokenIds, MAX_U16);
    CountLands(counted.state, count);
    FeedSplit(sc, bytes, 0, spent, n);
    FeedSplit(inputs, bytes, spent, dataInputs, n);
    FeedSplit(tokens, bytes, dataInputs, tokenIds, n);
    FeedSplit(counted, bytes, tokenIds, body, n);
    assert ShapedIn([]) == [] by { NoOutputs(); }
    ScanOutputs(Scan(START.(mode := if count == 0 then END else V_VALUE, c1 := count), []), bytes, body, count, [], Frame(bytes).value, n);
  }

  lemma NoOutputs()
    ensures ShapedIn([]) == []
  {
  }
}
