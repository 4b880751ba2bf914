/**
 The scan that a circuit repeats: a machine that reads a byte at a time and keeps its registers in the
 BN254 scalar field. `Transition` says what it does; the machine itself looks this up in packed tables,
 where every distinct action stands once.
 */
module ErgoScan {
  type Byte = x: int | 0 <= x < 256

  const P: int := 21888242871839275222246405745257275088548364400416034343698204186575808495617

  type Field = x: int | 0 <= x < P

  function Mod(x: int): Field {
    x % P
  }

  datatype Mode =
    | V_IN | S_BOX | PROOF | EXTCNT | E_KEY | E_CT | E_CLEN | E_BODY | V_DI | S_DI
    | V_TOK | S_TOK | V_OUT | V_VALUE | TREE | V_TSIZE | S_TBODY | PAT_P2PK | PAT_FEE | V_HEIGHT | TOKCNT | V_TIDX
    | V_TAMT | REGCNT | R4_CT | R4_CLEN | R4_HI | R4_LO | R4_BODY | R5_CT | R5_CLEN | R5_BODY | RX_CT | RX_CLEN
    | RX_BODY | END | ERR

  /** A mode's number is its place in this list. */
  const MODES: seq<Mode> :=
    [V_IN, S_BOX, PROOF, EXTCNT, E_KEY, E_CT, E_CLEN, E_BODY, V_DI, S_DI,
     V_TOK, S_TOK, V_OUT, V_VALUE, TREE, V_TSIZE, S_TBODY, PAT_P2PK, PAT_FEE, V_HEIGHT, TOKCNT, V_TIDX,
     V_TAMT, REGCNT, R4_CT, R4_CLEN, R4_HI, R4_LO, R4_BODY, R5_CT, R5_CLEN, R5_BODY, RX_CT, RX_CLEN,
     RX_BODY, END, ERR]

  /** A mode's number. */
  function NumberOf(m: Mode): (n: nat)
    ensures n < |MODES| && MODES[n] == m
  {
    match m
    case V_IN => 0
    case S_BOX => 1
    case PROOF => 2
    case EXTCNT => 3
    case E_KEY => 4
    case E_CT => 5
    case E_CLEN => 6
    case E_BODY => 7
    case V_DI => 8
    case S_DI => 9
    case V_TOK => 10
    case S_TOK => 11
    case V_OUT => 12
    case V_VALUE => 13
    case TREE => 14
    case V_TSIZE => 15
    case S_TBODY => 16
    case PAT_P2PK => 17
    case PAT_FEE => 18
    case V_HEIGHT => 19
    case TOKCNT => 20
    case V_TIDX => 21
    case V_TAMT => 22
    case REGCNT => 23
    case R4_CT => 24
    case R4_CLEN => 25
    case R4_HI => 26
    case R4_LO => 27
    case R4_BODY => 28
    case R5_CT => 29
    case R5_CLEN => 30
    case R5_BODY => 31
    case RX_CT => 32
    case RX_CLEN => 33
    case RX_BODY => 34
    case END => 35
    case ERR => 36
  }

  datatype Group = ANY | VLQ | ZERO | EXT | CT | FIRST | TOK | REG | LAST

  function GroupOf(m: Mode): Group {
    match m
    case V_IN | E_CLEN | V_DI | V_OUT | R4_CLEN | R5_CLEN | RX_CLEN | V_TOK | V_TSIZE | V_HEIGHT | V_TIDX | V_VALUE | V_TAMT => VLQ
    case PROOF => ZERO
    case EXTCNT => EXT
    case E_CT | R4_CT | R5_CT | RX_CT => CT
    case TREE => FIRST
    case TOKCNT => TOK
    case REGCNT => REG
    case END => LAST
    case _ => ANY
  }

  /** A byte's class in a group; the modes of the group refuse class 3. */
  function ByteClass(g: Group, b: Byte): (cls: nat)
    ensures cls <= 3
  {
    match g
    case ANY => 0
    case VLQ => if b >= 128 then 1 else 0
    case ZERO => if b == 0 then 0 else 3
    case EXT => if b == 0 then 0 else if b < 128 then 1 else 3
    case CT => if b == 0x0e then 0 else 3
    case FIRST => if b >= 32 then 3 else if (b / 8) % 2 == 1 then 0 else if b == 0 then 1 else if b == 0x10 then 2 else 3
    case TOK => if b == 0 then 0 else 1
    case REG => if b == 0 then 0 else if b <= 6 then 1 else 3
    case LAST => 3
  }

  function Continues(g: Group, b: Byte): nat {
    if g.VLQ? && b >= 128 then 1 else 0
  }

  /** A register's affine update; `Coefficients` gives its three coefficients as the tables list them. */
  datatype Lin = KEEP | DEC | DOUBLE | APPEND | TAKE | TAKE32 | SET(c: Field)

  datatype Affine = Affine(k: int, c: int, v: int)

  /** `k` times the register, plus `c`, plus `v` times what the byte brings. */
  function Coefficients(u: Lin): Affine {
    match u
    case KEEP => Affine(1, 0, 0)
    case DEC => Affine(1, -1, 0)
    case DOUBLE => Affine(2, 0, 0)
    case APPEND => Affine(256, 0, 1)
    case TAKE => Affine(0, 0, 1)
    case TAKE32 => Affine(0, 0, 32)
    case SET(c) => Affine(0, c, 0)
  }

  /**
   What a step does to the mode and to each register. `r` and `c1` may take the integer that this byte
   completes, `c2` and the two limbs the byte itself. `vk` says that the integer goes on after this byte,
   `oend` that the byte is the last of an output.
   */
  datatype Action = Action(next: Mode, r: Lin, c1: Lin, c2: Lin, vk: bool, oend: bool, hi: Lin, lo: Lin, sh: Lin)

  datatype Tests = Tests(zR: bool, zV: bool, z32: bool, zC1: bool, zC2: bool)

  function Move(m: Mode, r: Lin, c1: Lin, c2: Lin): Action {
    Action(m, r, c1, c2, false, false, KEEP, KEEP, KEEP)
  }

  function Go(m: Mode): Action {
    Move(m, KEEP, KEEP, KEEP)
  }

  function Run(m: Mode, exit: Mode, e: Tests): Action {
    Move(if e.zR then exit else m, DEC, KEEP, KEEP)
  }

  function NextInput(r: Lin, c2: Lin, e: Tests): Action {
    if e.zC1 then Move(V_DI, r, DEC, c2) else Move(S_BOX, SET(32), DEC, c2)
  }

  function ExtDone(r: Lin, e: Tests): Action {
    if e.zC2 then NextInput(r, DEC, e) else Move(E_KEY, r, KEEP, DEC)
  }

  function OutDone(r: Lin, c2: Lin, lo: Lin, sh: Lin, e: Tests): Action {
    Action(if e.zC1 then END else V_VALUE, r, DEC, c2, false, true, KEEP, lo, sh)
  }

  function RegDone(r: Lin, lo: Lin, sh: Lin, e: Tests, nextConstant: Mode): Action {
    if e.zC2 then OutDone(r, DEC, lo, sh, e) else Action(nextConstant, r, KEEP, DEC, false, false, KEEP, lo, sh)
  }

  /** The rule of the inputs' modes. */
  function InputRule(m: Mode, cls: nat, e: Tests): Action {
    match m
    case V_IN => if e.zV then Move(V_DI, KEEP, TAKE, KEEP) else Move(S_BOX, SET(32), TAKE, KEEP)
    case S_BOX => Run(m, PROOF, e)
    case PROOF => Go(EXTCNT)
    case EXTCNT => if cls == 0 then NextInput(KEEP, KEEP, e) else Move(E_KEY, KEEP, KEEP, TAKE)
    case E_KEY => Go(E_CT)
    case E_CT => Go(E_CLEN)
    case E_CLEN => if e.zV then ExtDone(KEEP, e) else Move(E_BODY, TAKE, KEEP, KEEP)
    case E_BODY => if e.zR then ExtDone(DEC, e) else Move(m, DEC, KEEP, KEEP)
    case _ => Go(ERR)
  }

  /** The rule of the data inputs, the token ids and the outputs' count. */
  function ListRule(m: Mode, cls: nat, e: Tests): Action {
    match m
    case V_DI => if e.zV then Go(V_TOK) else Move(S_DI, TAKE32, KEEP, KEEP)
    case S_DI => Run(m, V_TOK, e)
    case V_TOK => if e.zV then Go(V_OUT) else Move(S_TOK, TAKE32, KEEP, KEEP)
    case S_TOK => Run(m, V_OUT, e)
    case V_OUT => Move(if e.zV then END else V_VALUE, KEEP, TAKE, KEEP)
    case _ => Go(ERR)
  }

  /** The rule of an output before its registers. */
  function OutputRule(m: Mode, cls: nat, e: Tests): Action {
    match m
    case V_VALUE => Go(TREE)
    case TREE =>
      if cls == 0 then Go(V_TSIZE)
      else if cls == 1 then Move(PAT_P2PK, SET(35), KEEP, KEEP)
      else Move(PAT_FEE, SET(104), KEEP, KEEP)
    case V_TSIZE => if e.zV then Go(V_HEIGHT) else Move(S_TBODY, TAKE, KEEP, KEEP)
    case S_TBODY | PAT_P2PK | PAT_FEE => Run(m, V_HEIGHT, e)
    case V_HEIGHT => Go(TOKCNT)
    case TOKCNT => if cls == 0 then Go(REGCNT) else Move(V_TIDX, KEEP, KEEP, TAKE)
    case V_TIDX => Go(V_TAMT)
    case V_TAMT => Move(if e.zC2 then REGCNT else V_TIDX, KEEP, KEEP, DEC)
    case _ => Go(ERR)
  }

  /** The rule of the register count and of R4, the subject's. */
  function SubjectRule(m: Mode, cls: nat, e: Tests): Action {
    match m
    case REGCNT => if cls == 0 then OutDone(KEEP, KEEP, KEEP, SET(0), e) else Action(R4_CT, KEEP, KEEP, TAKE, false, false, KEEP, KEEP, SET(0))
    case R4_CT => Go(R4_CLEN)
    case R4_CLEN =>
      if e.zV then RegDone(KEEP, KEEP, KEEP, e, R5_CT)
      else if e.z32 then Action(R4_HI, SET(16), KEEP, KEEP, false, false, SET(0), KEEP, KEEP)
      else Move(R4_BODY, TAKE, KEEP, KEEP)
    case R4_HI =>
      if e.zR then Action(R4_LO, SET(16), KEEP, KEEP, false, false, APPEND, SET(0), KEEP)
      else Action(m, DEC, KEEP, KEEP, false, false, APPEND, KEEP, KEEP)
    case R4_LO =>
      if e.zR then RegDone(DEC, APPEND, SET(1), e, R5_CT)
      else Action(m, DEC, KEEP, KEEP, false, false, KEEP, APPEND, KEEP)
    case R4_BODY => if e.zR then RegDone(DEC, KEEP, KEEP, e, R5_CT) else Move(m, DEC, KEEP, KEEP)
    case _ => Go(ERR)
  }

  /** The rule of R5 and the registers after it. */
  function TailRule(m: Mode, cls: nat, e: Tests): Action {
    match m
    case R5_CT => Go(R5_CLEN)
    case R5_CLEN => if e.zV then RegDone(KEEP, KEEP, DOUBLE, e, RX_CT) else Move(R5_BODY, TAKE, KEEP, KEEP)
    case R5_BODY => if e.zR then RegDone(DEC, KEEP, DOUBLE, e, RX_CT) else Move(m, DEC, KEEP, KEEP)
    case RX_CT => Go(RX_CLEN)
    case RX_CLEN => if e.zV then RegDone(KEEP, KEEP, KEEP, e, RX_CT) else Move(RX_BODY, TAKE, KEEP, KEEP)
    case RX_BODY => if e.zR then RegDone(DEC, KEEP, KEEP, e, RX_CT) else Move(m, DEC, KEEP, KEEP)
    case _ => Go(ERR)
  }

  predicate InputMode(m: Mode) {
    m.V_IN? || m.S_BOX? || m.PROOF? || m.EXTCNT? || m.E_KEY? || m.E_CT? || m.E_CLEN? || m.E_BODY?
  }

  predicate ListMode(m: Mode) {
    m.V_DI? || m.S_DI? || m.V_TOK? || m.S_TOK? || m.V_OUT?
  }

  predicate OutputMode(m: Mode) {
    m.V_VALUE? || m.TREE? || m.V_TSIZE? || m.S_TBODY? || m.PAT_P2PK? || m.PAT_FEE? || m.V_HEIGHT? ||
    m.TOKCNT? || m.V_TIDX? || m.V_TAMT?
  }

  predicate SubjectMode(m: Mode) {
    m.REGCNT? || m.R4_CT? || m.R4_CLEN? || m.R4_HI? || m.R4_LO? || m.R4_BODY?
  }

  /** The rule: inside an integer the mode is kept, after a refused byte it is `ERR`, and `END` refuses every byte. */
  function Transition(m: Mode, cls: nat, e: Tests): Action {
    if GroupOf(m).VLQ? && cls == 1 then Action(m, KEEP, KEEP, KEEP, true, false, KEEP, KEEP, KEEP)
    else if cls == 3 then Go(ERR)
    else if InputMode(m) then InputRule(m, cls, e)
    else if ListMode(m) then ListRule(m, cls, e)
    else if OutputMode(m) then OutputRule(m, cls, e)
    else if SubjectMode(m) then SubjectRule(m, cls, e)
    else TailRule(m, cls, e)
  }

  predicate Plain(m: Mode, cls: nat) {
    cls != 3 && !(GroupOf(m).VLQ? && cls == 1)
  }

  lemma InputTransition(m: Mode, cls: nat, e: Tests)
    requires InputMode(m) && Plain(m, cls)
    ensures Transition(m, cls, e) == InputRule(m, cls, e)
  {
    hide InputRule;
    hide GroupOf;
  }

  lemma ListTransition(m: Mode, cls: nat, e: Tests)
    requires ListMode(m) && Plain(m, cls)
    ensures Transition(m, cls, e) == ListRule(m, cls, e)
  {
    hide InputRule;
    hide ListRule;
    hide GroupOf;
  }

  lemma OutputTransition(m: Mode, cls: nat, e: Tests)
    requires OutputMode(m) && Plain(m, cls)
    ensures Transition(m, cls, e) == OutputRule(m, cls, e)
  {
    hide InputRule;
    hide ListRule;
    hide OutputRule;
    hide GroupOf;
  }

  lemma SubjectTransition(m: Mode, cls: nat, e: Tests)
    requires SubjectMode(m) && Plain(m, cls)
    ensures Transition(m, cls, e) == SubjectRule(m, cls, e)
  {
    hide InputRule;
    hide ListRule;
    hide OutputRule;
    hide SubjectRule;
    hide GroupOf;
  }

  predicate TailMode(m: Mode) {
    m.R5_CT? || m.R5_CLEN? || m.R5_BODY? || m.RX_CT? || m.RX_CLEN? || m.RX_BODY? || m.END? || m.ERR?
  }

  lemma TailTransition(m: Mode, cls: nat, e: Tests)
    requires TailMode(m) && Plain(m, cls)
    ensures Transition(m, cls, e) == TailRule(m, cls, e)
  {
    hide InputRule;
    hide ListRule;
    hide OutputRule;
    hide SubjectRule;
    hide TailRule;
    hide GroupOf;
  }

  // ----- the tables -----

  const KEYS := 128

  predicate Bit(k: nat, weight: nat)
    requires weight > 0
  {
    (k / weight) % 2 == 1
  }

  /** The action a key of a mode stands for: the class in bits 5-6, the five tests below it. */
  function ActionOf(m: Mode, k: nat): Action {
    Transition(m, k / 32, Tests(Bit(k, 16), Bit(k, 8), Bit(k, 4), Bit(k, 2), Bit(k, 1)))
  }

  function One(b: bool): nat {
    if b then 1 else 0
  }

  function KeyOf(cls: nat, e: Tests): nat {
    cls * 32 + One(e.zR) * 16 + One(e.zV) * 8 + One(e.z32) * 4 + One(e.zC1) * 2 + One(e.zC2)
  }

  lemma Shift32(q: nat, low: nat)
    requires low < 32
    ensures (32 * q + low) / 32 == q
  {
  }

  lemma Shift16(q: nat, low: nat)
    requires low < 16
    ensures (16 * q + low) / 16 == q
  {
  }

  lemma Shift8(q: nat, low: nat)
    requires low < 8
    ensures (8 * q + low) / 8 == q
  {
  }

  lemma Shift4(q: nat, low: nat)
    requires low < 4
    ensures (4 * q + low) / 4 == q
  {
  }

  lemma Shift2(q: nat, low: nat)
    requires low < 2
    ensures (2 * q + low) / 2 == q && (2 * q + low) % 2 == low
  {
  }

  lemma KeyBits(c: nat, r: nat, v: nat, w: nat, x: nat, y: nat)
    requires r <= 1 && v <= 1 && w <= 1 && x <= 1 && y <= 1
    ensures var k := c * 32 + r * 16 + v * 8 + w * 4 + x * 2 + y;
            k / 32 == c && (k / 16) % 2 == r && (k / 8) % 2 == v && (k / 4) % 2 == w && (k / 2) % 2 == x && (k / 1) % 2 == y
  {
    Shift32(c, r * 16 + v * 8 + w * 4 + x * 2 + y);
    Shift16(2 * c + r, v * 8 + w * 4 + x * 2 + y);
    Shift8(4 * c + 2 * r + v, w * 4 + x * 2 + y);
    Shift4(8 * c + 4 * r + 2 * v + w, x * 2 + y);
    Shift2(c, r);
    Shift2(2 * c + r, v);
    Shift2(4 * c + 2 * r + v, w);
    Shift2(8 * c + 4 * r + 2 * v + w, x);
    Shift2(16 * c + 8 * r + 4 * v + 2 * w + x, y);
  }

  lemma KeyReads(m: Mode, cls: nat, e: Tests)
    requires cls <= 3
    ensures KeyOf(cls, e) < KEYS && ActionOf(m, KeyOf(cls, e)) == Transition(m, cls, e)
  {
    hide Transition;
    KeyBits(cls, One(e.zR), One(e.zV), One(e.z32), One(e.zC1), One(e.zC2));
  }

  datatype Tables = Tables(keys: seq<nat>, actions: seq<Action>)

  /** What the `i`-th key of the table stands for. */
  function KeyedAction(i: nat): Action
    requires i < |MODES| * KEYS
  {
    ActionOf(MODES[i / KEYS], i % KEYS)
  }

  lemma KeyedIs(mode: nat, k: nat)
    requires mode < |MODES| && k < KEYS
    ensures mode * KEYS + k < |MODES| * KEYS && KeyedAction(mode * KEYS + k) == ActionOf(MODES[mode], k)
  {
    hide ActionOf;
    assert (mode * KEYS + k) / KEYS == mode && (mode * KEYS + k) % KEYS == k;
  }

  ghost predicate Listed(keys: seq<nat>, actions: seq<Action>, n: nat) {
    |keys| == n <= |MODES| * KEYS &&
    forall i | 0 <= i < n :: keys[i] < |actions| && actions[keys[i]] == KeyedAction(i)
  }

  ghost predicate OnceEach(actions: seq<Action>, seen: map<Action, nat>) {
    (forall i | 0 <= i < |actions| :: actions[i] in seen && seen[actions[i]] == i) &&
    (forall a | a in seen :: seen[a] < |actions| && actions[seen[a]] == a)
  }

  /** What the machine needs of its tables: every key of every mode finds its transition, and no action is listed twice. */
  ghost predicate TablesOk(t: Tables) {
    Listed(t.keys, t.actions, |MODES| * KEYS) && forall i, j | 0 <= i < j < |t.actions| :: t.actions[i] != t.actions[j]
  }

  method BuildTables() returns (t: Tables)
    ensures TablesOk(t)
  {
    hide ActionOf;
    hide KeyedAction;
    var keys: seq<nat>, actions: seq<Action>, seen: map<Action, nat> := [], [], map[];
    for mode := 0 to |MODES|
      invariant Listed(keys, actions, mode * KEYS) && OnceEach(actions, seen)
    {
      for k := 0 to KEYS
        invariant Listed(keys, actions, mode * KEYS + k) && OnceEach(actions, seen)
      {
        var a := ActionOf(MODES[mode], k);
        KeyedIs(mode, k);
        if a !in seen {
          seen := seen[a := |actions|];
          actions := actions + [a];
        }
        keys := keys + [seen[a]];
      }
    }
    t := Tables(keys, actions);
  }

  // ----- the machine -----

  datatype ScanState = ScanState(
    mode: Mode, r: Field, c1: Field, c2: Field, a: Field, p: Field, hi: Field, lo: Field, sh: Field, outputs: nat)

  const START := ScanState(V_IN, 0, 0, 0, 0, 1, 0, 0, 0, 0)

  /** One find of the scan. */
  datatype Shaped = Shaped(output: nat, subject: seq<Byte>)

  function ValueAt(s: ScanState, b: Byte): Field {
    Mod(s.a + (b - 128 * Continues(GroupOf(s.mode), b)) * s.p)
  }

  function TestsAt(s: ScanState, b: Byte): Tests {
    Tests(s.r == 1, ValueAt(s, b) == 0, ValueAt(s, b) == 32, s.c1 == 1, s.c2 == 1)
  }

  function ActAt(s: ScanState, b: Byte): Action {
    Transition(s.mode, ByteClass(GroupOf(s.mode), b), TestsAt(s, b))
  }

  function Moved(x: Field, u: Lin, brought: Field): Field {
    match u
    case KEEP => x
    case DEC => Mod(x - 1)
    case DOUBLE => Mod(2 * x)
    case APPEND => Mod(256 * x + brought)
    case TAKE => brought
    case TAKE32 => Mod(32 * brought)
    case SET(c) => c
  }

  /** An action carried out at byte `b`, where `v` is the integer read so far. */
  function Update(s: ScanState, x: Action, v: Field, b: Byte): ScanState {
    ScanState(x.next, Moved(s.r, x.r, v), Moved(s.c1, x.c1, v), Moved(s.c2, x.c2, b),
              if x.vk then v else 0, if x.vk then Mod(s.p * 128) else 1,
              Moved(s.hi, x.hi, b), Moved(s.lo, x.lo, b), Moved(s.sh, x.sh, 0), s.outputs + if x.oend then 1 else 0)
  }

  function Step(s: ScanState, b: Byte): ScanState {
    Update(s, ActAt(s, b), ValueAt(s, b), b)
  }

  /** Whether this byte completes a find. */
  predicate Ends(s: ScanState, b: Byte) {
    ActAt(s, b).oend && Step(s, b).sh == 2
  }

  function LimbBytes(limb: nat, n: nat): (out: seq<Byte>)
    ensures |out| == n
  {
    if n == 0 then [] else LimbBytes(limb / 256, n - 1) + [limb % 256]
  }

  function Found(s: ScanState, b: Byte): seq<Shaped> {
    if Ends(s, b) then [Shaped(s.outputs, LimbBytes(Step(s, b).hi, 16) + LimbBytes(Step(s, b).lo, 16))] else []
  }

  datatype Scan = Scan(state: ScanState, found: seq<Shaped>)

  /** The scan after the bytes `[from, end)`. */
  function Feed(sc: Scan, bytes: seq<Byte>, from: nat, end: nat): Scan
    requires from <= end <= |bytes|
    decreases end
  {
    if from == end then sc
    else
      var before := Feed(sc, bytes, from, end - 1);
      Scan(Step(before.state, bytes[end - 1]), before.found + Found(before.state, bytes[end - 1]))
  }

  function ScanAll(bytes: seq<Byte>): seq<Shaped> {
    Feed(Scan(START, []), bytes, 0, |bytes|).found
  }

  lemma {:induction false} FeedSplit(sc: Scan, bytes: seq<Byte>, from: nat, mid: nat, end: nat)
    requires from <= mid <= end <= |bytes|
    ensures Feed(sc, bytes, from, end) == Feed(Feed(sc, bytes, from, mid), bytes, mid, end)
    decreases end
  {
    hide Step;
    hide Found;
    if mid < end { FeedSplit(sc, bytes, from, mid, end - 1); }
  }

  lemma FeedOne(sc: Scan, bytes: seq<Byte>, at: nat)
    requires at < |bytes|
    ensures Feed(sc, bytes, at, at + 1) == Scan(Step(sc.state, bytes[at]), sc.found + Found(sc.state, bytes[at]))
  {
  }

  lemma ErrRule(cls: nat, e: Tests)
    requires cls != 3
    ensures Transition(ERR, cls, e) == Go(ERR)
  {
    hide Transition;
    TailTransition(ERR, cls, e);
  }

  lemma ErrStep(s: ScanState, b: Byte)
    requires s.mode.ERR?
    ensures Step(s, b).mode == ERR && Found(s, b) == []
  {
    hide ValueAt;
    hide Moved;
    hide LimbBytes;
    hide Transition;
    assert ByteClass(GroupOf(s.mode), b) == 0;
    ErrRule(0, TestsAt(s, b));
  }

  /** `ERR` is never left and emits nothing, so a scan may stop there. */
  lemma {:induction false} ErrAbsorbs(sc: Scan, bytes: seq<Byte>, from: nat, end: nat)
    requires from <= end <= |bytes| && sc.state.mode.ERR?
    ensures Feed(sc, bytes, from, end).state.mode.ERR? && Feed(sc, bytes, from, end).found == sc.found
    decreases end
  {
    hide Step;
    hide Found;
    if from < end {
      ErrAbsorbs(sc, bytes, from, end - 1);
      ErrStep(Feed(sc, bytes, from, end - 1).state, bytes[end - 1]);
    }
  }

  /** An affine update in the field. */
  function Affinely(u: Affine, x: Field, brought: Field): Field {
    Mod(u.k * x + u.c + u.v * brought)
  }

  /** Every register moves by its coefficients. */
  lemma MovedIsAffine(x: Field, u: Lin, brought: Field)
    ensures Affinely(Coefficients(u), x, brought) == Moved(x, u, brought)
  {
  }

  lemma UpdateIsAffine(s: ScanState, x: Action, v: Field, b: Byte)
    ensures Update(s, x, v, b) == ScanState(
      x.next, Affinely(Coefficients(x.r), s.r, v), Affinely(Coefficients(x.c1), s.c1, v), Affinely(Coefficients(x.c2), s.c2, b),
      if x.vk then v else 0, if x.vk then Mod(s.p * 128) else 1,
      Affinely(Coefficients(x.hi), s.hi, b), Affinely(Coefficients(x.lo), s.lo, b), Affinely(Coefficients(x.sh), s.sh, 0),
      s.outputs + if x.oend then 1 else 0)
  {
    hide Affinely, Coefficients, Moved, Mod;
    MovedIsAffine(s.r, x.r, v);
    MovedIsAffine(s.c1, x.c1, v);
    MovedIsAffine(s.c2, x.c2, b);
    MovedIsAffine(s.hi, x.hi, b);
    MovedIsAffine(s.lo, x.lo, b);
    MovedIsAffine(s.sh, x.sh, 0);
  }

  /** One step over the tables, each register moved by its coefficients, is one step of the rule. */
  method ScanStep(t: Tables, s: ScanState, b: Byte) returns (next: ScanState, shaped: bool)
    requires TablesOk(t)
    ensures next == Step(s, b) && shaped == Ends(s, b)
  {
    hide Transition, Affinely, Coefficients, Moved;
    var mode := NumberOf(s.mode);
    var cls, v := ByteClass(GroupOf(s.mode), b), ValueAt(s, b);
    KeyReads(s.mode, cls, TestsAt(s, b));
    var key := mode * KEYS + KeyOf(cls, TestsAt(s, b));
    KeyedIs(mode, KeyOf(cls, TestsAt(s, b)));
    var x := t.actions[t.keys[key]];
    var sh := Affinely(Coefficients(x.sh), s.sh, 0);
    next := ScanState(x.next, Affinely(Coefficients(x.r), s.r, v), Affinely(Coefficients(x.c1), s.c1, v), Affinely(Coefficients(x.c2), s.c2, b),
                      if x.vk then v else 0, if x.vk then Mod(s.p * 128) else 1,
                      Affinely(Coefficients(x.hi), s.hi, b), Affinely(Coefficients(x.lo), s.lo, b), sh, s.outputs + if x.oend then 1 else 0);
    shaped := x.oend && sh == 2;
    UpdateIsAffine(s, x, v, b);
  }

  /** All finds over a byte string, in order. It stops at `ERR`, after which there are none. */
  method ScanTransaction(t: Tables, unsigned: seq<Byte>) returns (found: seq<Shaped>)
    requires TablesOk(t)
    ensures found == ScanAll(unsigned)
  {
    hide Step;
    hide Ends;
    hide LimbBytes;
    var state: ScanState := START;
    found := [];
    for i := 0 to |unsigned|
      invariant Feed(Scan(START, []), unsigned, 0, i) == Scan(state, found)
    {
      var before := state.outputs;
      var next, shaped := ScanStep(t, state, unsigned[i]);
      state := next;
      if shaped { found := found + [Shaped(before, LimbBytes(state.hi, 16) + LimbBytes(state.lo, 16))]; }
      assert Feed(Scan(START, []), unsigned, 0, i + 1) == Scan(state, found);
      if state.mode.ERR? {
        FeedSplit(Scan(START, []), unsigned, 0, i + 1, |unsigned|);
        ErrAbsorbs(Scan(state, found), unsigned, i + 1, |unsigned|);
        return;
      }
    }
  }
}
