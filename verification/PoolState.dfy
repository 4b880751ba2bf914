/**
 One history of the pool: the events applied to it, what they spent and created, the supply of
 each backing and the standing demands. `ApplyEvent` is its only transition, whoever applies an event,
 and `StateOk` what every history reached through it keeps.
 */
module PoolState {
  import opened Wrappers
  import opened PoolOracle

  datatype EventId = EventId(segment: Id, position: nat)
  datatype Event = Event(id: EventId, statement: Statement)

  /** `events` and `outputs` are insertion-ordered, as the source's Map and Set are. */
  datatype State = State(
    events: seq<Event>, roots: map<Root, seq<Id>>, spent: set<Id>, outputs: seq<Id>, totals: map<Id, int>,
    spentTags: set<Tag>, locks: map<Tag, Id>, standing: map<Id, Statement>)

  datatype Refusal =
    | ConflictingPrefix | SpentConflict | OutputConflict | Locked | TagUnavailable | DemandNotStanding
    | WithdrawalSigner | SettlementTerms | MissingAcceptance | SettlementTags | SupplyBound
    // the venue's own
    | DuplicateBacking | UnknownBacking | LeadFloor | NotSigned | OneInFlight | TooEarly | MovedPast | UnavailableHistory | NotHeld
    | NotFinalized | RevokedIssuance | UnavailableEvidence | ScopeShape | ScopeOperator | ScopeTerm | WrongDomain
    | OpeningMismatch | ChangedHeader | ScopeNotInForce | CausalRank | IncompleteScope | StaleContinuation
    | RewrittenPrefix | EventPosition | AdoptionUnsupported | Proof | Clock

  function EmptyState(): State {
    State([], map[EmptyRoot := []], {}, [], map[], {}, map[], map[])
  }

  predicate Distinct<T(==)>(s: seq<T>) {
    forall i, j | 0 <= i < j < |s| :: s[i] != s[j]
  }

  function SetOf<T(==)>(s: seq<T>): set<T> {
    set x | x in s
  }

  function FindEvent(events: seq<Event>, id: EventId): Option<Event> {
    if events == [] then None
    else if events[|events| - 1].id == id then Some(events[|events| - 1])
    else FindEvent(events[..|events| - 1], id)
  }

  function TotalOf(totals: map<Id, int>, backing: Id): int {
    if backing in totals then totals[backing] else 0
  }

  function DeadlineOf(demand: Statement): int {
    if demand.body.lit.Some? && demand.body.lit.value.deadline.Some? then demand.body.lit.value.deadline.value else 0
  }

  /** The demand that holds a tag at an index. Asked without an index, no deadline frees it. */
  function LockStanding(st: State, tag: Tag, at: Option<int>): Option<Id> {
    if tag !in st.locks || st.locks[tag] !in st.standing then None
    else if at.Some? && DeadlineOf(st.standing[st.locks[tag]]) < at.value then None
    else Some(st.locks[tag])
  }

  function LitTags(s: Statement): seq<Tag> {
    if s.body.lit.Some? && s.body.lit.value.tags.Some? then s.body.lit.value.tags.value else []
  }

  function LitDemand(s: Statement): Option<Id> {
    if s.body.lit.Some? then s.body.lit.value.demand else None
  }

  function LitPresenter(s: Statement): Option<Id> {
    if s.body.lit.Some? then s.body.lit.value.presenter else None
  }

  /** The demand a settlement or withdrawal discharges. */
  function Discharged(st: State, s: Statement): Option<Statement> {
    if (s.body.kind.Settle? || s.body.kind.Withdraw?) && LitDemand(s).Some? && LitDemand(s).value in st.standing
    then Some(st.standing[LitDemand(s).value]) else None
  }

  predicate LocksAllow(st: State, s: Statement, at: Option<int>) {
    forall nf | nf in s.body.nullifiers ::
      var lock := LockStanding(st, TagOf(nf), at);
      lock.None? || (s.body.kind.Settle? && lock == LitDemand(s))
  }

  predicate TagsFree(st: State, s: Statement, at: Option<int>) {
    s.body.kind.Demand? ==>
      forall tag | tag in LitTags(s) :: tag.Padding? || (LockStanding(st, tag, at).None? && tag !in st.spentTags)
  }

  predicate SettlesTerms(s: Statement, demand: Statement) {
    s.body.lit.Some? && demand.body.lit.Some? &&
    var lit, d := s.body.lit.value, demand.body.lit.value;
    d.backing == lit.backing && d.quantity == lit.quantity && lit.presenter == d.presenter
  }

  predicate Accepted(s: Statement, demand: Statement) {
    s.body.lit.Some? && demand.body.lit.Some? &&
    var lit, d := s.body.lit.value, demand.body.lit.value;
    lit.acceptance.Some? && lit.acceptance.value.signedByK && lit.acceptance.value.demand == demand.id &&
    lit.owner == Some(lit.acceptance.value.owner) && d.deadline.Some? && lit.acceptance.value.deadline <= d.deadline.value
  }

  predicate SettlesTags(s: Statement, demand: Statement) {
    var tags := LitTags(demand);
    forall i | 0 <= i < |tags| :: tags[i].Padding? || (i < |s.body.nullifiers| && tags[i] == TagOf(s.body.nullifiers[i]))
  }

  /** The conditions an event not yet in the history is refused on, in order. */
  function Admit(st: State, s: Statement, at: Option<int>): Outcome<Refusal> {
    var demand := Discharged(st, s);
    var settle, withdraw := s.body.kind.Settle?, s.body.kind.Withdraw?;
    if !(Distinct(s.body.nullifiers) && forall n | n in s.body.nullifiers :: n !in st.spent) then Fail(SpentConflict)
    else if !(Distinct(s.body.outputs) && forall n | n in s.body.outputs :: n !in st.outputs) then Fail(OutputConflict)
    else if !LocksAllow(st, s, at) then Fail(Locked)
    else if !TagsFree(st, s, at) then Fail(TagUnavailable)
    else if (settle || withdraw) && demand.None? then Fail(DemandNotStanding)
    else if withdraw && LitPresenter(demand.value) != LitPresenter(s) then Fail(WithdrawalSigner)
    else if settle && !SettlesTerms(s, demand.value) then Fail(SettlementTerms)
    else if settle && !Accepted(s, demand.value) then Fail(MissingAcceptance)
    else if settle && !SettlesTags(s, demand.value) then Fail(SettlementTags)
    else Pass
  }

  function SpendAll(st: State, s: Statement): State {
    st.(spent := st.spent + SetOf(s.body.nullifiers),
        spentTags := st.spentTags + (set n | n in s.body.nullifiers :: TagOf(n)),
        outputs := st.outputs + s.body.outputs)
  }

  predicate MovesSupply(s: Statement) {
    s.body.lit.Some? && (s.body.kind.Issue? || s.body.kind.Burn?)
  }

  function SupplyAfter(st: State, s: Statement): int
    requires MovesSupply(s)
  {
    var lit := s.body.lit.value;
    TotalOf(st.totals, lit.backing) + (if s.body.kind.Issue? then lit.quantity else -lit.quantity)
  }

  function LockAll(locks: map<Tag, Id>, tags: seq<Tag>, demand: Id): map<Tag, Id> {
    locks + map tag | tag in tags && tag.TagOf? :: demand
  }

  function UnlockAll(locks: map<Tag, Id>, tags: seq<Tag>, demand: Id): map<Tag, Id> {
    map tag | tag in locks && !(tag in tags && locks[tag] == demand) :: locks[tag]
  }

  function SupplyMoved(st: State, s: Statement): State {
    if MovesSupply(s) then st.(totals := st.totals[s.body.lit.value.backing := SupplyAfter(st, s)]) else st
  }

  function DemandPlaced(st: State, s: Statement): State {
    if s.body.kind.Demand? then st.(standing := st.standing[s.id := s], locks := LockAll(st.locks, LitTags(s), s.id)) else st
  }

  function DemandCleared(st: State, demand: Option<Statement>): State {
    if demand.None? then st
    else st.(standing := st.standing - {demand.value.id}, locks := UnlockAll(st.locks, LitTags(demand.value), demand.value.id))
  }

  /** The state an admitted event leaves once its supply is known to be in bounds. */
  function Record(st: State, e: Event): State {
    var s := e.statement;
    DemandCleared(DemandPlaced(SupplyMoved(SpendAll(st, s), s), s), Discharged(st, s)).(events := st.events + [e])
  }

  /** One transition, locks being read at `at`. Applied again, an event changes nothing. */
  function ApplyEvent(st: State, e: Event, at: Option<int>): Result<State, Refusal> {
    var prior := FindEvent(st.events, e.id);
    if prior.Some? then
      if prior.value.statement.id == e.statement.id then Ok(st) else Err(ConflictingPrefix)
    else
      :- Admit(st, e.statement, at);
      if MovesSupply(e.statement) && !(0 <= SupplyAfter(st, e.statement) < VALUE_BOUND) then Err(SupplyBound)
      else Ok(Record(st, e))
  }

  function ApplyAll(st: State, events: seq<Event>, at: Option<int>): Result<State, Refusal> {
    if events == [] then Ok(st)
    else
      var before :- ApplyAll(st, events[..|events| - 1], at);
      ApplyEvent(before, events[|events| - 1], at)
  }

  // ----- the invariant of a history -----

  /** An event's name: its place in its segment and its statement's id. */
  type Key = (EventId, Id)

  function KeyOf(e: Event): Key {
    (e.id, e.statement.id)
  }

  function KeysOf(events: seq<Event>): set<Key> {
    if events == [] then {} else KeysOf(events[..|events| - 1]) + {KeyOf(events[|events| - 1])}
  }

  function OutputsOf(events: seq<Event>): seq<Id> {
    if events == [] then [] else OutputsOf(events[..|events| - 1]) + events[|events| - 1].statement.body.outputs
  }

  function SpentBy(events: seq<Event>): set<Id> {
    if events == [] then {}
    else SpentBy(events[..|events| - 1]) + SetOf(events[|events| - 1].statement.body.nullifiers)
  }

  /** Inputs of value were created before. */
  ghost predicate InputsAvailable(o: Registry, outputs: seq<Id>, s: Statement)
    requires s in o.witnesses
  {
    forall n | n in Consumed(o, s) && n.value > 0 :: n.cm in outputs
  }

  /** The value of the outputs of one backing whose nullifiers are unspent. */
  function Held(o: Registry, outputs: seq<Id>, spent: set<Id>, backing: Id): int {
    if outputs == [] then 0
    else
      var cm := outputs[|outputs| - 1];
      Held(o, outputs[..|outputs| - 1], spent, backing) +
      (if cm in o.notes && o.notes[cm].backing == backing && o.notes[cm].nf !in spent then o.notes[cm].value else 0)
  }

  ghost predicate Disjoint(events: seq<Event>) {
    forall i, j | 0 <= i < j < |events| ::
      events[i].id != events[j].id &&
      forall n | n in events[i].statement.body.nullifiers :: n !in events[j].statement.body.nullifiers
  }

  /** What events issued of a backing, less what they burned. */
  function SupplyOf(events: seq<Event>, backing: Id): int {
    if events == [] then 0
    else
      var s := events[|events| - 1].statement;
      SupplyOf(events[..|events| - 1], backing) + Issued(s, backing) - Burned(s, backing)
  }

  /** Unspent value is the total kept, and both are what was issued less what was burned. */
  ghost predicate Conserved(o: Registry, st: State) {
    forall backing: Id :: Held(o, st.outputs, st.spent, backing) == TotalOf(st.totals, backing) == SupplyOf(st.events, backing)
  }

  ghost predicate InOrder(o: Registry, events: seq<Event>) {
    forall i | 0 <= i < |events| ::
      Sound(o, events[i].statement) && InputsAvailable(o, OutputsOf(events[..i]), events[i].statement)
  }

  ghost predicate RootsWithin(st: State) {
    forall r | r in st.roots :: forall cm | cm in st.roots[r] :: cm in st.outputs
  }

  ghost predicate SpentKnown(o: Registry, st: State) {
    forall nf | nf in st.spent :: nf in o.notes && (o.notes[nf].value > 0 ==> nf in st.outputs)
  }

  ghost predicate StateOk(o: Registry, st: State) {
    RegistryOk(o) && Disjoint(st.events) && InOrder(o, st.events) &&
    st.outputs == OutputsOf(st.events) && Distinct(st.outputs) && st.spent == SpentBy(st.events) &&
    SpentKnown(o, st) && Conserved(o, st) && RootsWithin(st) &&
    (forall b | b in st.totals :: 0 <= st.totals[b] < VALUE_BOUND)
  }

  lemma EmptyOk(o: Registry)
    requires RegistryOk(o)
    ensures StateOk(o, EmptyState())
  {
  }

  lemma DistinctInit<T>(s: seq<T>)
    requires s != [] && Distinct(s)
    ensures Distinct(s[..|s| - 1]) && s[|s| - 1] !in s[..|s| - 1]
  {
  }

  lemma DistinctAppend<T>(s: seq<T>, t: seq<T>)
    requires Distinct(s) && Distinct(t) && forall x | x in t :: x !in s
    ensures Distinct(s + t)
  {
    var all := s + t;
    forall i, j | 0 <= i < j < |all|
      ensures all[i] != all[j]
    {
      if i < |s| <= j { assert all[j] == t[j - |s|] && all[j] in t && all[i] == s[i]; }
    }
  }

  lemma {:induction false} FindEventFinds(events: seq<Event>, id: EventId)
    ensures FindEvent(events, id).Some? ==> FindEvent(events, id).value in events && FindEvent(events, id).value.id == id
    ensures FindEvent(events, id).None? <==> forall e | e in events :: e.id != id
  {
    if events != [] {
      FindEventFinds(events[..|events| - 1], id);
      assert events == events[..|events| - 1] + [events[|events| - 1]];
    }
  }

  lemma {:induction false} SpentByContains(events: seq<Event>, n: Id)
    ensures n in SpentBy(events) <==> exists i :: 0 <= i < |events| && n in events[i].statement.body.nullifiers
  {
    if events != [] {
      var before := events[..|events| - 1];
      SpentByContains(before, n);
      if i :| 0 <= i < |events| && n in events[i].statement.body.nullifiers {
        assert i < |before| ==> n in before[i].statement.body.nullifiers;
      }
      if i :| 0 <= i < |before| && n in before[i].statement.body.nullifiers {
        assert n in events[i].statement.body.nullifiers;
      }
    }
  }

  lemma {:induction false} OutputsOfContains(events: seq<Event>, i: nat)
    requires i < |events|
    ensures forall cm | cm in events[i].statement.body.outputs :: cm in OutputsOf(events)
  {
    if i < |events| - 1 {
      OutputsOfContains(events[..|events| - 1], i);
      assert events[..|events| - 1][i] == events[i];
    }
  }

  // ----- conservation of one event -----

  lemma {:induction false} HeldAppend(o: Registry, outputs: seq<Id>, more: seq<Id>, spent: set<Id>, backing: Id)
    ensures Held(o, outputs + more, spent, backing) == Held(o, outputs, spent, backing) + Held(o, more, spent, backing)
  {
    if more == [] {
      assert outputs + more == outputs;
    } else {
      HeldAppend(o, outputs, more[..|more| - 1], spent, backing);
      assert (outputs + more)[..|outputs + more| - 1] == outputs + more[..|more| - 1];
    }
  }

  lemma {:induction false} HeldSame(o: Registry, outputs: seq<Id>, spent: set<Id>, more: set<Id>, backing: Id)
    requires forall cm | cm in outputs && cm in o.notes :: o.notes[cm].nf in spent || o.notes[cm].nf !in more || o.notes[cm].value == 0
    ensures Held(o, outputs, spent + more, backing) == Held(o, outputs, spent, backing)
  {
    if outputs != [] {
      HeldSame(o, outputs[..|outputs| - 1], spent, more, backing);
    }
  }

  /** Spending one unspent output of value takes exactly its value from its backing's holdings. */
  lemma {:induction false} HeldSpendOne(o: Registry, outputs: seq<Id>, spent: set<Id>, n: Note, backing: Id)
    requires RegistryOk(o) && Genuine(o, n) && Distinct(outputs) && n.nf !in spent
    requires n.value > 0 ==> n.cm in outputs
    ensures Held(o, outputs, spent + {n.nf}, backing) ==
            Held(o, outputs, spent, backing) - (if n.backing == backing then n.value else 0)
  {
    if outputs != [] {
      var before, cm := outputs[..|outputs| - 1], outputs[|outputs| - 1];
      if cm == n.cm || n.value == 0 {
        HeldSame(o, before, spent, {n.nf}, backing);
      } else {
        HeldSpendOne(o, before, spent, n, backing);
      }
    }
  }

  lemma {:induction false} HeldSpend(o: Registry, outputs: seq<Id>, spent: set<Id>, notes: seq<Note>, backing: Id)
    requires RegistryOk(o) && Distinct(outputs) && Distinct(Nullifiers(notes))
    requires forall n | n in notes :: Genuine(o, n) && n.nf !in spent && (n.value > 0 ==> n.cm in outputs)
    ensures Held(o, outputs, spent + SetOf(Nullifiers(notes)), backing) ==
            Held(o, outputs, spent, backing) - ValueOf(notes, backing)
  {
    if notes == [] {
      assert spent + SetOf(Nullifiers(notes)) == spent;
    } else {
      var before, last := notes[..|notes| - 1], notes[|notes| - 1];
      assert Nullifiers(notes) == Nullifiers(before) + [last.nf];
      DistinctInit(Nullifiers(notes));
      assert Nullifiers(notes)[..|notes| - 1] == Nullifiers(before);
      HeldSpend(o, outputs, spent, before, backing);
      var sofar := spent + SetOf(Nullifiers(before));
      HeldSpendOne(o, outputs, sofar, last, backing);
      assert sofar + {last.nf} == spent + SetOf(Nullifiers(notes));
    }
  }

  /** Fresh outputs are all unspent, so they add their whole value. */
  lemma {:induction false} HeldFresh(o: Registry, notes: seq<Note>, spent: set<Id>, backing: Id)
    requires RegistryOk(o)
    requires forall n | n in notes :: Genuine(o, n) && (n.value > 0 ==> n.nf !in spent)
    ensures Held(o, Commitments(notes), spent, backing) == ValueOf(notes, backing)
  {
    if notes != [] {
      var before, last := notes[..|notes| - 1], notes[|notes| - 1];
      assert Commitments(notes)[..|notes| - 1] == Commitments(before);
      HeldFresh(o, before, spent, backing);
      assert last in notes;
    }
  }

  // ----- one event keeps the invariant -----

  lemma NullifiersAre(o: Registry, s: Statement)
    requires RegistryOk(o) && Sound(o, s)
    ensures s.body.nullifiers == Nullifiers(Consumed(o, s)) && s.body.outputs == Commitments(o.witnesses[s].outputs)
  {
  }

  lemma RecordShape(st: State, e: Event)
    ensures var st', s := Record(st, e), e.statement;
            st'.events == st.events + [e] && st'.outputs == st.outputs + s.body.outputs &&
            st'.spent == st.spent + SetOf(s.body.nullifiers) && st'.roots == st.roots
    ensures forall b :: TotalOf(Record(st, e).totals, b) == TotalOf(st.totals, b) + Issued(e.statement, b) - Burned(e.statement, b)
  {
  }

  lemma ConsumedGenuine(o: Registry, s: Statement)
    requires RegistryOk(o) && Sound(o, s)
    ensures forall n | n in Consumed(o, s) :: Genuine(o, n) && n.nf in s.body.nullifiers
    ensures forall nf | nf in s.body.nullifiers :: nf in o.notes && o.notes[nf] in Consumed(o, s)
  {
    NullifiersAre(o, s);
    var notes := Consumed(o, s);
    forall n | n in notes
      ensures Genuine(o, n) && n.nf in s.body.nullifiers
    {
      var i :| 0 <= i < |notes| && notes[i] == n;
      assert Nullifiers(notes)[i] == n.nf;
      assert n in o.witnesses[s].inputs + o.witnesses[s].outputs;
    }
    forall nf | nf in s.body.nullifiers
      ensures nf in o.notes && o.notes[nf] in notes
    {
      var i :| 0 <= i < |notes| && Nullifiers(notes)[i] == nf;
      assert notes[i] in notes;
    }
  }

  lemma CreatedGenuine(o: Registry, s: Statement)
    requires RegistryOk(o) && Sound(o, s)
    ensures forall n | n in o.witnesses[s].outputs :: Genuine(o, n) && n.cm in s.body.outputs
    ensures forall cm | cm in s.body.outputs :: cm in o.notes && o.notes[cm] in o.witnesses[s].outputs
  {
    NullifiersAre(o, s);
    var made := o.witnesses[s].outputs;
    forall n | n in made
      ensures Genuine(o, n) && n.cm in s.body.outputs
    {
      var i :| 0 <= i < |made| && made[i] == n;
      assert Commitments(made)[i] == n.cm;
      assert n in o.witnesses[s].inputs + o.witnesses[s].outputs;
    }
    forall cm | cm in s.body.outputs
      ensures cm in o.notes && o.notes[cm] in made
    {
      var i :| 0 <= i < |made| && Commitments(made)[i] == cm;
      assert made[i] in made;
    }
  }

  /** A created note of value is new, so its nullifier is not among those spent by then. */
  lemma CreatedUnspent(o: Registry, outputs: seq<Id>, spent: set<Id>, s: Statement, n: Note)
    requires RegistryOk(o) && Sound(o, s) && InputsAvailable(o, outputs, s)
    requires forall n | n in s.body.outputs :: n !in outputs
    requires forall nf | nf in spent :: nf in o.notes && (o.notes[nf].value > 0 ==> nf in outputs)
    requires n in o.witnesses[s].outputs && n.value > 0
    ensures n.nf !in spent && n.nf !in s.body.nullifiers
  {
    CreatedGenuine(o, s);
    ConsumedGenuine(o, s);
    assert n.nf == n.cm && n.cm !in outputs;
  }

  lemma ConservedAfter(o: Registry, outputs: seq<Id>, spent: set<Id>, s: Statement, backing: Id)
    requires RegistryOk(o) && Sound(o, s) && InputsAvailable(o, outputs, s)
    requires forall n | n in s.body.outputs :: n !in outputs
    requires forall nf | nf in spent :: nf in o.notes && (o.notes[nf].value > 0 ==> nf in outputs)
    requires Distinct(outputs) && Distinct(s.body.nullifiers) && forall n | n in s.body.nullifiers :: n !in spent
    ensures Held(o, outputs + s.body.outputs, spent + SetOf(s.body.nullifiers), backing) ==
            Held(o, outputs, spent, backing) + Issued(s, backing) - Burned(s, backing)
  {
    var notes, made, spent' := Consumed(o, s), o.witnesses[s].outputs, spent + SetOf(s.body.nullifiers);
    NullifiersAre(o, s);
    ConsumedGenuine(o, s);
    CreatedGenuine(o, s);
    HeldSpend(o, outputs, spent, notes, backing);
    HeldAppend(o, outputs, s.body.outputs, spent', backing);
    forall n | n in made && n.value > 0
      ensures n.nf !in spent'
    {
      CreatedUnspent(o, outputs, spent, s, n);
    }
    HeldFresh(o, made, spent', backing);
    SoundBalances(o, s, backing);
  }

  lemma DisjointAppend(events: seq<Event>, e: Event)
    requires Disjoint(events) && FindEvent(events, e.id).None?
    requires forall n | n in e.statement.body.nullifiers :: n !in SpentBy(events)
    ensures Disjoint(events + [e])
  {
    FindEventFinds(events, e.id);
    forall i | 0 <= i < |events|
      ensures events[i].id != e.id && forall n | n in events[i].statement.body.nullifiers :: n !in e.statement.body.nullifiers
    {
      assert events[i] in events;
      forall n | n in events[i].statement.body.nullifiers ensures n in SpentBy(events) { SpentByContains(events, n); }
    }
  }

  lemma InOrderAppend(o: Registry, events: seq<Event>, e: Event)
    requires InOrder(o, events) && Sound(o, e.statement) && InputsAvailable(o, OutputsOf(events), e.statement)
    ensures InOrder(o, events + [e])
  {
    var all := events + [e];
    forall i | 0 <= i < |all|
      ensures Sound(o, all[i].statement) && InputsAvailable(o, OutputsOf(all[..i]), all[i].statement)
    {
      if i < |events| {
        assert all[..i] == events[..i] && all[i] == events[i];
      } else {
        assert all[..i] == events;
      }
    }
  }

  lemma SpentKnownAfter(o: Registry, st: State, e: Event)
    requires RegistryOk(o) && SpentKnown(o, st) && Sound(o, e.statement) && InputsAvailable(o, st.outputs, e.statement)
    ensures SpentKnown(o, Record(st, e))
  {
    RecordShape(st, e);
    ConsumedGenuine(o, e.statement);
  }

  lemma AdmitFacts(st: State, s: Statement, at: Option<int>)
    requires Admit(st, s, at).Pass?
    ensures Distinct(s.body.nullifiers) && forall n | n in s.body.nullifiers :: n !in st.spent
    ensures Distinct(s.body.outputs) && forall n | n in s.body.outputs :: n !in st.outputs
  {
  }

  lemma RecordTotals(st: State, e: Event)
    requires forall b | b in st.totals :: 0 <= st.totals[b] < VALUE_BOUND
    requires MovesSupply(e.statement) ==> 0 <= SupplyAfter(st, e.statement) < VALUE_BOUND
    ensures forall b | b in Record(st, e).totals :: 0 <= Record(st, e).totals[b] < VALUE_BOUND
  {
  }

  lemma RecordKeeps(o: Registry, st: State, e: Event, at: Option<int>)
    requires StateOk(o, st) && Sound(o, e.statement) && InputsAvailable(o, st.outputs, e.statement)
    requires FindEvent(st.events, e.id).None? && Admit(st, e.statement, at).Pass?
    requires MovesSupply(e.statement) ==> 0 <= SupplyAfter(st, e.statement) < VALUE_BOUND
    ensures StateOk(o, Record(st, e))
  {
    hide Held;
    hide Sound;
    hide Record;
    hide Admit;
    hide RegistryOk;
    hide InputsAvailable;
    var s, st' := e.statement, Record(st, e);
    AdmitFacts(st, s, at);
    RecordShape(st, e);
    RecordTotals(st, e);
    assert st'.events[..|st'.events| - 1] == st.events;
    DisjointAppend(st.events, e);
    InOrderAppend(o, st.events, e);
    DistinctAppend(st.outputs, s.body.outputs);
    SpentKnownAfter(o, st, e);
    assert Conserved(o, st') by {
      forall backing: Id
        ensures Held(o, st'.outputs, st'.spent, backing) == TotalOf(st'.totals, backing) == SupplyOf(st'.events, backing)
      {
        ConservedAfter(o, st.outputs, st.spent, s, backing);
      }
    }
  }

  lemma {:induction false} KeysContain(events: seq<Event>, e: Event)
    requires e in events
    ensures KeyOf(e) in KeysOf(events)
  {
    var before := events[..|events| - 1];
    assert events == before + [events[|events| - 1]];
    if e in before { KeysContain(before, e); }
  }

  lemma {:induction false} KeyHolder(events: seq<Event>, key: Key) returns (e: Event)
    requires key in KeysOf(events)
    ensures e in events && KeyOf(e) == key
  {
    e := events[|events| - 1];
    if key != KeyOf(e) {
      e := KeyHolder(events[..|events| - 1], key);
    }
  }

  /** Every transition keeps the invariant and adds exactly its own event. */
  lemma ApplyKeeps(o: Registry, st: State, e: Event, at: Option<int>)
    requires StateOk(o, st) && Sound(o, e.statement) && InputsAvailable(o, st.outputs, e.statement)
    requires ApplyEvent(st, e, at).Ok?
    ensures var st' := ApplyEvent(st, e, at).value;
            StateOk(o, st') && KeysOf(st'.events) == KeysOf(st.events) + {KeyOf(e)} && st'.roots == st.roots
  {
    hide StateOk;
    hide Record;
    hide Admit;
    hide Sound;
    FindEventFinds(st.events, e.id);
    if FindEvent(st.events, e.id).None? {
      RecordShape(st, e);
      RecordKeeps(o, st, e, at);
      assert (st.events + [e])[..|st.events|] == st.events;
    } else {
      KeysContain(st.events, FindEvent(st.events, e.id).value);
    }
  }

  // ----- the transition in place -----

  lemma LockAllStep(locks: map<Tag, Id>, tags: seq<Tag>, tag: Tag, demand: Id)
    ensures LockAll(locks, tags + [tag], demand) ==
            if tag.TagOf? then LockAll(locks, tags, demand)[tag := demand] else LockAll(locks, tags, demand)
  {
  }

  function SpendFirst(st: State, nullifiers: seq<Id>): State {
    st.(spent := st.spent + SetOf(nullifiers), spentTags := st.spentTags + set n | n in nullifiers :: TagOf(n))
  }

  lemma {:induction false} ApplyAllFails(st: State, events: seq<Event>, n: nat, at: Option<int>, refusal: Refusal)
    requires n <= |events| && ApplyAll(st, events[..n], at) == Err(refusal)
    ensures ApplyAll(st, events, at) == Err(refusal)
    decreases |events| - n
  {
    hide ApplyEvent;
    if n < |events| {
      assert events[..n + 1][..n] == events[..n];
      ApplyAllFails(st, events, n + 1, at, refusal);
    } else {
      assert events[..n] == events;
    }
  }

  /** An admitted event of an issue or a burn whose supply goes out of bounds. */
  predicate OutOfBounds(st: State, e: Event, at: Option<int>) {
    && FindEvent(st.events, e.id).None? && Admit(st, e.statement, at).Pass?
    && MovesSupply(e.statement) && !(0 <= SupplyAfter(st, e.statement) < VALUE_BOUND)
  }

  /** What such an event leaves is the history before it exactly where it spends and creates nothing. */
  lemma OutOfBoundsLeaves(st: State, e: Event, at: Option<int>)
    requires OutOfBounds(st, e, at)
    ensures SpendAll(st, e.statement) == st <==> e.statement.body.nullifiers == [] && e.statement.body.outputs == []
  {
    var s := e.statement;
    AdmitFacts(st, s, at);
    if s.body.nullifiers != [] {
      var n := s.body.nullifiers[0];
      assert n in s.body.nullifiers;
      assert n !in st.spent && n in SpendAll(st, s).spent;
    }
    if s.body.outputs != [] {
      assert |SpendAll(st, s).outputs| > |st.outputs|;
    }
  }

  /** A history as the service and the replayer hold it: its collections change in place. */
  class History {
    var events: seq<Event>
    var roots: map<Root, seq<Id>>
    var spent: set<Id>
    var outputs: seq<Id>
    var totals: map<Id, int>
    var spentTags: set<Tag>
    var locks: map<Tag, Id>
    var standing: map<Id, Statement>

    function View(): State
      reads this
    {
      State(events, roots, spent, outputs, totals, spentTags, locks, standing)
    }

    constructor (st: State)
      ensures View() == st
    {
      events, roots, spent, outputs := st.events, st.roots, st.spent, st.outputs;
      totals, spentTags, locks, standing := st.totals, st.spentTags, st.locks, st.standing;
    }

    method SetRoot(root: Root, leaves: seq<Id>)
      modifies this
      ensures View() == old(View()).(roots := old(roots)[root := leaves])
    {
      roots := roots[root := leaves];
    }

    /** A refusal leaves the history unchanged, except that a supply out of bounds is found after the notes are spent and created. */
    method Apply(e: Event, at: Option<int>) returns (refusal: Option<Refusal>)
      modifies this
      ensures refusal.None? ==> ApplyEvent(old(View()), e, at) == Ok(View())
      ensures refusal.Some? ==> ApplyEvent(old(View()), e, at) == Err(refusal.value)
      ensures refusal.Some? && !OutOfBounds(old(View()), e, at) ==> View() == old(View())
      ensures OutOfBounds(old(View()), e, at) ==> refusal == Some(SupplyBound) && View() == SpendAll(old(View()), e.statement)
    {
      var prior := FindEvent(events, e.id);
      if prior.Some? {
        if prior.value.statement.id == e.statement.id { return None; }
        return Some(ConflictingPrefix);
      }
      var s, now := e.statement, View();
      var demand := Discharged(now, s);
      var verdict := Admit(now, s, at);
      if verdict.Fail? { return Some(verdict.error); }
      SpendInPlace(s);
      var bounded := MoveSupply(s);
      if !bounded { return Some(SupplyBound); }
      PlaceAndClear(s, demand);
      events := events + [e];
      return None;
    }

    /** Apply events in order, up to the first refusal. */
    method ApplyEach(events: seq<Event>, at: Option<int>) returns (refusal: Option<Refusal>)
      modifies this
      ensures ApplyAll(old(View()), events, at) == if refusal.None? then Ok(View()) else Err(refusal.value)
    {
      hide ApplyEvent;
      for i := 0 to |events|
        invariant ApplyAll(old(View()), events[..i], at) == Ok(View())
      {
        assert events[..i + 1][..i] == events[..i];
        refusal := Apply(events[i], at);
        if refusal.Some? {
          ApplyAllFails(old(View()), events, i + 1, at, refusal.value);
          return;
        }
      }
      assert events[..|events|] == events;
      return None;
    }

    method MoveSupply(s: Statement) returns (bounded: bool)
      modifies this
      ensures bounded == (MovesSupply(s) ==> 0 <= SupplyAfter(old(View()), s) < VALUE_BOUND)
      ensures View() == if bounded then SupplyMoved(old(View()), s) else old(View())
    {
      if MovesSupply(s) {
        var lit := s.body.lit.value;
        var after := TotalOf(totals, lit.backing) + (if s.body.kind.Issue? then lit.quantity else -lit.quantity);
        if !(0 <= after < VALUE_BOUND) { return false; }
        totals := totals[lit.backing := after];
      }
      return true;
    }

    method PlaceAndClear(s: Statement, demand: Option<Statement>)
      modifies this
      ensures View() == DemandCleared(DemandPlaced(old(View()), s), demand)
    {
      if s.body.kind.Demand? {
        standing := standing[s.id := s];
        LockInPlace(LitTags(s), s.id);
      }
      if demand.Some? {
        standing := standing - {demand.value.id};
        UnlockInPlace(LitTags(demand.value), demand.value.id);
      }
    }

    method SpendInPlace(s: Statement)
      modifies this
      ensures View() == SpendAll(old(View()), s)
    {
      var nullifiers, made := s.body.nullifiers, s.body.outputs;
      for i := 0 to |nullifiers|
        invariant View() == SpendFirst(old(View()), nullifiers[..i])
      {
        assert nullifiers[..i + 1] == nullifiers[..i] + [nullifiers[i]];
        spent := spent + {nullifiers[i]};
        spentTags := spentTags + {TagOf(nullifiers[i])};
      }
      assert nullifiers[..|nullifiers|] == nullifiers;
      for i := 0 to |made|
        invariant View() == SpendFirst(old(View()), nullifiers).(outputs := old(outputs) + made[..i])
      {
        assert made[..i + 1] == made[..i] + [made[i]];
        outputs := outputs + [made[i]];
      }
      assert made[..|made|] == made;
    }

    method LockInPlace(tags: seq<Tag>, demand: Id)
      modifies this
      ensures View() == old(View()).(locks := LockAll(old(locks), tags, demand))
    {
      for i := 0 to |tags|
        invariant View() == old(View()).(locks := LockAll(old(locks), tags[..i], demand))
      {
        LockAllStep(old(locks), tags[..i], tags[i], demand);
        assert tags[..i + 1] == tags[..i] + [tags[i]];
        if tags[i].TagOf? { locks := locks[tags[i] := demand]; }
      }
      assert tags[..|tags|] == tags;
    }

    method UnlockInPlace(tags: seq<Tag>, demand: Id)
      modifies this
      ensures View() == old(View()).(locks := UnlockAll(old(locks), tags, demand))
    {
      for i := 0 to |tags|
        invariant View() == old(View()).(locks := UnlockAll(old(locks), tags[..i], demand))
      {
        assert tags[..i + 1] == tags[..i] + [tags[i]];
        if tags[i] in locks && locks[tags[i]] == demand { locks := locks - {tags[i]}; }
      }
      assert tags[..|tags|] == tags;
    }
  }
}
