/**
 The venue and its record: terms of each backing, revocations, signed checkpoints and their
 finality. Operators are adversaries: they sign checkpoints of any content. `Next` is one step
 of the world; whatever a checkpoint claims, only `Validate` decides that it is final.
 */
module PoolVenue {
  import opened Wrappers
  import opened PoolOracle
  import opened PoolState

  datatype Opening = Opening(backing: Id, parent: Option<Id>)
  datatype Checkpoint = Checkpoint(
    id: Id, operator: Id, sequence: nat, signedAt: nat, segment: Id, openingSequence: nat, scope: Scope,
    openings: seq<Opening>, events: seq<Event>, carries: seq<Id>)
  datatype Status = Final | Lapsed | Invalid
  datatype Recorded = Recorded(checkpoint: Checkpoint, at: nat, status: Status, state: Option<State>, reason: Option<Refusal>)

  datatype World = World(
    now: nat, lag: nat, oracle: Registry, records: seq<Recorded>,
    withheld: set<Id>, withheldDirectories: set<Id>, withheldScopes: set<Id>,
    chains: map<Id, seq<Term>>, domains: map<Id, Id>, obligors: map<Id, Id>, revocations: map<Id, nat>,
    highestSigned: map<Id, nat>, inFlight: map<Id, Checkpoint>, signatures: set<Checkpoint>, latest: map<Id, Id>, serial: nat)

  function EmptyWorld(lag: nat): World {
    World(0, lag, EmptyRegistry(), [], {}, {}, {}, map[], map[], map[], map[], map[], map[], {}, map[], 0)
  }

  // ----- terms -----

  /** The last term whose force has come by `at`. */
  function TermAt(chain: seq<Term>, at: nat): Option<Term> {
    if chain == [] then None
    else if chain[|chain| - 1].from <= at then Some(chain[|chain| - 1])
    else TermAt(chain[..|chain| - 1], at)
  }

  predicate OperatorIs(chains: map<Id, seq<Term>>, backing: Id, at: nat, operator: Id) {
    backing in chains && TermAt(chains[backing], at).Some? && TermAt(chains[backing], at).value.operator == operator
  }

  predicate InForce(chains: map<Id, seq<Term>>, e: Term, at: nat) {
    e.backing in chains && TermAt(chains[e.backing], at).Some? && TermAt(chains[e.backing], at).value.link == e.link
  }

  predicate HasTerm(chain: seq<Term>, e: Term) {
    exists i :: 0 <= i < |chain| && chain[i].link == e.link && chain[i].operator == e.operator && chain[i].from == e.from
  }

  /** Whether the term after the one `link` names has come into force. */
  predicate TermEnded(chain: seq<Term>, link: Link, at: nat) {
    exists i :: 0 <= i < |chain| - 1 && chain[i].link == link && chain[i + 1].from <= at
  }

  // ----- the record -----

  function FindRecord(records: seq<Recorded>, id: Id): Option<nat> {
    if records == [] then None
    else
      var before := FindRecord(records[..|records| - 1], id);
      if before.Some? then before
      else if records[|records| - 1].checkpoint.id == id then Some(|records| - 1) else None
  }

  function FirstOfSegment(records: seq<Recorded>, segment: Id): Option<nat> {
    if records == [] then None
    else
      var before := FirstOfSegment(records[..|records| - 1], segment);
      if before.Some? then before
      else if records[|records| - 1].checkpoint.segment == segment then Some(|records| - 1) else None
  }

  function LastFinal(records: seq<Recorded>, segment: Id): Option<nat> {
    if records == [] then None
    else if records[|records| - 1].status.Final? && records[|records| - 1].checkpoint.segment == segment then Some(|records| - 1)
    else LastFinal(records[..|records| - 1], segment)
  }

  function LastSequence(records: seq<Recorded>, operator: Id): Option<nat> {
    if records == [] then None
    else if records[|records| - 1].checkpoint.operator == operator then Some(records[|records| - 1].checkpoint.sequence)
    else LastSequence(records[..|records| - 1], operator)
  }

  predicate HoldsEvent(c: Checkpoint, e: Event) {
    exists i :: 0 <= i < |c.events| && c.events[i].id == e.id && c.events[i].statement.id == e.statement.id
  }

  /** The first final record before `revoked` that holds an event. */
  function PriorHolder(records: seq<Recorded>, e: Event, revoked: nat): Option<nat> {
    if records == [] then None
    else
      var before := PriorHolder(records[..|records| - 1], e, revoked);
      if before.Some? then before
      else
        var r := records[|records| - 1];
        if r.at < revoked && r.status.Final? && HoldsEvent(r.checkpoint, e) then Some(|records| - 1) else None
  }

  function RevokedAt(w: World, s: Statement): Option<nat> {
    if s.body.kind.Issue? && s.body.lit.Some? && s.body.lit.value.backing in w.obligors &&
       w.obligors[s.body.lit.value.backing] in w.revocations
    then Some(w.revocations[w.obligors[s.body.lit.value.backing]]) else None
  }

  predicate Issuable(w: World, e: Event, at: nat) {
    var revoked := RevokedAt(w, e.statement);
    revoked.None? || at < revoked.value ||
    (var prior := PriorHolder(w.records, e, revoked.value);
     prior.Some? && prior.value < |w.records| &&
     var id := w.records[prior.value].checkpoint.id;
     id !in w.withheld && id !in w.withheldDirectories && id !in w.withheldScopes)
  }

  /** No event of a history issues under a revocation it was not final before. */
  predicate RevocationsHold(w: World, st: State, at: nat) {
    forall e | e in st.events :: Issuable(w, e, at)
  }

  // ----- opening a history from its parents -----

  /** Whether a held checkpoint's history may be imported: it and every ancestor available, final and not revoked. */
  predicate Importable(w: World, k: nat)
    decreases k
  {
    k < |w.records| && w.records[k].checkpoint.id !in w.withheld && w.records[k].status.Final? && w.records[k].state.Some? &&
    RevocationsHold(w, w.records[k].state.value, w.records[k].at) &&
    forall op | op in w.records[k].checkpoint.openings && op.parent.Some? ::
      var j := FindRecord(w.records, op.parent.value);
      j.Some? && j.value < k && Importable(w, j.value)
  }

  lemma ImportableFinal(w: World, k: nat)
    requires Importable(w, k)
    ensures k < |w.records| && w.records[k].status.Final? && w.records[k].state.Some?
  {
  }

  function ParentIds(openings: seq<Opening>): seq<Id> {
    if openings == [] then []
    else
      var before, last := ParentIds(openings[..|openings| - 1]), openings[|openings| - 1].parent;
      if last.None? || last.value in before then before else before + [last.value]
  }

  function MergeAll(w: World, parents: seq<Id>): Result<State, Refusal> {
    if parents == [] then Ok(EmptyState())
    else
      var before :- MergeAll(w, parents[..|parents| - 1]);
      var k := FindRecord(w.records, parents[|parents| - 1]);
      :- Need(k.Some?, NotHeld);
      :- Need(Importable(w, k.value), NotFinalized);
      var parent := w.records[k.value].state.value;
      var merged :- ApplyAll(before, parent.events, Some(w.now));
      Ok(merged.(roots := merged.roots + parent.roots))
  }

  function Merge(w: World, openings: seq<Opening>): Result<State, Refusal> {
    MergeAll(w, ParentIds(openings))
  }

  // ----- validation -----

  function Names(c: Checkpoint): seq<Id> {
    EntryBackings(c.scope.entries)
  }

  function OpeningNames(c: Checkpoint): seq<Id> {
    seq(|c.openings|, i requires 0 <= i < |c.openings| => c.openings[i].backing)
  }

  function StatementIds(events: seq<Event>): seq<Id> {
    seq(|events|, i requires 0 <= i < |events| => events[i].statement.id)
  }

  function LeavesOf(events: seq<Event>): seq<Id> {
    OutputsOf(events)
  }

  predicate Ascending(s: seq<Id>) {
    forall i | 0 < i < |s| :: s[i - 1] <= s[i]
  }

  predicate SameHeader(known: Checkpoint, c: Checkpoint) {
    known.openingSequence == c.openingSequence && known.scope.root == c.scope.root && known.scope.domain == c.scope.domain &&
    known.operator == c.operator && known.scope.entries == c.scope.entries && known.openings == c.openings
  }

  /** Whether a term of the checkpoint's scope has ended, once its public structure holds. */
  function ScopeEnded(w: World, c: Checkpoint): Result<bool, Refusal> {
    var names, entries := Names(c), c.scope.entries;
    :- Need(names != [] && Distinct(names) && Ascending(names), ScopeShape);
    :- Need(c.operator == c.scope.operator && forall e | e in entries :: e.operator == c.operator, ScopeOperator);
    :- Need(forall e | e in entries :: e.backing in w.chains && HasTerm(w.chains[e.backing], e), ScopeTerm);
    :- Need(forall b | b in names :: b in w.domains && w.domains[b] == c.scope.domain, WrongDomain);
    :- Need(OpeningNames(c) == names, OpeningMismatch);
    var known := FirstOfSegment(w.records, c.segment);
    :- Need(known.Some? && known.value < |w.records| ==> SameHeader(w.records[known.value].checkpoint, c), ChangedHeader);
    Ok(exists e | e in entries :: e.backing in w.chains && TermEnded(w.chains[e.backing], e.link, w.now))
  }

  /** A parent is a held checkpoint of the same domain, of an earlier index or an earlier one of the same operator. */
  function ParentRanked(w: World, c: Checkpoint, parent: Id): Outcome<Refusal> {
    var k := FindRecord(w.records, parent);
    if k.None? || k.value >= |w.records| then Fail(NotHeld)
    else
      var source := w.records[k.value];
      if source.checkpoint.scope.domain != c.scope.domain then Fail(WrongDomain)
      else if !(source.at < w.now || (source.at == w.now && source.checkpoint.operator == c.operator && source.checkpoint.sequence < c.sequence))
      then Fail(CausalRank) else Pass
  }

  function ParentsRanked(w: World, c: Checkpoint, n: nat): Outcome<Refusal>
    requires n <= |c.openings|
  {
    if n == 0 then Pass
    else
      var before := ParentsRanked(w, c, n - 1);
      if before.Fail? || c.openings[n - 1].parent.None? then before else ParentRanked(w, c, c.openings[n - 1].parent.value)
  }

  function LatestFor(w: World, backing: Id): Option<Id> {
    if backing in w.latest then Some(w.latest[backing]) else None
  }

  /** Every carried backing's latest checkpoint is the segment's own last final one, or the one it opened from. */
  predicate Continues(w: World, c: Checkpoint)
    requires OpeningNames(c) == Names(c)
  {
    var previous := LastFinal(w.records, c.segment);
    forall i | 0 <= i < |c.openings| ::
      LatestFor(w, c.openings[i].backing) ==
      if previous.Some? && previous.value < |w.records| then Some(w.records[previous.value].checkpoint.id) else c.openings[i].parent
  }

  predicate KeepsPrefix(previous: Checkpoint, c: Checkpoint) {
    |previous.events| <= |c.events| && StatementIds(previous.events) == StatementIds(c.events[..|previous.events|])
  }

  function ReplayEvent(w: World, c: Checkpoint, st: State, i: nat): Result<State, Refusal>
    requires i < |c.events|
  {
    var e := c.events[i];
    :- Need(e.id == EventId(c.segment, i), EventPosition);
    :- Need(e.statement.body.segment == c.segment, AdoptionUnsupported);
    :- Need(Verify(w.oracle, e.statement, c.scope, st.roots), Proof);
    var after :- ApplyEvent(st, e, Some(w.now));
    Ok(after.(roots := after.roots[RootAt(c.segment, i + 1) := LeavesOf(c.events[..i + 1])]))
  }

  function Replay(w: World, c: Checkpoint, merged: State, n: nat): Result<State, Refusal>
    requires n <= |c.events|
  {
    if n == 0 then Ok(merged.(roots := merged.roots[RootAt(c.segment, 0) := []]))
    else
      var before :- Replay(w, c, merged, n - 1);
      ReplayEvent(w, c, before, n - 1)
  }

  /** Whether a checkpoint lapses, once its structure, its parents and its predecessors hold. */
  function Linkage(w: World, c: Checkpoint): Result<bool, Refusal> {
    var ended :- ScopeEnded(w, c);
    if ended then Ok(true)
    else
      :- Need(forall e | e in c.scope.entries :: InForce(w.chains, e, w.now), ScopeNotInForce);
      :- ParentsRanked(w, c, |c.openings|);
      :- Need(c.carries == Names(c), IncompleteScope);
      :- Need(OpeningNames(c) == Names(c) && Continues(w, c), StaleContinuation);
      var previous := LastFinal(w.records, c.segment);
      :- Need(previous.Some? && previous.value < |w.records| ==> KeepsPrefix(w.records[previous.value].checkpoint, c), RewrittenPrefix);
      Ok(false)
  }

  /** The history a checkpoint claims, rebuilt from its parents and its own events. */
  function Rebuild(w: World, c: Checkpoint): Result<State, Refusal> {
    var merged :- Merge(w, c.openings);
    var state :- Replay(w, c, merged, |c.events|);
    :- Need(RevocationsHold(w, state, w.now), RevokedIssuance);
    Ok(state)
  }

  /** The verdict on a checkpoint witnessed now: a history, a lapse (None) or a refusal. */
  function Judge(w: World, c: Checkpoint): Result<Option<State>, Refusal> {
    var ended :- Linkage(w, c);
    if ended then Ok(None)
    else
      var state :- Rebuild(w, c);
      Ok(Some(state))
  }

  function Validate(w: World, c: Checkpoint): Recorded {
    var verdict := Judge(w, c);
    match verdict
    case Err(reason) => Recorded(c, w.now, Invalid, None, Some(reason))
    case Ok(None) => Recorded(c, w.now, Lapsed, None, None)
    case Ok(Some(state)) => Recorded(c, w.now, Final, Some(state), None)
  }

  /** The backings whose latest checkpoint an included one becomes: those it carries under its operator's term. */
  function Carried(w: World, c: Checkpoint): set<Id> {
    set b | b in Names(c) && b in c.carries && OperatorIs(w.chains, b, w.now, c.operator)
  }

  function Include(w: World, c: Checkpoint): Result<World, Refusal> {
    var prior := LastSequence(w.records, c.operator);
    :- Need(c in w.signatures, NotSigned);
    :- Need(w.now >= c.signedAt + w.lag, TooEarly);
    :- Need(prior.Some? ==> prior.value < c.sequence, MovedPast);
    var record := Validate(w, c);
    Ok(w.(records := w.records + [record],
          latest := if record.status.Lapsed? then w.latest else w.latest + map b | b in Carried(w, c) :: c.id))
  }

  // ----- steps -----

  datatype Step =
    | Tick(n: nat)
    | Register(backing: Id, operator: Id, domain: Id, obligor: Id)
    | Revoke(obligor: Id)
    | Replace(backing: Id, operator: Id, effective: nat)
    | NewNote(backing: Id, value: int, domain: Id, owner: Option<Id>)
    | NewProof(segment: Id, scope: Scope, kind: Kind, inputs: seq<Note>, outputs: seq<Note>, anchors: seq<Root>,
               lit: Option<Lit>, signedByK: bool)
    | Withhold(histories: set<Id>, directories: set<Id>, scopes: set<Id>)
    | Sign(draft: Checkpoint)
    | IncludeSigned(checkpoint: Checkpoint)

  function RegisterBacking(w: World, backing: Id, operator: Id, domain: Id, obligor: Id): Result<World, Refusal> {
    if backing in w.chains then Err(DuplicateBacking)
    else
      Ok(w.(chains := w.chains[backing := [Term(backing, operator, Link.Genesis(backing), 0)]],
            domains := w.domains[backing := domain], obligors := w.obligors[backing := obligor]))
  }

  function ReplaceOperator(w: World, backing: Id, operator: Id, effective: nat): Result<World, Refusal> {
    if !(backing in w.chains && |w.chains[backing]| > 0) then Err(UnknownBacking)
    else
      var chain := w.chains[backing];
      :- Need(effective >= w.now + 2 * w.lag + 1 && effective > chain[|chain| - 1].from, LeadFloor);
      Ok(w.(serial := w.serial + 1,
            chains := w.chains[backing := chain + [Term(backing, operator, Link.Replacement(w.serial + 1), effective)]]))
  }

  function NextSequence(w: World, operator: Id): nat {
    (if operator in w.highestSigned then w.highestSigned[operator] else 0) + 1
  }

  /** A signed checkpoint of any content: only its identity, its sequence and its signing index are not the signer's to choose. */
  function SignDraft(w: World, draft: Checkpoint): World {
    var c := draft.(id := w.serial + 1, sequence := NextSequence(w, draft.operator), signedAt := w.now);
    w.(serial := w.serial + 1, highestSigned := w.highestSigned[c.operator := c.sequence],
       inFlight := w.inFlight[c.operator := c], signatures := w.signatures + {c})
  }

  /** An operator's own signer keeps one checkpoint in flight; the safety of the record does not rest on it. */
  predicate Free(w: World, operator: Id) {
    operator !in w.inFlight ||
    (exists r | r in w.records :: r.checkpoint == w.inFlight[operator]) ||
    w.now >= w.inFlight[operator].signedAt + w.lag
  }

  function Next(w: World, step: Step): Result<World, Refusal> {
    match step
    case Tick(n) => if n > 0 then Ok(w.(now := w.now + n)) else Err(Clock)
    case Register(b, operator, domain, obligor) => RegisterBacking(w, b, operator, domain, obligor)
    case Revoke(obligor) => Ok(if obligor in w.revocations then w else w.(revocations := w.revocations[obligor := w.now]))
    case Replace(b, operator, effective) => ReplaceOperator(w, b, operator, effective)
    case NewNote(b, value, domain, owner) => Ok(w.(oracle := MakeNote(w.oracle, b, value, domain, owner).0))
    case NewProof(segment, scope, kind, inputs, outputs, anchors, lit, signedByK) =>
      Ok(w.(oracle := Prove(w.oracle, segment, scope, kind, inputs, outputs, anchors, lit, signedByK).0))
    case Withhold(histories, directories, scopes) =>
      Ok(w.(withheld := histories, withheldDirectories := directories, withheldScopes := scopes))
    case Sign(draft) => Ok(SignDraft(w, draft))
    case IncludeSigned(c) => Include(w, c)
  }

  /** A run: a refused step changes nothing. */
  function Run(w: World, steps: seq<Step>): World {
    if steps == [] then w
    else
      var before := Run(w, steps[..|steps| - 1]);
      var after := Next(before, steps[|steps| - 1]);
      if after.Ok? then after.value else before
  }
}
