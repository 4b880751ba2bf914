/**
 An obligor's revocation is one irrevocable cutoff: in every run, a history final after it holds
 no issue of the obligor's that was not itself final before it.
 */
module PoolRevocation {
  import opened PoolOracle
  import opened PoolState
  import opened PoolVenue
  import opened PoolHistory
  import opened PoolSafety

  ghost predicate FinalBefore(records: seq<Recorded>, e: Event, revoked: nat) {
    exists j :: 0 <= j < |records| && records[j].status.Final? && records[j].at < revoked && HoldsEvent(records[j].checkpoint, e)
  }

  ghost predicate CutOff(w: World, r: Recorded, e: Event) {
    var revoked := RevokedAt(w, e.statement);
    revoked.Some? && revoked.value < r.at ==> FinalBefore(w.records, e, revoked.value)
  }

  predicate IssueKnown(chains: map<Id, seq<Term>>, s: Statement) {
    s.body.kind.Issue? && s.body.lit.Some? ==> s.body.lit.value.backing in chains
  }

  ghost predicate CutOffOk(w: World) {
    (forall b | b in w.obligors :: b in w.chains) && (forall b | b in w.chains :: b in w.obligors) &&
    (forall obligor | obligor in w.revocations :: w.revocations[obligor] <= w.now) &&
    forall k | FinalAt(w.records, k) ::
      forall e | e in w.records[k].state.value.events :: CutOff(w, w.records[k], e) && IssueKnown(w.chains, e.statement)
  }

  lemma {:induction false} PriorHolderIs(records: seq<Recorded>, e: Event, revoked: nat)
    ensures PriorHolder(records, e, revoked).Some? ==> FinalBefore(records, e, revoked)
  {
    if records != [] {
      var before := records[..|records| - 1];
      PriorHolderIs(before, e, revoked);
      if PriorHolder(before, e, revoked).Some? {
        var j :| 0 <= j < |before| && before[j].status.Final? && before[j].at < revoked && HoldsEvent(before[j].checkpoint, e);
        assert records[j] == before[j];
      }
    }
  }

  lemma FinalBeforeAppend(records: seq<Recorded>, r: Recorded, e: Event, revoked: nat)
    requires FinalBefore(records, e, revoked)
    ensures FinalBefore(records + [r], e, revoked)
  {
    var j :| 0 <= j < |records| && records[j].status.Final? && records[j].at < revoked && HoldsEvent(records[j].checkpoint, e);
    assert (records + [r])[j] == records[j];
  }

  lemma OwnIssueKnown(o: Registry, chains: map<Id, seq<Term>>, c: Checkpoint, s: Statement, at: nat)
    requires RegistryOk(o) && OwnEvents(o, c) && exists i :: 0 <= i < |c.events| && c.events[i].statement == s
    requires forall b | b in Names(c) :: OperatorIs(chains, b, at, c.operator)
    ensures IssueKnown(chains, s)
  {
    var i :| 0 <= i < |c.events| && c.events[i].statement == s;
    assert OwnEvent(o, c, i);
    if s.body.kind.Issue? {
      var made := o.witnesses[s].outputs[0];
      assert made in o.witnesses[s].inputs + o.witnesses[s].outputs;
      assert made.backing in Names(c) && OperatorIs(chains, made.backing, at, c.operator);
    }
  }

  lemma {:induction false} KeysUnderHolder(records: seq<Recorded>, parents: seq<Id>, key: Key) returns (k: nat)
    requires key in KeysUnder(records, parents)
    ensures FinalAt(records, k) && key in KeysOf(records[k].state.value.events)
  {
    var last := parents[|parents| - 1];
    if key in KeysAt(records, last) {
      k := FindRecord(records, last).value;
    } else {
      k := KeysUnderHolder(records, parents[..|parents| - 1], key);
    }
  }

  /** Every issue in a judged history is of a registered backing. */
  lemma JudgedIssueKnown(w: World, c: Checkpoint, e: Event)
    requires WorldOk(w) && CutOffOk(w) && Judge(w, c).Ok? && Judge(w, c).value.Some?
    requires e in Judge(w, c).value.value.events
    ensures IssueKnown(w.chains, e.statement)
  {
    hide Judge;
    hide StateOk;
    hide NoDoubleSpend;
    hide LatestAllOk;
    hide SegmentsOk;
    hide KeysUnder;
    hide OwnEvents;
    hide Sound;
    hide CutOff;
    hide RegistryOk;
    JudgedHistory(w, c);
    JudgedOperators(w, c);
    SoundEvents(w.oracle, Judge(w, c).value.value);
    KeysContain(Judge(w, c).value.value.events, e);
    if KeyOf(e) in KeysOf(c.events) {
      var own := KeyHolder(c.events, KeyOf(e));
      OwnSound(w.oracle, c, own);
      IdNamesBody(w.oracle, own.statement, e.statement);
      OwnIssueKnown(w.oracle, w.chains, c, own.statement, w.now);
    } else {
      var k := KeysUnderHolder(w.records, ParentIds(c.openings), KeyOf(e));
      var held := KeyHolder(w.records[k].state.value.events, KeyOf(e));
      assert RecordOk(w.oracle, w.chains, w.records, w.records[k]);
      SoundEvents(w.oracle, w.records[k].state.value);
      IdNamesBody(w.oracle, held.statement, e.statement);
    }
  }

  lemma OwnSound(o: Registry, c: Checkpoint, e: Event)
    requires OwnEvents(o, c) && e in c.events
    ensures e.statement in o.witnesses
  {
    var i :| 0 <= i < |c.events| && c.events[i] == e;
    assert OwnEvent(o, c, i);
  }

  lemma IncludeCuts(w: World, c: Checkpoint)
    requires WorldOk(w) && CutOffOk(w) && Include(w, c).Ok?
    ensures CutOffOk(Include(w, c).value)
  {
    hide Judge;
    hide WorldOk;
    hide IssueKnown;
    hide HoldsEvent;
    var w', r := Include(w, c).value, Validate(w, c);
    forall k, e | FinalAt(w'.records, k) && e in w'.records[k].state.value.events
      ensures CutOff(w', w'.records[k], e) && IssueKnown(w'.chains, e.statement)
    {
      var revoked := RevokedAt(w, e.statement);
      if k < |w.records| {
        assert FinalAt(w.records, k) && w'.records[k] == w.records[k];
        if revoked.Some? && revoked.value < w.records[k].at { FinalBeforeAppend(w.records, r, e, revoked.value); }
      } else {
        JudgedIssueKnown(w, c, e);
        JudgeRevocations(w, c);
        if revoked.Some? && revoked.value < w.now {
          assert Issuable(w, e, w.now);
          PriorHolderIs(w.records, e, revoked.value);
          FinalBeforeAppend(w.records, r, e, revoked.value);
        }
      }
    }
  }

  lemma JudgeRevocations(w: World, c: Checkpoint)
    requires Judge(w, c).Ok? && Judge(w, c).value.Some?
    ensures RevocationsHold(w, Judge(w, c).value.value, w.now)
  {
    hide Merge;
    hide Replay;
    hide ScopeEnded;
    hide Continues;
    hide ParentsRanked;
    hide RevocationsHold;
  }

  lemma RevokeCut(w: World, obligor: Id, r: Recorded, e: Event)
    requires CutOff(w, r, e) && r.at <= w.now && obligor !in w.revocations
    ensures CutOff(w.(revocations := w.revocations[obligor := w.now]), r, e)
  {
    hide FinalBefore;
  }

  lemma RevokeCuts(w: World, obligor: Id)
    requires WorldOk(w) && CutOffOk(w)
    ensures CutOffOk(Next(w, Step.Revoke(obligor)).value)
  {
    hide WorldOk;
    hide IssueKnown;
    hide CutOff;
    var w' := Next(w, Step.Revoke(obligor)).value;
    if obligor !in w.revocations {
      forall k, e | FinalAt(w'.records, k) && e in w'.records[k].state.value.events
        ensures CutOff(w', w'.records[k], e) && IssueKnown(w'.chains, e.statement)
      {
        assert FinalAt(w.records, k);
        WitnessedBy(w, k);
        RevokeCut(w, obligor, w.records[k], e);
      }
    }
  }

  lemma WitnessedBy(w: World, k: nat)
    requires WorldOk(w) && k < |w.records|
    ensures w.records[k].at <= w.now
  {
    hide RecordsOk;
    hide NoDoubleSpend;
    hide LatestAllOk;
    hide SegmentsOk;
  }

  lemma RegisterCuts(w: World, b: Id, operator: Id, domain: Id, obligor: Id)
    requires WorldOk(w) && CutOffOk(w) && RegisterBacking(w, b, operator, domain, obligor).Ok?
    ensures CutOffOk(RegisterBacking(w, b, operator, domain, obligor).value)
  {
    hide WorldOk;
    hide FinalBefore;
    var w' := RegisterBacking(w, b, operator, domain, obligor).value;
    forall k, e | FinalAt(w'.records, k) && e in w'.records[k].state.value.events
      ensures CutOff(w', w'.records[k], e) && IssueKnown(w'.chains, e.statement)
    {
      assert FinalAt(w.records, k) && CutOff(w, w.records[k], e) && IssueKnown(w.chains, e.statement);
    }
  }

  /** No other step changes the record, the revocations or whose obligor a backing's is. */
  lemma OtherSteps(w: World, step: Step)
    requires !step.Register? && !step.Revoke? && !step.IncludeSigned? && Next(w, step).Ok?
    ensures var w' := Next(w, step).value;
            w'.records == w.records && w'.revocations == w.revocations && w'.obligors == w.obligors &&
            w'.chains.Keys == w.chains.Keys && w'.now >= w.now
  {
    hide MakeNote;
    hide Prove;
  }

  lemma NextCuts(w: World, step: Step)
    requires WorldOk(w) && CutOffOk(w) && Next(w, step).Ok?
    ensures CutOffOk(Next(w, step).value)
  {
    hide WorldOk;
    hide Include;
    hide FinalBefore;
    hide RegisterBacking;
    hide ReplaceOperator;
    hide MakeNote;
    hide Prove;
    hide SignDraft;
    match step
    case Register(b, operator, domain, obligor) => RegisterCuts(w, b, operator, domain, obligor);
    case Revoke(obligor) => RevokeCuts(w, obligor);
    case IncludeSigned(c) => IncludeCuts(w, c);
    case _ =>
      var w' := Next(w, step).value;
      OtherSteps(w, step);
      forall k, e | FinalAt(w'.records, k) && e in w'.records[k].state.value.events
        ensures CutOff(w', w'.records[k], e) && IssueKnown(w'.chains, e.statement)
      {
        assert FinalAt(w.records, k) && CutOff(w, w.records[k], e) && IssueKnown(w.chains, e.statement);
      }
  }

  /** In every run a history final after a revocation holds no issue of the obligor's but those final before it. */
  lemma {:induction false} RevocationsCutIssuance(lag: nat, steps: seq<Step>)
    ensures WorldOk(Run(EmptyWorld(lag), steps)) && CutOffOk(Run(EmptyWorld(lag), steps))
  {
    hide WorldOk;
    hide CutOffOk;
    hide Next;
    RunKeeps(lag, steps);
    if steps == [] {
      EmptyCuts(lag);
    } else {
      RevocationsCutIssuance(lag, steps[..|steps| - 1]);
      var before := Run(EmptyWorld(lag), steps[..|steps| - 1]);
      if Next(before, steps[|steps| - 1]).Ok? { NextCuts(before, steps[|steps| - 1]); }
    }
  }

  lemma EmptyCuts(lag: nat)
    ensures CutOffOk(EmptyWorld(lag))
  {
  }
}
