/**
 The world as it runs: one object whose fields every operation updates in place, each operation
 proved to be its step of `PoolVenue`, and the semantic observer that looks for violations.
 */
module PoolWorld {
  import opened Wrappers
  import opened PoolOracle
  import opened PoolState
  import V = PoolVenue
  import opened PoolHistory
  import opened PoolSafety

  datatype Violation = DoubleSpend(nf: Id) | UnauthorizedBacking(cm: Id)

  class World {
    var now: nat
    const lag: nat
    var oracle: Registry
    var records: seq<V.Recorded>
    var withheld: set<Id>
    var withheldDirectories: set<Id>
    var withheldScopes: set<Id>
    var chains: map<Id, seq<Term>>
    var domains: map<Id, Id>
    var obligors: map<Id, Id>
    var revocations: map<Id, nat>
    var highestSigned: map<Id, nat>
    var inFlight: map<Id, V.Checkpoint>
    var signatures: set<V.Checkpoint>
    var latest: map<Id, Id>
    var serial: nat

    function View(): V.World
      reads this
    {
      V.World(now, lag, oracle, records, withheld, withheldDirectories, withheldScopes, chains, domains, obligors, revocations,
              highestSigned, inFlight, signatures, latest, serial)
    }

    constructor (lag: nat)
      ensures View() == V.EmptyWorld(lag) && WorldOk(View())
    {
      this.lag := lag;
      now, serial, oracle, records := 0, 0, EmptyRegistry(), [];
      withheld, withheldDirectories, withheldScopes := {}, {}, {};
      chains, domains, obligors, revocations := map[], map[], map[], map[];
      highestSigned, inFlight, signatures, latest := map[], map[], {}, map[];
      new;
      EmptyWorldOk(lag);
    }

    method Tick(n: nat) returns (refusal: Option<Refusal>)
      modifies this`now
      ensures V.Next(old(View()), V.Step.Tick(n)) == if refusal.None? then Ok(View()) else Err(refusal.value)
      ensures refusal.Some? ==> View() == old(View())
    {
      if n == 0 { return Some(Clock); }
      now := now + n;
      return None;
    }

    method Register(backing: Id, operator: Id, domain: Id, obligor: Id) returns (refusal: Option<Refusal>)
      modifies this
      ensures V.Next(old(View()), V.Step.Register(backing, operator, domain, obligor)) == if refusal.None? then Ok(View()) else Err(refusal.value)
      ensures refusal.Some? ==> View() == old(View())
    {
      if backing in chains { return Some(DuplicateBacking); }
      chains := chains[backing := [Term(backing, operator, Genesis(backing), 0)]];
      domains := domains[backing := domain];
      obligors := obligors[backing := obligor];
      return None;
    }

    /** One irrevocable cutoff per obligor: a second revocation changes nothing. */
    method Revoke(obligor: Id)
      modifies this`revocations
      ensures V.Next(old(View()), V.Step.Revoke(obligor)) == Ok(View())
      ensures obligor in old(revocations) ==> View() == old(View())
    {
      if obligor !in revocations { revocations := revocations[obligor := now]; }
    }

    method Replace(backing: Id, operator: Id, effective: nat) returns (refusal: Option<Refusal>)
      modifies this
      ensures V.Next(old(View()), V.Step.Replace(backing, operator, effective)) == if refusal.None? then Ok(View()) else Err(refusal.value)
      ensures refusal.Some? ==> View() == old(View())
    {
      if backing !in chains || |chains[backing]| == 0 { return Some(UnknownBacking); }
      var chain := chains[backing];
      if !(effective >= now + 2 * lag + 1 && effective > chain[|chain| - 1].from) { return Some(LeadFloor); }
      serial := serial + 1;
      chains := chains[backing := chain + [Term(backing, operator, Replacement(serial), effective)]];
      return None;
    }

    /** An operator's own signer: the adversary's step, taken only while none of its checkpoints is in flight. */
    method Sign(draft: V.Checkpoint) returns (signed: Result<V.Checkpoint, Refusal>)
      requires SignaturesOk(signatures, serial)
      modifies this
      ensures signed.Ok? <==> V.Free(old(View()), draft.operator)
      ensures signed.Ok? ==> View() == V.SignDraft(old(View()), draft) && signed.value in signatures && signed.value !in old(signatures)
      ensures signed.Err? ==> View() == old(View())
    {
      if !V.Free(View(), draft.operator) { return Err(OneInFlight); }
      serial := serial + 1;
      var sequence := V.NextSequence(View(), draft.operator);
      highestSigned := highestSigned[draft.operator := sequence];
      var c := draft.(id := serial, sequence := sequence, signedAt := now);
      signatures := signatures + {c};
      inFlight := inFlight[c.operator := c];
      return Ok(c);
    }

    /** Merge the histories of the distinct parents, each event once. */
    method Merge(openings: seq<V.Opening>) returns (merged: Result<State, Refusal>)
      ensures merged == V.Merge(View(), openings)
    {
      hide ApplyEvent;
      hide V.Importable;
      hide V.FindRecord;
      var parents := V.ParentIds(openings);
      var result := new History(EmptyState());
      for i := 0 to |parents|
        invariant V.MergeAll(View(), parents[..i]) == Ok(result.View()) && fresh(result)
      {
        ghost var rest := parents[..i + 1];
        assert rest[..i] == parents[..i] && rest[|rest| - 1] == parents[i];
        var k := V.FindRecord(records, parents[i]);
        if k.None? { MergeFails(View(), parents, i + 1, NotHeld); return Err(NotHeld); }
        if !V.Importable(View(), k.value) { MergeFails(View(), parents, i + 1, NotFinalized); return Err(NotFinalized); }
        V.ImportableFinal(View(), k.value);
        var parent := records[k.value].state.value;
        var refused := result.ApplyEach(parent.events, Some(now));
        if refused.Some? { MergeFails(View(), parents, i + 1, refused.value); return Err(refused.value); }
        result.roots := result.roots + parent.roots;
      }
      assert parents[..|parents|] == parents;
      return Ok(result.View());
    }

    /** Replay a checkpoint's own events over the merged history. */
    method Replay(c: V.Checkpoint, merged: State) returns (state: Result<State, Refusal>)
      ensures state == V.Replay(View(), c, merged, |c.events|)
    {
      hide ApplyEvent;
      hide Verify;
      var st := new History(merged);
      var leaves: seq<Id> := [];
      st.SetRoot(RootAt(c.segment, 0), []);
      for i := 0 to |c.events|
        invariant fresh(st) && leaves == OutputsOf(c.events[..i])
        invariant V.Replay(View(), c, merged, i) == Ok(st.View())
      {
        var e := c.events[i];
        assert c.events[..i + 1][..i] == c.events[..i];
        if e.id != EventId(c.segment, i) { ReplayFails(View(), c, merged, i + 1, EventPosition); return Err(EventPosition); }
        if e.statement.body.segment != c.segment { ReplayFails(View(), c, merged, i + 1, AdoptionUnsupported); return Err(AdoptionUnsupported); }
        if !Verify(oracle, e.statement, c.scope, st.roots) { ReplayFails(View(), c, merged, i + 1, Proof); return Err(Proof); }
        var refused := st.Apply(e, Some(now));
        if refused.Some? { ReplayFails(View(), c, merged, i + 1, refused.value); return Err(refused.value); }
        leaves := leaves + e.statement.body.outputs;
        st.SetRoot(RootAt(c.segment, i + 1), leaves);
      }
      return Ok(st.View());
    }

    method CheckLinkage(c: V.Checkpoint) returns (ended: Result<bool, Refusal>)
      ensures ended == V.Linkage(View(), c)
    {
      hide V.ScopeEnded;
      hide V.Continues;
      hide V.ParentsRanked;
      hide V.KeepsPrefix;
      hide V.InForce;
      hide V.LastFinal;
      var w := View();
      ended := V.ScopeEnded(w, c);
      if ended.Err? || ended.value { return; }
      if !(forall e | e in c.scope.entries :: V.InForce(w.chains, e, w.now)) { return Err(ScopeNotInForce); }
      var ranked := V.ParentsRanked(w, c, |c.openings|);
      if ranked.Fail? { return Err(ranked.error); }
      if c.carries != V.Names(c) { return Err(IncompleteScope); }
      if !(V.OpeningNames(c) == V.Names(c) && V.Continues(w, c)) { return Err(StaleContinuation); }
      var previous := V.LastFinal(w.records, c.segment);
      if previous.Some? && previous.value < |w.records| && !V.KeepsPrefix(w.records[previous.value].checkpoint, c) { return Err(RewrittenPrefix); }
    }

    method ValidateCheckpoint(c: V.Checkpoint) returns (r: V.Recorded)
      ensures r == V.Validate(View(), c)
    {
      hide V.Linkage;
      hide V.Merge;
      hide V.Replay;
      hide V.RevocationsHold;
      var ended := CheckLinkage(c);
      if ended.Err? { return V.Recorded(c, now, V.Invalid, None, Some(ended.error)); }
      if ended.value { return V.Recorded(c, now, V.Lapsed, None, None); }
      var merged := Merge(c.openings);
      if merged.Err? { return V.Recorded(c, now, V.Invalid, None, Some(merged.error)); }
      var state := Replay(c, merged.value);
      if state.Err? { return V.Recorded(c, now, V.Invalid, None, Some(state.error)); }
      if !V.RevocationsHold(View(), state.value, now) { return V.Recorded(c, now, V.Invalid, None, Some(RevokedIssuance)); }
      return V.Recorded(c, now, V.Final, Some(state.value), None);
    }

    /** Include a signed checkpoint: its record is kept whatever the verdict, and the invariant with it. */
    method Include(c: V.Checkpoint) returns (status: Result<V.Status, Refusal>)
      requires WorldOk(View())
      modifies this
      ensures WorldOk(View())
      ensures status.Ok? ==> V.Include(old(View()), c) == Ok(View()) && status.value == V.Validate(old(View()), c).status
      ensures status.Err? ==> V.Include(old(View()), c) == Err(status.error) && View() == old(View())
    {
      hide WorldOk;
      hide V.Carried;
      hide V.Validate;
      if c !in signatures { return Err(NotSigned); }
      if now < c.signedAt + lag { return Err(TooEarly); }
      var prior := V.LastSequence(records, c.operator);
      if prior.Some? && prior.value >= c.sequence { return Err(MovedPast); }
      IncludeKeeps(View(), c);
      var record := ValidateCheckpoint(c);
      var w := View();
      records := records + [record];
      if !record.status.Lapsed? { latest := latest + map b | b in V.Carried(w, c) :: c.id; }
      return Ok(record.status);
    }

    /** The semantic observer over unique final events finds nothing in any world a run reaches. */
    method Violations() returns (bad: set<Violation>)
      requires WorldOk(View())
      ensures bad == {}
    {
      hide OwnEvents;
      hide StateOk;
      hide RecordsOk;
      hide LatestAllOk;
      hide SegmentsOk;
      hide V.OperatorIs;
      hide Ordered;
      AuthorizedOutputs(View());
      bad := {};
      var seen: map<Id, EventId>, events: set<EventId> := map[], {};
      for k := 0 to |records|
        invariant bad == {} && SeenFinal(records, seen)
      {
        if !FinalAt(records, k) { continue; }
        var c := records[k].checkpoint;
        for i := 0 to |c.events|
          invariant bad == {} && SeenFinal(records, seen)
        {
          var e := c.events[i];
          if e.id in events { continue; }
          events := events + {e.id};
          assert FinalEvent(records, k, i);
          for n := 0 to |e.statement.body.nullifiers|
            invariant bad == {} && SeenFinal(records, seen)
          {
            var nf := e.statement.body.nullifiers[n];
            if nf in seen && seen[nf] != e.id { bad := bad + {DoubleSpend(nf)}; }
            assert SeenAt(records, nf, e.id);
            seen := seen[nf := e.id];
          }
          for n := 0 to |e.statement.body.outputs|
            invariant bad == {}
          {
            var cm := e.statement.body.outputs[n];
            assert cm in e.statement.body.outputs;
            if !(cm in oracle.notes && V.OperatorIs(chains, oracle.notes[cm].backing, records[k].at, c.operator)) { bad := bad + {UnauthorizedBacking(cm)}; }
          }
        }
      }
    }
  }

  ghost predicate SeenAt(records: seq<V.Recorded>, nf: Id, id: EventId) {
    exists k, i :: FinalEvent(records, k, i) && nf in records[k].checkpoint.events[i].statement.body.nullifiers &&
                   records[k].checkpoint.events[i].id == id
  }

  ghost predicate SeenFinal(records: seq<V.Recorded>, seen: map<Id, EventId>) {
    forall nf | nf in seen :: SeenAt(records, nf, seen[nf])
  }

  lemma {:induction false} MergeFails(w: V.World, parents: seq<Id>, n: nat, refusal: Refusal)
    requires n <= |parents| && V.MergeAll(w, parents[..n]) == Err(refusal)
    ensures V.MergeAll(w, parents) == Err(refusal)
    decreases |parents| - n
  {
    if n < |parents| {
      assert parents[..n + 1][..n] == parents[..n];
      MergeFails(w, parents, n + 1, refusal);
    } else {
      assert parents[..n] == parents;
    }
  }

  lemma {:induction false} ReplayFails(w: V.World, c: V.Checkpoint, merged: State, n: nat, refusal: Refusal)
    requires n <= |c.events| && V.Replay(w, c, merged, n) == Err(refusal)
    ensures V.Replay(w, c, merged, |c.events|) == Err(refusal)
    decreases |c.events| - n
  {
    if n < |c.events| { ReplayFails(w, c, merged, n + 1, refusal); }
  }
}
