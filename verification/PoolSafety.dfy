/**
 Safety of every run: whatever adversarial operators sign, no nullifier appears in two different
 final events, every final history conserves value, and outputs are only made under the term
 of their backing's operator.
 */
module PoolSafety {
  import opened Wrappers
  import opened PoolOracle
  import opened PoolState
  import opened PoolVenue
  import opened PoolHistory

  // ----- what is proved of a world -----

  ghost predicate FinalEvent(records: seq<Recorded>, k: int, i: int) {
    FinalAt(records, k) && 0 <= i < |records[k].checkpoint.events|
  }

  /** Two final events with a common nullifier are one event. */
  ghost predicate NoDoubleSpend(records: seq<Recorded>) {
    forall k, i, l, j, nf |
      FinalEvent(records, k, i) && FinalEvent(records, l, j) &&
      nf in records[k].checkpoint.events[i].statement.body.nullifiers &&
      nf in records[l].checkpoint.events[j].statement.body.nullifiers ::
      KeyOf(records[k].checkpoint.events[i]) == KeyOf(records[l].checkpoint.events[j])
  }

  /** Each final history's unspent value is, backing by backing, what was issued less what was burned. */
  ghost predicate HoldingsMatch(o: Registry, records: seq<Recorded>) {
    forall k | FinalAt(records, k) :: Conserved(o, records[k].state.value)
  }

  /** In each final history a note of value is spent only after the event that made it. */
  ghost predicate SpendsFollowOutputs(o: Registry, records: seq<Recorded>) {
    forall k | FinalAt(records, k) :: InOrder(o, records[k].state.value.events)
  }

  /** Every final output is of a backing whose term in force at the checkpoint's index was its operator's. */
  ghost predicate OutputsAuthorized(w: World) {
    forall k, i, cm | FinalEvent(w.records, k, i) && cm in w.records[k].checkpoint.events[i].statement.body.outputs ::
      cm in w.oracle.notes && OperatorIs(w.chains, w.oracle.notes[cm].backing, w.records[k].at, w.records[k].checkpoint.operator)
  }

  // ----- the invariant -----

  predicate Spends(o: Registry, s: Statement, backing: Id) {
    s in o.witnesses && exists n | n in Consumed(o, s) :: n.backing == backing
  }

  ghost predicate SpendsWithin(o: Registry, records: seq<Recorded>, backing: Id, keys: set<Key>) {
    forall k, i | FinalEvent(records, k, i) && Spends(o, records[k].checkpoint.events[i].statement, backing) ::
      KeyOf(records[k].checkpoint.events[i]) in keys
  }

  ghost predicate ChainOk(chain: seq<Term>, backing: Id, serial: nat) {
    |chain| > 0 && chain[0].from == 0 &&
    (forall i | 0 <= i < |chain| :: chain[i].backing == backing && (chain[i].link.Replacement? ==> chain[i].link.serial <= serial)) &&
    (forall i, j | 0 <= i < j < |chain| :: chain[i].from < chain[j].from && chain[i].link != chain[j].link)
  }

  ghost predicate ChainsOk(chains: map<Id, seq<Term>>, serial: nat) {
    forall b | b in chains :: ChainOk(chains[b], b, serial)
  }

  ghost predicate SignaturesOk(signatures: set<Checkpoint>, serial: nat) {
    (forall c | c in signatures :: c.id <= serial) &&
    (forall c, d | c in signatures && d in signatures && c.id == d.id :: c == d)
  }

  ghost predicate Ordered(w: World) {
    (forall k | 0 <= k < |w.records| :: w.records[k].checkpoint in w.signatures && w.records[k].at <= w.now) &&
    (forall i, j | 0 <= i < j < |w.records| && w.records[i].checkpoint.operator == w.records[j].checkpoint.operator ::
       w.records[i].checkpoint.sequence < w.records[j].checkpoint.sequence) &&
    IdsDistinct(w.records)
  }

  ghost predicate OwnEvents(o: Registry, c: Checkpoint) {
    forall i | 0 <= i < |c.events| :: OwnEvent(o, c, i)
  }

  /** A final record's history is its parents' and its own events, made under its operator's terms. */
  ghost predicate RecordOk(o: Registry, chains: map<Id, seq<Term>>, records: seq<Recorded>, r: Recorded) {
    r.status.Final? ==>
      var c := r.checkpoint;
      r.state.Some? && StateOk(o, r.state.value) && OwnEvents(o, c) && OpeningNames(c) == Names(c) &&
      (forall p | p in ParentIds(c.openings) :: HeldFinal(records, p)) &&
      KeysOf(r.state.value.events) == KeysUnder(records, ParentIds(c.openings)) + KeysOf(c.events) &&
      forall b | b in Names(c) :: OperatorIs(chains, b, r.at, c.operator)
  }

  ghost predicate RecordsOk(o: Registry, chains: map<Id, seq<Term>>, records: seq<Recorded>) {
    forall k | 0 <= k < |records| :: RecordOk(o, chains, records, records[k])
  }

  ghost predicate HeadersOk(records: seq<Recorded>) {
    forall k | FinalAt(records, k) ::
      var f := FirstOfSegment(records, records[k].checkpoint.segment);
      f.Some? && f.value < |records| && SameHeader(records[f.value].checkpoint, records[k].checkpoint)
  }

  ghost predicate PrefixesOk(records: seq<Recorded>) {
    forall i, j | FinalAt(records, i) && FinalAt(records, j) && i < j && records[i].checkpoint.segment == records[j].checkpoint.segment ::
      KeepsPrefix(records[i].checkpoint, records[j].checkpoint)
  }

  /** A segment's final checkpoints share one header and extend one another. */
  ghost predicate SegmentsOk(records: seq<Recorded>) {
    HeadersOk(records) && PrefixesOk(records)
  }

  /**
   The key of the safety argument: a backing's latest checkpoint, where it is final, holds every
   final event that spends a note of the backing; where it is invalid it blocks the backing.
   */
  ghost predicate LatestOk(o: Registry, records: seq<Recorded>, latest: map<Id, Id>, backing: Id) {
    if backing !in latest then SpendsWithin(o, records, backing, {})
    else
      FindRecord(records, latest[backing]).Some? &&
      FindRecord(records, latest[backing]).value < |records| &&
      var r := records[FindRecord(records, latest[backing]).value];
      !r.status.Lapsed? && (r.status.Final? ==> r.state.Some? && SpendsWithin(o, records, backing, KeysOf(r.state.value.events)))
  }

  ghost predicate LatestAllOk(o: Registry, records: seq<Recorded>, latest: map<Id, Id>) {
    forall b: Id :: LatestOk(o, records, latest, b)
  }

  ghost predicate WorldOk(w: World) {
    RegistryOk(w.oracle) && ChainsOk(w.chains, w.serial) && SignaturesOk(w.signatures, w.serial) && Ordered(w) &&
    RecordsOk(w.oracle, w.chains, w.records) && SegmentsOk(w.records) && LatestAllOk(w.oracle, w.records, w.latest) &&
    NoDoubleSpend(w.records)
  }

  // ----- terms -----

  lemma {:induction false} TermAtIs(chain: seq<Term>, backing: Id, serial: nat, at: nat, i: nat)
    requires i < |chain| && (forall a, b | 0 <= a < b < |chain| :: chain[a].from < chain[b].from)
    requires chain[i].from <= at && (i + 1 < |chain| ==> at < chain[i + 1].from)
    ensures TermAt(chain, at) == Some(chain[i])
  {
    if i < |chain| - 1 {
      TermAtIs(chain[..|chain| - 1], backing, serial, at, i);
    }
  }

  lemma {:induction false} TermAtMember(chain: seq<Term>, at: nat)
    ensures TermAt(chain, at).Some? ==> TermAt(chain, at).value in chain
  {
    if chain != [] { TermAtMember(chain[..|chain| - 1], at); }
  }

  /** A scope whose terms are in force is signed by the operator of every backing it names. */
  lemma InForceOperator(w: World, c: Checkpoint, e: Term)
    requires ChainsOk(w.chains, w.serial) && e.backing in w.chains && HasTerm(w.chains[e.backing], e)
    requires InForce(w.chains, e, w.now) && e.operator == c.operator
    ensures OperatorIs(w.chains, e.backing, w.now, c.operator)
  {
    var chain := w.chains[e.backing];
    TermAtMember(chain, w.now);
    assert ChainOk(chain, e.backing, w.serial);
  }

  lemma TermAtExtended(chain: seq<Term>, more: Term, at: nat)
    requires at < more.from
    ensures TermAt(chain + [more], at) == TermAt(chain, at)
  {
    assert (chain + [more])[..|chain|] == chain;
  }

  // ----- records grow -----

  lemma {:induction false} FirstOfSegmentIs(records: seq<Recorded>, segment: Id)
    ensures var f := FirstOfSegment(records, segment);
            (f.Some? ==> f.value < |records| && records[f.value].checkpoint.segment == segment) &&
            (f.None? ==> forall i | 0 <= i < |records| :: records[i].checkpoint.segment != segment)
  {
    if records != [] { FirstOfSegmentIs(records[..|records| - 1], segment); }
  }

  lemma {:induction false} LastFinalIs(records: seq<Recorded>, segment: Id)
    ensures var p := LastFinal(records, segment);
            (p.Some? ==> p.value < |records| && records[p.value].status.Final? && records[p.value].checkpoint.segment == segment) &&
            (forall i | 0 <= i < |records| && records[i].status.Final? && records[i].checkpoint.segment == segment ::
               p.Some? && i <= p.value)
  {
    if records != [] { LastFinalIs(records[..|records| - 1], segment); }
  }

  lemma {:induction false} LastSequenceIs(records: seq<Recorded>, operator: Id)
    ensures var s := LastSequence(records, operator);
            s.None? ==> forall i | 0 <= i < |records| :: records[i].checkpoint.operator != operator
    ensures LastSequence(records, operator).Some? ==>
              exists i :: 0 <= i < |records| && records[i].checkpoint.operator == operator &&
                records[i].checkpoint.sequence == LastSequence(records, operator).value &&
                forall j | i < j < |records| :: records[j].checkpoint.operator != operator
  {
    if records != [] { LastSequenceIs(records[..|records| - 1], operator); }
  }

  lemma RecordOkAppend(o: Registry, chains: map<Id, seq<Term>>, records: seq<Recorded>, r: Recorded, more: Recorded)
    requires RecordOk(o, chains, records, r)
    ensures RecordOk(o, chains, records + [more], r)
  {
    hide StateOk;
    if r.status.Final? {
      forall p | p in ParentIds(r.checkpoint.openings) ensures HeldFinal(records + [more], p) { HeldFinalAppend(records, more, p); }
      KeysUnderAppend(records, more, ParentIds(r.checkpoint.openings));
    }
  }

  lemma SpendsWithinMore(o: Registry, records: seq<Recorded>, backing: Id, keys: set<Key>, more: set<Key>)
    requires SpendsWithin(o, records, backing, keys) && keys <= more
    ensures SpendsWithin(o, records, backing, more)
  {
  }

  lemma SpendsWithinAppend(o: Registry, records: seq<Recorded>, backing: Id, keys: set<Key>, r: Recorded)
    requires SpendsWithin(o, records, backing, keys)
    requires r.status.Final? ==> forall i | 0 <= i < |r.checkpoint.events| && Spends(o, r.checkpoint.events[i].statement, backing) ::
               KeyOf(r.checkpoint.events[i]) in keys
    ensures SpendsWithin(o, records + [r], backing, keys)
  {
    var all := records + [r];
    forall k, i | FinalEvent(all, k, i) && Spends(o, all[k].checkpoint.events[i].statement, backing)
      ensures KeyOf(all[k].checkpoint.events[i]) in keys
    {
      if k < |records| { assert all[k] == records[k] && FinalEvent(records, k, i); }
    }
  }

  // ----- a final verdict -----

  /** What a final verdict rests on. */
  lemma JudgeFinal(w: World, c: Checkpoint)
    requires Judge(w, c).Ok? && Judge(w, c).value.Some?
    ensures ScopeEnded(w, c) == Ok(false) && (forall e | e in c.scope.entries :: InForce(w.chains, e, w.now))
    ensures c.carries == Names(c) && OpeningNames(c) == Names(c) && Continues(w, c)
    ensures var previous := LastFinal(w.records, c.segment);
            previous.Some? && previous.value < |w.records| ==> KeepsPrefix(w.records[previous.value].checkpoint, c)
    ensures Merge(w, c.openings).Ok? && Replay(w, c, Merge(w, c.openings).value, |c.events|) == Ok(Judge(w, c).value.value)
  {
    hide Merge;
    hide Replay;
    hide ScopeEnded;
    hide Continues;
    hide ParentsRanked;
  }

  lemma RecordsHistories(o: Registry, chains: map<Id, seq<Term>>, records: seq<Recorded>)
    requires RecordsOk(o, chains, records)
    ensures HistoriesOk(o, records)
  {
    hide StateOk;
    hide OwnEvents;
  }

  lemma JudgedHistory(w: World, c: Checkpoint)
    requires RegistryOk(w.oracle) && RecordsOk(w.oracle, w.chains, w.records)
    requires Judge(w, c).Ok? && Judge(w, c).value.Some?
    ensures var st := Judge(w, c).value.value;
            StateOk(w.oracle, st) && OwnEvents(w.oracle, c) &&
            (forall p | p in ParentIds(c.openings) :: HeldFinal(w.records, p)) &&
            KeysOf(st.events) == KeysUnder(w.records, ParentIds(c.openings)) + KeysOf(c.events)
  {
    hide StateOk;
    hide RecordsOk;
    hide Judge;
    hide Replay;
    hide MergeAll;
    hide OwnEvent;
    JudgeFinal(w, c);
    RecordsHistories(w.oracle, w.chains, w.records);
    MergeAllKeeps(w, ParentIds(c.openings));
    ReplayKeeps(w, c, Merge(w, c.openings).value, |c.events|);
    assert c.events[..|c.events|] == c.events;
  }

  lemma JudgedOperators(w: World, c: Checkpoint)
    requires ChainsOk(w.chains, w.serial) && Judge(w, c).Ok? && Judge(w, c).value.Some?
    ensures forall b | b in Names(c) :: OperatorIs(w.chains, b, w.now, c.operator)
    ensures Carried(w, c) == SetOf(Names(c))
  {
    hide Judge;
    JudgeFinal(w, c);
    forall b | b in Names(c)
      ensures OperatorIs(w.chains, b, w.now, c.operator)
    {
      var i :| 0 <= i < |Names(c)| && Names(c)[i] == b;
      assert c.scope.entries[i] in c.scope.entries;
      InForceOperator(w, c, c.scope.entries[i]);
    }
  }

  lemma RecordIsOk(w: World, c: Checkpoint)
    requires RegistryOk(w.oracle) && RecordsOk(w.oracle, w.chains, w.records) && ChainsOk(w.chains, w.serial)
    ensures RecordOk(w.oracle, w.chains, w.records, Validate(w, c))
  {
    hide Judge;
    hide StateOk;
    hide RecordsOk;
    hide ChainsOk;
    hide KeysUnder;
    if Judge(w, c).Ok? && Judge(w, c).value.Some? {
      JudgeFinal(w, c);
      JudgedHistory(w, c);
      JudgedOperators(w, c);
    }
  }

  // ----- segments -----

  lemma HeaderOf(w: World, c: Checkpoint)
    requires ScopeEnded(w, c).Ok?
    ensures var f := FirstOfSegment(w.records, c.segment);
            f.Some? && f.value < |w.records| ==> SameHeader(w.records[f.value].checkpoint, c)
  {
  }

  lemma HeadersAppend(w: World, c: Checkpoint)
    requires HeadersOk(w.records)
    ensures HeadersOk(w.records + [Validate(w, c)])
  {
    hide Judge;
    hide SameHeader;
    hide ScopeEnded;
    var all := w.records + [Validate(w, c)];
    assert all[..|w.records|] == w.records;
    forall k | FinalAt(all, k)
      ensures var f := FirstOfSegment(all, all[k].checkpoint.segment);
              f.Some? && f.value < |all| && SameHeader(all[f.value].checkpoint, all[k].checkpoint)
    {
      FirstOfSegmentIs(w.records, all[k].checkpoint.segment);
      if k < |w.records| {
        assert FinalAt(w.records, k);
      } else {
        JudgeFinal(w, c);
        HeaderOf(w, c);
        SameHeaderSelf(c);
      }
    }
  }

  lemma SameHeaderSelf(c: Checkpoint)
    ensures SameHeader(c, c)
  {
  }

  lemma NewKeepsPrefix(w: World, c: Checkpoint, i: nat)
    requires PrefixesOk(w.records) && forall k | 0 <= k < |w.records| && w.records[k].status.Final? :: w.records[k].state.Some?
    requires Judge(w, c).Ok? && Judge(w, c).value.Some?
    requires FinalAt(w.records, i) && w.records[i].checkpoint.segment == c.segment
    ensures KeepsPrefix(w.records[i].checkpoint, c)
  {
    hide Judge;
    hide KeepsPrefix;
    hide ScopeEnded;
    hide Continues;
    hide Merge;
    hide Replay;
    JudgeFinal(w, c);
    LastFinalIs(w.records, c.segment);
    var p := LastFinal(w.records, c.segment).value;
    if i < p {
      assert FinalAt(w.records, p);
      PrefixTransitive(w.records[i].checkpoint, w.records[p].checkpoint, c);
    }
  }

  lemma PrefixesAppend(w: World, c: Checkpoint)
    requires PrefixesOk(w.records) && forall k | 0 <= k < |w.records| && w.records[k].status.Final? :: w.records[k].state.Some?
    ensures PrefixesOk(w.records + [Validate(w, c)])
  {
    hide Judge;
    hide KeepsPrefix;
    var all := w.records + [Validate(w, c)];
    forall i, j | FinalAt(all, i) && FinalAt(all, j) && i < j && all[i].checkpoint.segment == all[j].checkpoint.segment
      ensures KeepsPrefix(all[i].checkpoint, all[j].checkpoint)
    {
      assert FinalAt(w.records, i) && all[i] == w.records[i];
      if j < |w.records| {
        assert FinalAt(w.records, j) && all[j] == w.records[j];
      } else {
        NewKeepsPrefix(w, c, i);
      }
    }
  }

  lemma PrefixTransitive(a: Checkpoint, b: Checkpoint, c: Checkpoint)
    requires KeepsPrefix(a, b) && KeepsPrefix(b, c)
    ensures KeepsPrefix(a, c)
  {
    var ids := StatementIds(a.events);
    forall i | 0 <= i < |a.events|
      ensures ids[i] == StatementIds(c.events[..|a.events|])[i]
    {
      assert ids[i] == StatementIds(b.events[..|a.events|])[i];
      assert StatementIds(b.events)[i] == StatementIds(c.events[..|b.events|])[i];
    }
  }

  /** A kept prefix of a segment's own events is the same named events. */
  lemma {:induction false} PrefixKeys(o: Registry, a: Checkpoint, b: Checkpoint, n: nat)
    requires OwnEvents(o, a) && OwnEvents(o, b) && KeepsPrefix(a, b) && a.segment == b.segment && n <= |a.events|
    ensures KeysOf(a.events[..n]) <= KeysOf(b.events)
  {
    if n > 0 {
      PrefixKeys(o, a, b, n - 1);
      assert a.events[..n][..n - 1] == a.events[..n - 1];
      assert StatementIds(a.events)[n - 1] == StatementIds(b.events[..|a.events|])[n - 1];
      assert OwnEvent(o, a, n - 1) && OwnEvent(o, b, n - 1);
      KeysContain(b.events, b.events[n - 1]);
    }
  }

  // ----- the latest checkpoint of a carried backing -----

  /** Whatever a carried backing's latest checkpoint holds, a final successor's history holds too. */
  lemma LatestWithin(w: World, c: Checkpoint, i: nat)
    requires RegistryOk(w.oracle) && RecordsOk(w.oracle, w.chains, w.records) && SegmentsOk(w.records) && IdsDistinct(w.records)
    requires LatestAllOk(w.oracle, w.records, w.latest)
    requires Judge(w, c).Ok? && Judge(w, c).value.Some? && i < |c.openings|
    ensures SpendsWithin(w.oracle, w.records, c.openings[i].backing, KeysOf(Judge(w, c).value.value.events))
  {
    hide Judge;
    hide StateOk;
    hide SpendsWithin;
    hide KeysUnder;
    JudgeFinal(w, c);
    JudgedHistory(w, c);
    LastFinalIs(w.records, c.segment);
    var b, keys, previous := c.openings[i].backing, KeysOf(Judge(w, c).value.value.events), LastFinal(w.records, c.segment);
    assert LatestOk(w.oracle, w.records, w.latest, b);
    if previous.Some? {
      var p := previous.value;
      FindRecordIs(w.records, p);
      PreviousWithin(w, c, p);
      SpendsWithinMore(w.oracle, w.records, b, KeysOf(w.records[p].state.value.events), keys);
    } else if c.openings[i].parent.Some? {
      var parent := c.openings[i].parent.value;
      ParentIdsAre(c.openings);
      assert c.openings[i] in c.openings;
      KeysUnderContain(w.records, ParentIds(c.openings), parent);
      SpendsWithinMore(w.oracle, w.records, b, KeysAt(w.records, parent), keys);
    } else {
      SpendsWithinMore(w.oracle, w.records, b, {}, keys);
    }
  }

  lemma PreviousWithin(w: World, c: Checkpoint, p: nat)
    requires RegistryOk(w.oracle) && RecordsOk(w.oracle, w.chains, w.records) && SegmentsOk(w.records)
    requires Judge(w, c).Ok? && Judge(w, c).value.Some?
    requires p < |w.records| && w.records[p].status.Final? && LastFinal(w.records, c.segment) == Some(p)
    requires w.records[p].checkpoint.segment == c.segment
    ensures w.records[p].state.Some? && KeysOf(w.records[p].state.value.events) <= KeysOf(Judge(w, c).value.value.events)
  {
    hide Judge;
    hide StateOk;
    hide KeysUnder;
    hide OwnEvent;
    var previous := w.records[p].checkpoint;
    JudgeFinal(w, c);
    JudgedHistory(w, c);
    HeaderOf(w, c);
    assert RecordOk(w.oracle, w.chains, w.records, w.records[p]);
    assert FinalAt(w.records, p);
    assert previous.openings == c.openings;
    PrefixKeys(w.oracle, previous, c, |previous.events|);
    assert previous.events[..|previous.events|] == previous.events;
  }

  /** Where a history holds two events under their names and they share a nullifier, they are one event. */
  lemma SharedNullifier(o: Registry, st: State, e: Event, f: Event, nf: Id)
    requires StateOk(o, st) && Sound(o, e.statement) && Sound(o, f.statement)
    requires KeyOf(e) in KeysOf(st.events) && KeyOf(f) in KeysOf(st.events)
    requires nf in e.statement.body.nullifiers && nf in f.statement.body.nullifiers
    ensures KeyOf(e) == KeyOf(f)
  {
    SoundEvents(o, st);
    var e' := KeyHolder(st.events, KeyOf(e));
    var f' := KeyHolder(st.events, KeyOf(f));
    IdNamesBody(o, e.statement, e'.statement);
    IdNamesBody(o, f.statement, f'.statement);
    var i :| 0 <= i < |st.events| && st.events[i] == e';
    var j :| 0 <= j < |st.events| && st.events[j] == f';
    assert Disjoint(st.events);
  }

  /** A final event spends a note of one of its scope's backings, for each of its nullifiers. */
  lemma OwnEventSpends(o: Registry, c: Checkpoint, j: nat, nf: Id) returns (i: nat)
    requires RegistryOk(o) && j < |c.events| && OwnEvent(o, c, j) && OpeningNames(c) == Names(c)
    requires nf in c.events[j].statement.body.nullifiers
    ensures i < |c.openings| && nf in o.notes && o.notes[nf].backing == c.openings[i].backing
  {
    var s := c.events[j].statement;
    ConsumedGenuine(o, s);
    assert o.notes[nf] in o.witnesses[s].inputs + o.witnesses[s].outputs;
    var k :| 0 <= k < |Names(c)| && Names(c)[k] == o.notes[nf].backing;
    assert OpeningNames(c)[k] == c.openings[k].backing;
    i := k;
  }

  lemma SpendsOf(o: Registry, s: Statement, nf: Id)
    requires RegistryOk(o) && Sound(o, s) && nf in s.body.nullifiers
    ensures nf in o.notes && Spends(o, s, o.notes[nf].backing)
  {
    ConsumedGenuine(o, s);
  }

  lemma NewAgainstOld(w: World, c: Checkpoint, k: nat, i: nat, j: nat, nf: Id)
    requires WorldOk(w) && Judge(w, c).Ok? && Judge(w, c).value.Some?
    requires FinalEvent(w.records, k, i) && j < |c.events|
    requires nf in w.records[k].checkpoint.events[i].statement.body.nullifiers && nf in c.events[j].statement.body.nullifiers
    ensures KeyOf(w.records[k].checkpoint.events[i]) == KeyOf(c.events[j])
  {
    hide Judge;
    hide StateOk;
    hide Sound;
    hide KeysUnder;
    hide NoDoubleSpend;
    hide SegmentsOk;
    hide Ordered;
    hide RegistryOk;
    var st, held := Judge(w, c).value.value, w.records[k].checkpoint.events[i];
    JudgeFinal(w, c);
    JudgedHistory(w, c);
    assert OwnEvent(w.oracle, c, j);
    assert RecordOk(w.oracle, w.chains, w.records, w.records[k]);
    assert OwnEvent(w.oracle, w.records[k].checkpoint, i);
    assert IdsDistinct(w.records) by { OrderedIds(w); }
    var at := OwnEventSpends(w.oracle, c, j, nf);
    SpendsOf(w.oracle, held.statement, nf);
    LatestWithin(w, c, at);
    KeysContain(c.events, c.events[j]);
    SharedNullifier(w.oracle, st, held, c.events[j], nf);
  }

  lemma OrderedIds(w: World)
    requires Ordered(w)
    ensures IdsDistinct(w.records)
  {
  }

  lemma NewAgainstNew(w: World, c: Checkpoint, i: nat, j: nat, nf: Id)
    requires WorldOk(w) && Judge(w, c).Ok? && Judge(w, c).value.Some? && i < |c.events| && j < |c.events|
    requires nf in c.events[i].statement.body.nullifiers && nf in c.events[j].statement.body.nullifiers
    ensures KeyOf(c.events[i]) == KeyOf(c.events[j])
  {
    hide Judge;
    hide StateOk;
    hide Sound;
    hide KeysUnder;
    hide RecordsOk;
    JudgedHistory(w, c);
    assert OwnEvent(w.oracle, c, i) && OwnEvent(w.oracle, c, j);
    KeysContain(c.events, c.events[i]);
    KeysContain(c.events, c.events[j]);
    SharedNullifier(w.oracle, Judge(w, c).value.value, c.events[i], c.events[j], nf);
  }

  lemma NoDoubleSpendAppend(w: World, c: Checkpoint)
    requires WorldOk(w)
    ensures NoDoubleSpend(w.records + [Validate(w, c)])
  {
    hide Judge;
    hide RecordsOk;
    hide LatestAllOk;
    hide SegmentsOk;
    hide Ordered;
    hide RegistryOk;
    hide ChainsOk;
    var n, all := |w.records|, w.records + [Validate(w, c)];
    forall k, i, l, j, nf |
      FinalEvent(all, k, i) && FinalEvent(all, l, j) &&
      nf in all[k].checkpoint.events[i].statement.body.nullifiers && nf in all[l].checkpoint.events[j].statement.body.nullifiers
      ensures KeyOf(all[k].checkpoint.events[i]) == KeyOf(all[l].checkpoint.events[j])
    {
      assert k < n ==> all[k] == w.records[k] && FinalEvent(w.records, k, i);
      assert l < n ==> all[l] == w.records[l] && FinalEvent(w.records, l, j);
      if k < n && l == n { NewAgainstOld(w, c, k, i, j, nf); }
      else if k == n && l < n { NewAgainstOld(w, c, l, j, i, nf); }
      else if k == n && l == n { NewAgainstNew(w, c, i, j, nf); }
    }
  }

  // ----- inclusion keeps the latest checkpoints -----

  lemma FindRecordAppend(records: seq<Recorded>, r: Recorded, id: Id)
    ensures FindRecord(records + [r], id) ==
            if FindRecord(records, id).Some? then FindRecord(records, id)
            else if r.checkpoint.id == id then Some(|records|) else None
  {
    assert (records + [r])[..|records|] == records;
  }

  lemma NewSpends(w: World, c: Checkpoint, b: Id)
    requires RegistryOk(w.oracle) && OwnEvents(w.oracle, c) && b !in Names(c)
    ensures forall i | 0 <= i < |c.events| :: !Spends(w.oracle, c.events[i].statement, b)
  {
    forall i | 0 <= i < |c.events|
      ensures !Spends(w.oracle, c.events[i].statement, b)
    {
      assert OwnEvent(w.oracle, c, i);
      var s := c.events[i].statement;
      forall n | n in Consumed(w.oracle, s) ensures n.backing != b {
        assert n in w.oracle.witnesses[s].inputs + w.oracle.witnesses[s].outputs;
      }
    }
  }

  lemma LatestKept(w: World, c: Checkpoint, b: Id)
    requires LatestOk(w.oracle, w.records, w.latest, b)
    requires var r := Validate(w, c); r.status.Final? ==> forall i | 0 <= i < |c.events| :: !Spends(w.oracle, c.events[i].statement, b)
    ensures LatestOk(w.oracle, w.records + [Validate(w, c)], w.latest, b)
  {
    hide Judge;
    hide SpendsWithin;
    hide Spends;
    var r := Validate(w, c);
    if b in w.latest {
      FindRecordAppend(w.records, r, w.latest[b]);
      var k := FindRecord(w.records, w.latest[b]).value;
      assert (w.records + [r])[k] == w.records[k];
      if w.records[k].status.Final? { SpendsWithinAppend(w.oracle, w.records, b, KeysOf(w.records[k].state.value.events), r); }
    } else {
      SpendsWithinAppend(w.oracle, w.records, b, {}, r);
    }
  }

  lemma LatestTaken(w: World, c: Checkpoint, b: Id)
    requires WorldOk(w) && FindRecord(w.records, c.id).None? && !Validate(w, c).status.Lapsed?
    requires Validate(w, c).status.Final? ==> b in Names(c)
    ensures LatestOk(w.oracle, w.records + [Validate(w, c)], map[b := c.id], b)
  {
    hide Judge;
    hide SpendsWithin;
    hide RecordsOk;
    hide SegmentsOk;
    hide StateOk;
    hide LatestAllOk;
    hide NoDoubleSpend;
    hide KeysUnder;
    var r := Validate(w, c);
    FindRecordAppend(w.records, r, c.id);
    assert (w.records + [r])[|w.records|] == r;
    if r.status.Final? {
      JudgeFinal(w, c);
      JudgedHistory(w, c);
      var i :| 0 <= i < |Names(c)| && Names(c)[i] == b;
      assert OpeningNames(c)[i] == c.openings[i].backing;
      LatestWithin(w, c, i);
      forall j | 0 <= j < |c.events| ensures KeyOf(c.events[j]) in KeysOf(r.state.value.events) { KeysContain(c.events, c.events[j]); }
      SpendsWithinAppend(w.oracle, w.records, b, KeysOf(r.state.value.events), r);
    }
  }

  lemma LatestOkFor(o: Registry, records: seq<Recorded>, latest: map<Id, Id>, other: map<Id, Id>, b: Id)
    requires LatestOk(o, records, other, b) && (b in latest <==> b in other) && (b in latest ==> latest[b] == other[b])
    ensures LatestOk(o, records, latest, b)
  {
  }

  lemma LatestAppend(w: World, c: Checkpoint)
    requires WorldOk(w) && FindRecord(w.records, c.id).None? && Include(w, c).Ok?
    ensures LatestAllOk(w.oracle, w.records + [Validate(w, c)], Include(w, c).value.latest)
  {
    hide Judge;
    hide SpendsWithin;
    hide RecordsOk;
    hide SegmentsOk;
    hide Ordered;
    hide NoDoubleSpend;
    hide LatestOk;
    hide OwnEvents;
    hide StateOk;
    var r, latest := Validate(w, c), Include(w, c).value.latest;
    forall b: Id
      ensures LatestOk(w.oracle, w.records + [r], latest, b)
    {
      if !r.status.Lapsed? && b in Carried(w, c) {
        LatestTaken(w, c, b);
        LatestOkFor(w.oracle, w.records + [r], latest, map[b := c.id], b);
      } else {
        if r.status.Final? {
          JudgedHistory(w, c);
          JudgedOperators(w, c);
          NewSpends(w, c, b);
        }
        LatestKept(w, c, b);
        LatestOkFor(w.oracle, w.records + [r], latest, w.latest, b);
      }
    }
  }

  lemma OrderedAppend(w: World, c: Checkpoint)
    requires Ordered(w) && SignaturesOk(w.signatures, w.serial) && Include(w, c).Ok?
    ensures FindRecord(w.records, c.id).None? && Ordered(Include(w, c).value)
  {
    hide Judge;
    hide Carried;
    LastSequenceIs(w.records, c.operator);
    FindRecordFinds(w.records, c.id);
    var r, n := Validate(w, c), |w.records|;
    var all := w.records + [r];
    assert r.checkpoint == c;
    forall i | 0 <= i < n && w.records[i].checkpoint.operator == c.operator
      ensures w.records[i].checkpoint.sequence < c.sequence
    {
      var k :| 0 <= k < n && w.records[k].checkpoint.operator == c.operator &&
               w.records[k].checkpoint.sequence == LastSequence(w.records, c.operator).value &&
               forall j | k < j < n :: w.records[j].checkpoint.operator != c.operator;
      assert i <= k;
    }
    assert Include(w, c).value.records == all;
  }

  /** Including any signed checkpoint, whatever its content and its verdict, keeps the invariant. */
  lemma IncludeKeeps(w: World, c: Checkpoint)
    requires WorldOk(w) && Include(w, c).Ok?
    ensures WorldOk(Include(w, c).value)
  {
    hide Judge;
    hide RegistryOk;
    hide ChainsOk;
    hide SignaturesOk;
    hide NoDoubleSpend;
    hide SegmentsOk;
    hide RecordOk;
    hide LatestAllOk;
    hide Ordered;
    var w', r := Include(w, c).value, Validate(w, c);
    OrderedAppend(w, c);
    LatestAppend(w, c);
    NoDoubleSpendAppend(w, c);
    RecordIsOk(w, c);
    assert SegmentsOk(w'.records) by { SegmentsKeep(w, c); }
    forall k | 0 <= k < |w'.records|
      ensures RecordOk(w'.oracle, w'.chains, w'.records, w'.records[k])
    {
      RecordOkAppend(w.oracle, w.chains, w.records, w'.records[k], r);
    }
  }

  lemma SegmentsKeep(w: World, c: Checkpoint)
    requires SegmentsOk(w.records) && RecordsOk(w.oracle, w.chains, w.records)
    ensures SegmentsOk(w.records + [Validate(w, c)])
  {
    hide Judge;
    hide HeadersOk;
    hide PrefixesOk;
    hide StateOk;
    hide OwnEvents;
    HeadersAppend(w, c);
    assert forall k | 0 <= k < |w.records| :: RecordOk(w.oracle, w.chains, w.records, w.records[k]);
    PrefixesAppend(w, c);
  }

  // ----- the other steps -----

  lemma {:induction false} HeldKnown(before: Registry, after: Registry, outputs: seq<Id>, spent: set<Id>, backing: Id)
    requires Extends(before, after) && forall cm | cm in outputs :: cm in before.notes
    ensures PoolState.Held(after, outputs, spent, backing) == PoolState.Held(before, outputs, spent, backing)
  {
    if outputs != [] {
      assert forall cm | cm in outputs[..|outputs| - 1] :: cm in outputs;
      HeldKnown(before, after, outputs[..|outputs| - 1], spent, backing);
    }
  }

  lemma {:induction false} OutputsKnown(o: Registry, events: seq<Event>)
    requires RegistryOk(o) && forall e | e in events :: Sound(o, e.statement)
    ensures forall cm | cm in OutputsOf(events) :: cm in o.notes
  {
    if events != [] {
      var before, last := events[..|events| - 1], events[|events| - 1];
      assert forall e | e in before :: e in events;
      OutputsKnown(o, before);
      assert last in events;
      CreatedGenuine(o, last.statement);
    }
  }

  lemma InOrderExtends(before: Registry, after: Registry, events: seq<Event>)
    requires Extends(before, after) && InOrder(before, events)
    ensures InOrder(after, events)
  {
    forall i | 0 <= i < |events|
      ensures Sound(after, events[i].statement) && InputsAvailable(after, OutputsOf(events[..i]), events[i].statement)
    {
      SoundExtends(before, after, events[i].statement);
    }
  }

  lemma StateExtends(before: Registry, after: Registry, st: State)
    requires Extends(before, after) && RegistryOk(after) && StateOk(before, st)
    ensures StateOk(after, st)
  {
    hide Sound;
    hide PoolState.Held;
    hide RegistryOk;
    SoundEvents(before, st);
    OutputsKnown(before, st.events);
    InOrderExtends(before, after, st.events);
    assert Conserved(after, st) by {
      forall b: Id
        ensures PoolState.Held(after, st.outputs, st.spent, b) == TotalOf(st.totals, b) == SupplyOf(st.events, b)
      {
        HeldKnown(before, after, st.outputs, st.spent, b);
      }
    }
  }

  lemma OwnEventExtends(before: Registry, after: Registry, c: Checkpoint, i: nat)
    requires Extends(before, after) && i < |c.events| && OwnEvent(before, c, i)
    ensures OwnEvent(after, c, i)
  {
    SoundExtends(before, after, c.events[i].statement);
  }

  lemma SpendsExtends(before: Registry, after: Registry, s: Statement, b: Id)
    requires Extends(before, after) && Sound(before, s)
    ensures Spends(after, s, b) == Spends(before, s, b)
  {
    SoundExtends(before, after, s);
  }

  lemma SpendsWithinExtends(before: Registry, after: Registry, chains: map<Id, seq<Term>>, records: seq<Recorded>, b: Id, keys: set<Key>)
    requires Extends(before, after) && RecordsOk(before, chains, records) && SpendsWithin(before, records, b, keys)
    ensures SpendsWithin(after, records, b, keys)
  {
    hide Spends;
    hide StateOk;
    hide Sound;
    forall k, i | FinalEvent(records, k, i) && Spends(after, records[k].checkpoint.events[i].statement, b)
      ensures KeyOf(records[k].checkpoint.events[i]) in keys
    {
      assert RecordOk(before, chains, records, records[k]);
      assert OwnEvent(before, records[k].checkpoint, i);
      SpendsExtends(before, after, records[k].checkpoint.events[i].statement, b);
    }
  }

  lemma LatestExtends(before: Registry, after: Registry, chains: map<Id, seq<Term>>, records: seq<Recorded>, latest: map<Id, Id>)
    requires Extends(before, after) && RecordsOk(before, chains, records) && LatestAllOk(before, records, latest)
    ensures LatestAllOk(after, records, latest)
  {
    hide RecordsOk;
    hide SpendsWithin;
    forall b: Id
      ensures LatestOk(after, records, latest, b)
    {
      assert LatestOk(before, records, latest, b);
      if b !in latest {
        SpendsWithinExtends(before, after, chains, records, b, {});
      } else {
        var r := records[FindRecord(records, latest[b]).value];
        if r.status.Final? { SpendsWithinExtends(before, after, chains, records, b, KeysOf(r.state.value.events)); }
      }
    }
  }

  lemma RecordOkExtends(before: Registry, after: Registry, chains: map<Id, seq<Term>>, records: seq<Recorded>, r: Recorded)
    requires Extends(before, after) && RegistryOk(after) && RecordOk(before, chains, records, r)
    ensures RecordOk(after, chains, records, r)
  {
    hide StateOk;
    hide OwnEvent;
    hide RegistryOk;
    if r.status.Final? {
      StateExtends(before, after, r.state.value);
      forall i | 0 <= i < |r.checkpoint.events| ensures OwnEvent(after, r.checkpoint, i) { OwnEventExtends(before, after, r.checkpoint, i); }
    }
  }

  /** New notes and proofs keep every earlier verdict's meaning. */
  lemma OracleKeeps(w: World, after: Registry)
    requires WorldOk(w) && Extends(w.oracle, after) && RegistryOk(after)
    ensures WorldOk(w.(oracle := after))
  {
    hide RecordOk;
    hide LatestAllOk;
    hide NoDoubleSpend;
    hide SegmentsOk;
    hide RegistryOk;
    LatestExtends(w.oracle, after, w.chains, w.records, w.latest);
    forall k | 0 <= k < |w.records|
      ensures RecordOk(after, w.chains, w.records, w.records[k])
    {
      RecordOkExtends(w.oracle, after, w.chains, w.records, w.records[k]);
    }
  }

  lemma ChainsKeep(w: World, chains: map<Id, seq<Term>>, serial: nat)
    requires WorldOk(w) && serial >= w.serial && ChainsOk(chains, serial)
    requires forall b: Id, at: nat, operator: Id | at <= w.now && OperatorIs(w.chains, b, at, operator) :: OperatorIs(chains, b, at, operator)
    ensures RecordsOk(w.oracle, chains, w.records) && SignaturesOk(w.signatures, serial)
  {
    hide StateOk;
    hide OwnEvents;
    hide OperatorIs;
    forall k | 0 <= k < |w.records|
      ensures RecordOk(w.oracle, chains, w.records, w.records[k])
    {
      assert RecordOk(w.oracle, w.chains, w.records, w.records[k]);
    }
  }

  lemma RegisterKeeps(w: World, b: Id, operator: Id, domain: Id, obligor: Id)
    requires WorldOk(w) && RegisterBacking(w, b, operator, domain, obligor).Ok?
    ensures WorldOk(RegisterBacking(w, b, operator, domain, obligor).value)
  {
    hide RecordsOk;
    hide LatestAllOk;
    hide NoDoubleSpend;
    hide SegmentsOk;
    hide RegistryOk;
    ChainsKeep(w, RegisterBacking(w, b, operator, domain, obligor).value.chains, w.serial);
  }

  lemma ReplaceKeeps(w: World, b: Id, operator: Id, effective: nat)
    requires WorldOk(w) && ReplaceOperator(w, b, operator, effective).Ok?
    ensures WorldOk(ReplaceOperator(w, b, operator, effective).value)
  {
    hide RecordsOk;
    hide LatestAllOk;
    hide NoDoubleSpend;
    hide SegmentsOk;
    hide RegistryOk;
    var w' := ReplaceOperator(w, b, operator, effective).value;
    var more := w'.chains[b][|w.chains[b]|];
    assert ChainOk(w.chains[b], b, w.serial);
    forall x: Id, at: nat, party: Id | at <= w.now && OperatorIs(w.chains, x, at, party)
      ensures OperatorIs(w'.chains, x, at, party)
    {
      if x == b { TermAtExtended(w.chains[b], more, at); }
    }
    ChainsKeep(w, w'.chains, w'.serial);
  }

  lemma SignKeeps(w: World, draft: Checkpoint)
    requires WorldOk(w)
    ensures WorldOk(SignDraft(w, draft))
  {
    hide RecordsOk;
    hide LatestAllOk;
    hide NoDoubleSpend;
    hide SegmentsOk;
    hide RegistryOk;
  }

  /** Every step of an adversarial world keeps the invariant. */
  lemma NextKeeps(w: World, step: Step)
    requires WorldOk(w) && Next(w, step).Ok?
    ensures WorldOk(Next(w, step).value)
  {
    hide RecordsOk;
    hide LatestAllOk;
    hide NoDoubleSpend;
    hide SegmentsOk;
    hide RegistryOk;
    hide Include;
    hide RegisterBacking;
    hide ReplaceOperator;
    hide SignDraft;
    match step
    case Tick(n) =>
    case Register(b, operator, domain, obligor) => RegisterKeeps(w, b, operator, domain, obligor);
    case Revoke(obligor) =>
    case Replace(b, operator, effective) => ReplaceKeeps(w, b, operator, effective);
    case NewNote(b, value, domain, owner) =>
      MakeNoteKeeps(w.oracle, b, value, domain, owner);
      OracleKeeps(w, MakeNote(w.oracle, b, value, domain, owner).0);
    case NewProof(segment, scope, kind, inputs, outputs, anchors, lit, signedByK) =>
      ProveKeeps(w.oracle, segment, scope, kind, inputs, outputs, anchors, lit, signedByK);
      OracleKeeps(w, Prove(w.oracle, segment, scope, kind, inputs, outputs, anchors, lit, signedByK).0);
    case Withhold(histories, directories, scopes) =>
    case Sign(draft) => SignKeeps(w, draft);
    case IncludeSigned(c) => IncludeKeeps(w, c);
  }

  lemma EmptyWorldOk(lag: nat)
    ensures WorldOk(EmptyWorld(lag))
  {
  }

  lemma {:induction false} RunKeeps(lag: nat, steps: seq<Step>)
    ensures WorldOk(Run(EmptyWorld(lag), steps))
  {
    hide WorldOk;
    hide Next;
    if steps == [] {
      EmptyWorldOk(lag);
    } else {
      RunKeeps(lag, steps[..|steps| - 1]);
      var before := Run(EmptyWorld(lag), steps[..|steps| - 1]);
      if Next(before, steps[|steps| - 1]).Ok? { NextKeeps(before, steps[|steps| - 1]); }
    }
  }

  // ----- the theorems -----

  lemma OwnEventCreates(o: Registry, c: Checkpoint, i: nat, cm: Id)
    requires RegistryOk(o) && i < |c.events| && OwnEvent(o, c, i) && cm in c.events[i].statement.body.outputs
    ensures cm in o.notes && o.notes[cm].backing in Names(c)
  {
    var s := c.events[i].statement;
    CreatedGenuine(o, s);
    assert o.notes[cm] in o.witnesses[s].inputs + o.witnesses[s].outputs;
  }

  lemma AuthorizedOutputs(w: World)
    requires WorldOk(w)
    ensures OutputsAuthorized(w)
  {
    hide StateOk;
    hide NoDoubleSpend;
    hide LatestAllOk;
    hide SegmentsOk;
    hide KeysUnder;
    hide OwnEvent;
    hide OperatorIs;
    hide RegistryOk;
    hide Ordered;
    forall k, i, cm | FinalEvent(w.records, k, i) && cm in w.records[k].checkpoint.events[i].statement.body.outputs
      ensures cm in w.oracle.notes && OperatorIs(w.chains, w.oracle.notes[cm].backing, w.records[k].at, w.records[k].checkpoint.operator)
    {
      assert RecordOk(w.oracle, w.chains, w.records, w.records[k]);
      OwnEventCreates(w.oracle, w.records[k].checkpoint, i, cm);
    }
  }

  /** In every run the final checkpoints of a segment have one header, and each begins with the statements of every
      earlier one: what the checks before replay are for. */
  lemma SegmentsNest(lag: nat, steps: seq<Step>)
    ensures var records := Run(EmptyWorld(lag), steps).records;
            forall i, j | FinalAt(records, i) && FinalAt(records, j) && i < j && records[i].checkpoint.segment == records[j].checkpoint.segment ::
              SameHeader(records[i].checkpoint, records[j].checkpoint) && KeepsPrefix(records[i].checkpoint, records[j].checkpoint)
  {
    hide Run;
    hide KeepsPrefix;
    RunKeeps(lag, steps);
    var records := Run(EmptyWorld(lag), steps).records;
    assert HeadersOk(records) && PrefixesOk(records);
  }

  /** In every run no nullifier is in two final events, final histories conserve value and spend only what they
      made before, and outputs are authorized. */
  lemma RunsAreSafe(lag: nat, steps: seq<Step>)
    ensures var w := Run(EmptyWorld(lag), steps);
            NoDoubleSpend(w.records) && HoldingsMatch(w.oracle, w.records) && SpendsFollowOutputs(w.oracle, w.records) && OutputsAuthorized(w)
  {
    hide Run;
    var w := Run(EmptyWorld(lag), steps);
    RunKeeps(lag, steps);
    AuthorizedOutputs(w);
    RecordsHistories(w.oracle, w.chains, w.records);
  }
}
