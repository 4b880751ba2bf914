/**
 Histories merged at openings and extended by a checkpoint's events: every history the venue
 computes keeps `StateOk` and holds exactly the events of its parents and of its own segment.
 */
module PoolHistory {
  import opened Wrappers
  import opened PoolOracle
  import opened PoolState
  import opened PoolVenue

  // ----- events held under their names -----

  /** A history's event names determine its outputs, whichever proofs they carry. */
  lemma {:induction false} KeysDetermineOutputs(o: Registry, events: seq<Event>, others: seq<Event>)
    requires RegistryOk(o) && KeysOf(others) <= KeysOf(events)
    requires (forall e | e in events :: e.statement in o.witnesses) && (forall e | e in others :: e.statement in o.witnesses)
    ensures forall cm | cm in OutputsOf(others) :: cm in OutputsOf(events)
  {
    if others != [] {
      var last := others[|others| - 1];
      KeysDetermineOutputs(o, events, others[..|others| - 1]);
      var e := KeyHolder(events, KeyOf(last));
      IdNamesBody(o, e.statement, last.statement);
      var i :| 0 <= i < |events| && events[i] == e;
      OutputsOfContains(events, i);
    }
  }

  lemma SoundEvents(o: Registry, st: State)
    requires StateOk(o, st)
    ensures forall e | e in st.events :: Sound(o, e.statement) && e.statement in o.witnesses
    ensures RegistryOk(o) && st.outputs == OutputsOf(st.events)
  {
  }

  lemma SoundWitnessed(o: Registry, s: Statement)
    requires Sound(o, s)
    ensures s in o.witnesses
  {
  }

  lemma InputsReady(o: Registry, st: State, i: nat)
    requires StateOk(o, st) && i < |st.events|
    ensures Sound(o, st.events[i].statement) && InputsAvailable(o, OutputsOf(st.events[..i]), st.events[i].statement)
  {
  }

  lemma AnchoredAvailable(o: Registry, st: State, s: Statement)
    requires StateOk(o, st) && Sound(o, s) && Anchored(o, s, st.roots)
    ensures InputsAvailable(o, st.outputs, s)
  {
  }

  lemma RootSet(o: Registry, st: State, root: Root, leaves: seq<Id>)
    requires StateOk(o, st) && forall cm | cm in leaves :: cm in st.outputs
    ensures StateOk(o, st.(roots := st.roots[root := leaves]))
  {
  }

  // ----- applying a parent's events -----

  lemma {:induction false} ApplyAllKeeps(o: Registry, before: State, parent: State, n: nat, at: Option<int>)
    requires StateOk(o, before) && StateOk(o, parent) && n <= |parent.events|
    requires ApplyAll(before, parent.events[..n], at).Ok?
    ensures var after := ApplyAll(before, parent.events[..n], at).value;
            StateOk(o, after) && KeysOf(after.events) == KeysOf(before.events) + KeysOf(parent.events[..n]) && after.roots == before.roots
  {
    hide StateOk;
    hide ApplyEvent;
    hide Sound;
    hide RegistryOk;
    if n > 0 {
      var e, earlier := parent.events[n - 1], parent.events[..n - 1];
      assert parent.events[..n][..n - 1] == earlier;
      ApplyAllKeeps(o, before, parent, n - 1, at);
      var mid := ApplyAll(before, earlier, at).value;
      SoundEvents(o, mid);
      SoundEvents(o, parent);
      assert forall x | x in earlier :: x in parent.events;
      KeysDetermineOutputs(o, mid.events, earlier);
      InputsReady(o, parent, n - 1);
      ApplyKeeps(o, mid, e, at);
    }
  }

  // ----- the record's histories -----

  ghost predicate IdsDistinct(records: seq<Recorded>) {
    forall i, j | 0 <= i < j < |records| :: records[i].checkpoint.id != records[j].checkpoint.id
  }

  lemma {:induction false} FindRecordFinds(records: seq<Recorded>, id: Id)
    ensures var k := FindRecord(records, id);
            (k.Some? ==> k.value < |records| && records[k.value].checkpoint.id == id) &&
            (k.None? ==> forall i | 0 <= i < |records| :: records[i].checkpoint.id != id)
  {
    if records != [] { FindRecordFinds(records[..|records| - 1], id); }
  }

  lemma FindRecordIs(records: seq<Recorded>, k: nat)
    requires IdsDistinct(records) && k < |records|
    ensures FindRecord(records, records[k].checkpoint.id) == Some(k)
  {
    FindRecordFinds(records, records[k].checkpoint.id);
  }

  predicate FinalAt(records: seq<Recorded>, k: int) {
    0 <= k < |records| && records[k].status.Final? && records[k].state.Some?
  }

  ghost predicate HistoriesOk(o: Registry, records: seq<Recorded>) {
    forall k | FinalAt(records, k) :: StateOk(o, records[k].state.value)
  }

  /** Whether an id names a held final checkpoint. */
  predicate HeldFinal(records: seq<Recorded>, id: Id) {
    FindRecord(records, id).Some? && FinalAt(records, FindRecord(records, id).value)
  }

  /** The event names of the history under one checkpoint id. */
  function KeysAt(records: seq<Recorded>, id: Id): set<Key> {
    if HeldFinal(records, id) then KeysOf(records[FindRecord(records, id).value].state.value.events) else {}
  }

  function KeysUnder(records: seq<Recorded>, parents: seq<Id>): set<Key> {
    if parents == [] then {} else KeysUnder(records, parents[..|parents| - 1]) + KeysAt(records, parents[|parents| - 1])
  }

  lemma {:induction false} KeysUnderContain(records: seq<Recorded>, parents: seq<Id>, id: Id)
    requires id in parents
    ensures KeysAt(records, id) <= KeysUnder(records, parents)
  {
    var before := parents[..|parents| - 1];
    assert parents == before + [parents[|parents| - 1]];
    if id in before { KeysUnderContain(records, before, id); }
  }

  lemma HeldFinalAppend(records: seq<Recorded>, r: Recorded, id: Id)
    requires HeldFinal(records, id)
    ensures HeldFinal(records + [r], id) && KeysAt(records + [r], id) == KeysAt(records, id)
  {
    assert (records + [r])[..|records|] == records;
  }

  lemma {:induction false} KeysUnderAppend(records: seq<Recorded>, r: Recorded, parents: seq<Id>)
    requires forall p | p in parents :: HeldFinal(records, p)
    ensures KeysUnder(records + [r], parents) == KeysUnder(records, parents)
  {
    if parents != [] {
      assert forall p | p in parents[..|parents| - 1] :: p in parents;
      KeysUnderAppend(records, r, parents[..|parents| - 1]);
      HeldFinalAppend(records, r, parents[|parents| - 1]);
    }
  }

  lemma RootsMerged(o: Registry, before: State, parent: State, merged: State)
    requires StateOk(o, merged) && StateOk(o, parent)
    requires KeysOf(parent.events) <= KeysOf(merged.events)
    ensures StateOk(o, merged.(roots := merged.roots + parent.roots))
  {
    SoundEvents(o, merged);
    SoundEvents(o, parent);
    KeysDetermineOutputs(o, merged.events, parent.events);
    var st := merged.(roots := merged.roots + parent.roots);
    assert RootsWithin(st) by {
      forall r | r in st.roots
        ensures forall cm | cm in st.roots[r] :: cm in st.outputs
      {
        if r !in parent.roots { assert r in merged.roots && st.roots[r] == merged.roots[r]; }
      }
    }
  }

  /** A merge keeps every history's invariant and holds exactly its parents' events. */
  lemma {:induction false} MergeAllKeeps(w: World, parents: seq<Id>)
    requires RegistryOk(w.oracle) && HistoriesOk(w.oracle, w.records)
    requires MergeAll(w, parents).Ok?
    ensures var st := MergeAll(w, parents).value;
            StateOk(w.oracle, st) && KeysOf(st.events) == KeysUnder(w.records, parents)
    ensures forall p | p in parents :: HeldFinal(w.records, p)
  {
    hide StateOk;
    hide ApplyAll;
    hide RevocationsHold;
    if parents == [] {
      EmptyOk(w.oracle);
    } else {
      var earlier, last := parents[..|parents| - 1], parents[|parents| - 1];
      assert parents == earlier + [last];
      MergeAllKeeps(w, earlier);
      FindRecordFinds(w.records, last);
      var k := FindRecord(w.records, last).value;
      var before, parent := MergeAll(w, earlier).value, w.records[k].state.value;
      assert FinalAt(w.records, k);
      assert parent.events[..|parent.events|] == parent.events;
      ApplyAllKeeps(w.oracle, before, parent, |parent.events|, Some(w.now));
      RootsMerged(w.oracle, before, parent, ApplyAll(before, parent.events, Some(w.now)).value);
    }
  }

  lemma {:induction false} ParentIdsAre(openings: seq<Opening>)
    ensures forall op | op in openings && op.parent.Some? :: op.parent.value in ParentIds(openings)
  {
    if openings != [] {
      var before := openings[..|openings| - 1];
      ParentIdsAre(before);
      assert openings == before + [openings[|openings| - 1]];
    }
  }

  // ----- replaying a checkpoint's own events -----

  /** What replay establishes of each of a checkpoint's events. */
  ghost predicate OwnEvent(o: Registry, c: Checkpoint, i: nat)
    requires i < |c.events|
  {
    c.events[i].id == EventId(c.segment, i) && Sound(o, c.events[i].statement) && InScope(o, c.events[i].statement, c.scope)
  }

  lemma ReplayEventKeeps(w: World, c: Checkpoint, st: State, i: nat)
    requires i < |c.events| && StateOk(w.oracle, st) && KeysOf(c.events[..i]) <= KeysOf(st.events)
    requires forall e | e in c.events[..i] :: Sound(w.oracle, e.statement)
    requires ReplayEvent(w, c, st, i).Ok?
    ensures var after := ReplayEvent(w, c, st, i).value;
            StateOk(w.oracle, after) && KeysOf(after.events) == KeysOf(st.events) + {KeyOf(c.events[i])} && OwnEvent(w.oracle, c, i)
  {
    hide StateOk;
    hide ApplyEvent;
    hide Sound;
    hide InScope;
    hide Anchored;
    hide RegistryOk;
    var e := c.events[i];
    AnchoredAvailable(w.oracle, st, e.statement);
    ApplyKeeps(w.oracle, st, e, Some(w.now));
    var applied := ApplyEvent(st, e, Some(w.now)).value;
    assert c.events[..i + 1] == c.events[..i] + [e] && c.events[..i + 1][..i] == c.events[..i];
    SoundEvents(w.oracle, applied);
    assert e.statement in w.oracle.witnesses && forall x | x in c.events[..i] :: x.statement in w.oracle.witnesses by {
      SoundWitnessed(w.oracle, e.statement);
      forall x | x in c.events[..i] ensures x.statement in w.oracle.witnesses { SoundWitnessed(w.oracle, x.statement); }
    }
    KeysDetermineOutputs(w.oracle, applied.events, c.events[..i + 1]);
    RootSet(w.oracle, applied, RootAt(c.segment, i + 1), LeavesOf(c.events[..i + 1]));
  }

  lemma {:induction false} ReplayKeeps(w: World, c: Checkpoint, merged: State, n: nat)
    requires n <= |c.events| && StateOk(w.oracle, merged) && Replay(w, c, merged, n).Ok?
    ensures var st := Replay(w, c, merged, n).value;
            StateOk(w.oracle, st) && KeysOf(st.events) == KeysOf(merged.events) + KeysOf(c.events[..n])
    ensures forall i | 0 <= i < n :: OwnEvent(w.oracle, c, i)
  {
    hide StateOk;
    hide ReplayEvent;
    hide Sound;
    hide InScope;
    if n == 0 {
      RootSet(w.oracle, merged, RootAt(c.segment, 0), []);
    } else {
      ReplayKeeps(w, c, merged, n - 1);
      forall e | e in c.events[..n - 1]
        ensures Sound(w.oracle, e.statement)
      {
        var i :| 0 <= i < n - 1 && c.events[i] == e;
        assert OwnEvent(w.oracle, c, i);
      }
      assert c.events[..n][..n - 1] == c.events[..n - 1];
      ReplayEventKeeps(w, c, Replay(w, c, merged, n - 1).value, n - 1);
    }
  }
}
