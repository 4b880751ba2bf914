/**
 A supply that goes out of bounds: two issues that the proof system accepts, of which the second is
 refused with its note already listed among the outputs.
 */
module PoolOverrun {
  import opened Wrappers
  import opened PoolOracle
  import opened PoolState

  /** A scope of one backing. */
  function OneBacking(): Scope {
    Scope(0, 0, [Term(0, 0, Genesis(0), 0)], 0)
  }

  function IssueLit(quantity: int): Lit {
    Lit(0, quantity, None, None, None, None, None, None, None, None)
  }

  /** A new note issued and proved, at a position of a segment. */
  function IssueAt(o: Registry, position: nat, quantity: int): (Registry, Event) {
    var (noted, n) := MakeNote(o, 0, quantity, 0, None);
    var (proved, s) := Prove(noted, 0, OneBacking(), Issue, [], [n], [], Some(IssueLit(quantity)), true);
    (proved, Event(EventId(0, position), s))
  }

  /** An issue is verified under any roots, in its registry and in every later one. */
  lemma IssueVerifies(o: Registry, position: nat, quantity: int, later: Registry, roots: map<Root, seq<Id>>)
    requires RegistryOk(o) && 0 < quantity < VALUE_BOUND && Extends(IssueAt(o, position, quantity).0, later)
    ensures RegistryOk(IssueAt(o, position, quantity).0) && Extends(o, IssueAt(o, position, quantity).0)
    ensures Verify(later, IssueAt(o, position, quantity).1.statement, OneBacking(), roots)
  {
    hide RegistryOk;
    var (noted, n) := MakeNote(o, 0, quantity, 0, None);
    MakeNoteKeeps(o, 0, quantity, 0, None);
    ProveKeeps(noted, 0, OneBacking(), Issue, [], [n], [], Some(IssueLit(quantity)), true);
    var (proved, s) := Prove(noted, 0, OneBacking(), Issue, [], [n], [], Some(IssueLit(quantity)), true);
    assert later.witnesses[s] == Witness([], [n], true);
    assert EntryBackings(OneBacking().entries) == [0];
    assert [] + [n] == [n];
  }

  predicate IsIssue(e: Event, position: nat, quantity: int, note: Id) {
    && e.id == EventId(0, position) && e.statement.body.kind.Issue? && e.statement.body.lit == Some(IssueLit(quantity))
    && e.statement.body.nullifiers == [] && e.statement.body.outputs == [note]
  }

  /** Two issues made and proved, the first of all units but none to spare and the second of one more: the
      proof system accepts both, the first is applied, and the second is refused with its note listed among
      the outputs all the same. */
  lemma IssueRunsOver()
    ensures
      var (before, first) := IssueAt(EmptyRegistry(), 0, VALUE_BOUND - 1);
      var (o, second) := IssueAt(before, 1, 1);
      && Verify(o, first.statement, OneBacking(), EmptyState().roots)
      && ApplyEvent(EmptyState(), first, None).Ok?
      && var st := ApplyEvent(EmptyState(), first, None).value;
        && Verify(o, second.statement, OneBacking(), st.roots) && OutOfBounds(st, second, None)
        && SpendAll(st, second.statement).outputs == st.outputs + [3]
  {
    hide Verify, ApplyEvent, OutOfBounds, SpendAll;
    var (before, first) := IssueAt(EmptyRegistry(), 0, VALUE_BOUND - 1);
    var (o, second) := IssueAt(before, 1, 1);
    IssueVerifies(EmptyRegistry(), 0, VALUE_BOUND - 1, before, EmptyState().roots);
    IssueVerifies(before, 1, 1, o, EmptyState().roots);
    IssueVerifies(EmptyRegistry(), 0, VALUE_BOUND - 1, o, EmptyState().roots);
    assert IsIssue(first, 0, VALUE_BOUND - 1, 1) && IsIssue(second, 1, 1, 3);
    IssueApplies(first);
    IssueRefused(ApplyEvent(EmptyState(), first, None).value, first, second);
  }

  lemma IssueApplies(first: Event)
    requires IsIssue(first, 0, VALUE_BOUND - 1, 1)
    ensures ApplyEvent(EmptyState(), first, None).Ok?
    ensures
      var st := ApplyEvent(EmptyState(), first, None).value;
      st.roots == EmptyState().roots && st.events == [first] && st.outputs == [1] && st.totals == map[0 := VALUE_BOUND - 1]
  {
  }

  lemma IssueRefused(st: State, first: Event, second: Event)
    requires st.events == [first] && first.id != second.id && st.outputs == [1] && st.totals == map[0 := VALUE_BOUND - 1]
    requires IsIssue(second, 1, 1, 3)
    ensures OutOfBounds(st, second, None) && SpendAll(st, second.statement).outputs == st.outputs + [3]
  {
    assert FindEvent([], second.id).None? && [first][..0] == [];
  }
}
