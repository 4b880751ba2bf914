/**
 The ideal proof oracle of the shared-history pool: notes, statements and what a proof of a
 statement establishes. Identifiers are ideal and injective, so a note's commitment and its
 nullifier carry the same serial in two separate name spaces.
 */
module PoolOracle {
  import opened Wrappers

  type Id = nat

  const VALUE_BOUND: int := 0x1_0000_0000_0000_0000

  datatype Tag = Padding | TagOf(nf: Id)
  datatype Link = Genesis(backing: Id) | Replacement(serial: nat)
  datatype Root = EmptyRoot | RootAt(segment: Id, position: nat)

  datatype Note = Note(cm: Id, nf: Id, backing: Id, domain: Id, value: int, owner: Option<Id>)
  datatype Acceptance = Acceptance(demand: Id, owner: Id, deadline: int, signedByK: bool)
  datatype Lit = Lit(
    backing: Id, quantity: int,
    tags: Option<seq<Tag>>, presenter: Option<Id>, deadline: Option<int>, demand: Option<Id>,
    owner: Option<Id>, acceptance: Option<Acceptance>, tag: Option<Tag>, refresh: Option<int>)

  datatype Term = Term(backing: Id, operator: Id, link: Link, from: nat)
  datatype Scope = Scope(domain: Id, operator: Id, entries: seq<Term>, root: Id)

  datatype Kind = Issue | Spend | Burn | Demand | Withdraw | Settle | Request

  /** The public values of a statement; the oracle interns one id per body. */
  datatype Body = Body(
    segment: Id, scope: Id, domain: Id, kind: Kind, anchors: seq<Root>,
    nullifiers: seq<Id>, outputs: seq<Id>, lit: Option<Lit>)
  /** A statement object: `token` is its own identity, so two proofs of one body are two objects. */
  datatype Statement = Statement(token: nat, id: Id, body: Body)
  datatype Witness = Witness(inputs: seq<Note>, outputs: seq<Note>, signedByK: bool)

  datatype Registry = Registry(
    serial: nat, tokens: nat, notes: map<Id, Note>,
    witnesses: map<Statement, Witness>, identities: map<Body, Id>)

  function EmptyRegistry(): Registry {
    Registry(0, 0, map[], map[], map[])
  }

  function Nullifiers(notes: seq<Note>): seq<Id> {
    seq(|notes|, i requires 0 <= i < |notes| => notes[i].nf)
  }

  function Commitments(notes: seq<Note>): seq<Id> {
    seq(|notes|, i requires 0 <= i < |notes| => notes[i].cm)
  }

  /** The kinds whose inputs' nullifiers are published, and so spent. */
  predicate Consumes(kind: Kind) {
    !kind.Demand? && !kind.Request?
  }

  function TagsOf(notes: seq<Note>): seq<Tag> {
    seq(|notes|, i requires 0 <= i < |notes| => if notes[i].value > 0 then TagOf(notes[i].nf) else Padding)
  }

  function NamedLit(kind: Kind, inputs: seq<Note>, lit: Option<Lit>): Option<Lit> {
    if lit.None? then None
    else if kind.Demand? then Some(lit.value.(tags := Some(TagsOf(inputs))))
    else if kind.Request? then Some(lit.value.(tag := Some(if inputs == [] then Padding else TagOf(inputs[0].nf))))
    else lit
  }

  /** The sum of the values of the notes of one backing. */
  function ValueOf(notes: seq<Note>, backing: Id): int {
    if notes == [] then 0
    else ValueOf(notes[..|notes| - 1], backing) + (if notes[|notes| - 1].backing == backing then notes[|notes| - 1].value else 0)
  }

  function TotalValue(notes: seq<Note>): int {
    if notes == [] then 0 else TotalValue(notes[..|notes| - 1]) + notes[|notes| - 1].value
  }

  function EntryBackings(entries: seq<Term>): seq<Id> {
    seq(|entries|, i requires 0 <= i < |entries| => entries[i].backing)
  }

  /** The quantity a burn adds to the outputs' side of its backing. */
  function Burned(s: Statement, backing: Id): int {
    if s.body.kind.Burn? && s.body.lit.Some? && s.body.lit.value.backing == backing then s.body.lit.value.quantity else 0
  }

  function Issued(s: Statement, backing: Id): int {
    if s.body.kind.Issue? && s.body.lit.Some? && s.body.lit.value.backing == backing then s.body.lit.value.quantity else 0
  }

  /** What the proof system checks for each kind beside membership and scope. */
  predicate KindRule(s: Statement, inputs: seq<Note>, outputs: seq<Note>) {
    var b := s.body;
    match b.kind
    case Issue =>
      |inputs| == 0 && |outputs| == 1 && b.lit.Some? && b.lit.value.quantity > 0 &&
      outputs[0].backing == b.lit.value.backing && outputs[0].value == b.lit.value.quantity
    case Withdraw =>
      |inputs| == 0 && |outputs| == 0 && b.lit.Some? && b.lit.value.demand.Some? && b.lit.value.presenter.Some?
    case Request =>
      b.lit.Some? && |inputs| == 1 && |outputs| == 0 && inputs[0].value > 0 &&
      inputs[0].backing == b.lit.value.backing && b.lit.value.tag == Some(TagOf(inputs[0].nf)) &&
      b.lit.value.refresh.Some? && 0 <= b.lit.value.refresh.value < VALUE_BOUND && |b.nullifiers| == 0
    case Demand =>
      b.lit.Some? && |inputs| == 2 && |outputs| == 0 && |b.nullifiers| == 0 &&
      (forall n | n in inputs :: n.backing == b.lit.value.backing) && (exists n | n in inputs :: n.value > 0) &&
      TotalValue(inputs) == b.lit.value.quantity && b.lit.value.quantity > 0 &&
      b.lit.value.presenter.Some? && b.lit.value.deadline.Some? && b.lit.value.tags == Some(TagsOf(inputs))
    case Settle =>
      b.lit.Some? && |inputs| == 2 && |outputs| == 1 && b.lit.value.demand.Some? && b.lit.value.owner.Some? &&
      b.lit.value.quantity > 0 && inputs[0].nf != inputs[1].nf &&
      (forall n | n in inputs + outputs :: n.backing == b.lit.value.backing) &&
      outputs[0].value == b.lit.value.quantity && outputs[0].owner == b.lit.value.owner &&
      TotalValue(inputs) == b.lit.value.quantity
    case Spend =>
      |inputs| == 2 && |outputs| == 2 && b.lit.None? &&
      forall n | n in inputs + outputs :: ValueOf(inputs, n.backing) == ValueOf(outputs, n.backing)
    case Burn =>
      |inputs| == 2 && |outputs| == 1 && b.lit.Some? && b.lit.value.quantity > 0 &&
      (forall n | n in inputs + outputs :: n.backing == b.lit.value.backing) &&
      ValueOf(inputs, b.lit.value.backing) == ValueOf(outputs, b.lit.value.backing) + b.lit.value.quantity
  }

  predicate Genuine(o: Registry, n: Note) {
    n.cm in o.notes && o.notes[n.cm] == n && 0 <= n.value < VALUE_BOUND
  }

  /** What a proof establishes whatever scope and roots it is read under. */
  predicate Sound(o: Registry, s: Statement) {
    s in o.witnesses &&
    (forall n | n in o.witnesses[s].inputs + o.witnesses[s].outputs :: Genuine(o, n)) &&
    KindRule(s, o.witnesses[s].inputs, o.witnesses[s].outputs)
  }

  predicate InScope(o: Registry, s: Statement, scope: Scope)
    requires s in o.witnesses
  {
    s.body.domain == scope.domain && (s.body.kind.Request? || s.body.scope == scope.root) &&
    forall n | n in o.witnesses[s].inputs + o.witnesses[s].outputs ::
      n.domain == scope.domain && (s.body.kind.Request? || n.backing in EntryBackings(scope.entries))
  }

  /** Every input of value is a leaf of the root it is anchored to. */
  predicate Anchored(o: Registry, s: Statement, roots: map<Root, seq<Id>>)
    requires s in o.witnesses
  {
    var inputs := o.witnesses[s].inputs;
    |inputs| == |s.body.anchors| &&
    forall i | 0 <= i < |inputs| ::
      s.body.anchors[i] in roots && (inputs[i].value > 0 ==> inputs[i].cm in roots[s.body.anchors[i]])
  }

  /** The oracle's verdict on a statement under a scope and the roots of a state. */
  predicate Verify(o: Registry, s: Statement, scope: Scope, roots: map<Root, seq<Id>>) {
    Sound(o, s) && InScope(o, s, scope) && Anchored(o, s, roots) &&
    (s.body.kind.Issue? ==> o.witnesses[s].signedByK)
  }

  // ----- the registry's operations and what they keep -----

  predicate NamesWitness(s: Statement, w: Witness) {
    s.body.nullifiers == (if Consumes(s.body.kind) then Nullifiers(w.inputs) else []) &&
    s.body.outputs == Commitments(w.outputs)
  }

  /** A commitment names one note and so does a nullifier; one id names one body. */
  ghost predicate RegistryOk(o: Registry) {
    (forall cm | cm in o.notes :: cm <= o.serial && o.notes[cm].cm == cm && o.notes[cm].nf == cm) &&
    (forall b | b in o.identities :: o.identities[b] <= o.serial) &&
    (forall a, b | a in o.identities && b in o.identities && o.identities[a] == o.identities[b] :: a == b) &&
    (forall s | s in o.witnesses ::
       s.token < o.tokens && s.body in o.identities && o.identities[s.body] == s.id && NamesWitness(s, o.witnesses[s]))
  }

  ghost predicate Extends(before: Registry, after: Registry) {
    (forall cm | cm in before.notes :: cm in after.notes && after.notes[cm] == before.notes[cm]) &&
    (forall s | s in before.witnesses :: s in after.witnesses && after.witnesses[s] == before.witnesses[s])
  }

  function MakeNote(o: Registry, backing: Id, value: int, domain: Id, owner: Option<Id>): (Registry, Note) {
    var id := o.serial + 1;
    var n := Note(id, id, backing, domain, value, owner);
    (o.(serial := id, notes := o.notes[id := n]), n)
  }

  function Prove(o: Registry, segment: Id, scope: Scope, kind: Kind, inputs: seq<Note>, outputs: seq<Note>,
                 anchors: seq<Root>, lit: Option<Lit>, signedByK: bool): (Registry, Statement)
  {
    var body := Body(segment, scope.root, scope.domain, kind, anchors,
                     if Consumes(kind) then Nullifiers(inputs) else [], Commitments(outputs), NamedLit(kind, inputs, lit));
    var known := body in o.identities;
    var id := if known then o.identities[body] else o.serial + 1;
    var s := Statement(o.tokens, id, body);
    (Registry(if known then o.serial else o.serial + 1, o.tokens + 1, o.notes,
              o.witnesses[s := Witness(inputs, outputs, signedByK)], o.identities[body := id]), s)
  }

  lemma MakeNoteKeeps(o: Registry, backing: Id, value: int, domain: Id, owner: Option<Id>)
    requires RegistryOk(o)
    ensures var (o', n) := MakeNote(o, backing, value, domain, owner);
            RegistryOk(o') && Extends(o, o') && n.cm !in o.notes && o'.notes[n.cm] == n
  {
  }

  lemma ProveKeeps(o: Registry, segment: Id, scope: Scope, kind: Kind, inputs: seq<Note>, outputs: seq<Note>,
                   anchors: seq<Root>, lit: Option<Lit>, signedByK: bool)
    requires RegistryOk(o)
    ensures var (o', s) := Prove(o, segment, scope, kind, inputs, outputs, anchors, lit, signedByK);
            RegistryOk(o') && Extends(o, o') && s !in o.witnesses &&
            o'.witnesses[s] == Witness(inputs, outputs, signedByK)
  {
    var (o', s) := Prove(o, segment, scope, kind, inputs, outputs, anchors, lit, signedByK);
    assert s.token == o.tokens;
  }

  /** One id is one body: equal statement ids consume and create the same notes. */
  lemma IdNamesBody(o: Registry, s: Statement, t: Statement)
    requires RegistryOk(o) && s in o.witnesses && t in o.witnesses && s.id == t.id
    ensures s.body == t.body
  {
  }

  lemma SoundExtends(before: Registry, after: Registry, s: Statement)
    requires Extends(before, after) && Sound(before, s)
    ensures Sound(after, s) && after.witnesses[s] == before.witnesses[s]
  {
  }

  // ----- value balance -----

  lemma ValueOfAbsent(notes: seq<Note>, backing: Id)
    requires forall n | n in notes :: n.backing != backing
    ensures ValueOf(notes, backing) == 0
  {
  }

  lemma ValueOfSame(notes: seq<Note>, backing: Id)
    requires forall n | n in notes :: n.backing == backing
    ensures ValueOf(notes, backing) == TotalValue(notes)
  {
  }

  function Consumed(o: Registry, s: Statement): seq<Note>
    requires s in o.witnesses
  {
    if Consumes(s.body.kind) then o.witnesses[s].inputs else []
  }

  /** Every sound statement balances every backing: what it creates less what it consumes is what it issues less what it burns. */
  lemma SoundBalances(o: Registry, s: Statement, backing: Id)
    requires Sound(o, s)
    ensures ValueOf(o.witnesses[s].outputs, backing) - ValueOf(Consumed(o, s), backing) == Issued(s, backing) - Burned(s, backing)
  {
    var inputs, outputs := o.witnesses[s].inputs, o.witnesses[s].outputs;
    match s.body.kind
    case Issue =>
      assert outputs == [outputs[0]];
      if outputs[0].backing == backing { ValueOfSame(outputs, backing); } else { ValueOfAbsent(outputs, backing); }
    case Withdraw => assert inputs == [] && outputs == [];
    case Request => assert outputs == [];
    case Demand => assert outputs == [];
    case Settle =>
      if s.body.lit.value.backing == backing {
        ValueOfSame(inputs, backing); ValueOfSame(outputs, backing);
        assert TotalValue(outputs) == outputs[0].value by { assert outputs[..0] == []; }
      } else { ValueOfAbsent(inputs, backing); ValueOfAbsent(outputs, backing); }
    case Spend =>
      if n :| n in inputs + outputs && n.backing == backing {
      } else {
        assert forall n | n in inputs :: n in inputs + outputs;
        assert forall n | n in outputs :: n in inputs + outputs;
        ValueOfAbsent(inputs, backing); ValueOfAbsent(outputs, backing);
      }
    case Burn =>
      if s.body.lit.value.backing != backing { ValueOfAbsent(inputs, backing); ValueOfAbsent(outputs, backing); }
  }
}
