/**
 Replaying verdicts from the venue's record: a checkpoint is judged in a view holding only what is strictly
 before it, through one session of results shared by the nested views. The sharing is unobservable: every
 verdict is the one plain recursion gives, and no judgement ever waits on itself.
 */
module FaultEvaluation {
  import opened Wrappers

  type Id = nat
  type Key = nat

  /** A checkpoint and the index it was witnessed at. */
  datatype Entry<C> = Entry(id: Id, at: nat, operator: Key, sequence: nat, checkpoint: C)

  datatype Error = NotHeld | SequencePassed | Thrown(code: nat)

  type Verdict<V> = Result<V, Error>

  /** What a validation does next: ask for another checkpoint's verdict, decide, or throw. */
  datatype Look<V> = Ask(id: Id) | Decide(verdict: V) | Throw(code: nat)

  /** Validation: any computation over the checkpoint and its view that may ask for verdicts, each request
      chosen from the answers before. `patience` bounds how often it asks. */
  datatype Validation<!C, !S, !V> = Validation(begin: (Entry<C>, seq<Entry<C>>) -> S, look: S -> Look<V>,
                                               resume: (S, Verdict<V>) -> S, patience: S -> nat)

  ghost predicate Patient<C(!new), S(!new), V(!new)>(validation: Validation<C, S, V>) {
    forall s, answer :: validation.look(s).Ask? ==> validation.patience(validation.resume(s, answer)) < validation.patience(s)
  }

  // ----- Strict prefixes

  predicate Before<C>(x: Entry<C>, r: Entry<C>) {
    x.at < r.at || (x.at == r.at && x.operator == r.operator && x.sequence < r.sequence)
  }

  function Prefix<C(!new)>(records: seq<Entry<C>>, r: Entry<C>): (prefix: seq<Entry<C>>)
    ensures |prefix| <= |records| && (r in records ==> |prefix| < |records|)
    ensures forall x :: x in prefix <==> x in records && Before(x, r)
  {
    if records == [] then []
    else
      var x, rest := records[0], Prefix(records[1..], r);
      if Before(x, r) then [x] + rest else rest
  }

  function Find<C(!new)>(records: seq<Entry<C>>, id: Id): (found: Option<Entry<C>>)
    ensures found.Some? ==> found.value in records && found.value.id == id
    ensures found.None? ==> forall r :: r in records ==> r.id != id
  {
    if records == [] then None
    else if records[0].id == id then Some(records[0])
    else Find(records[1..], id)
  }

  /** An identity is one checkpoint, held once. */
  ghost predicate Named<C(!new)>(records: seq<Entry<C>>) {
    forall x, y :: x in records && y in records && x.id == y.id ==> x == y
  }

  /** What is before a checkpoint is before all that is after it, in whichever view it is read. */
  lemma {:induction false} PrefixOfPrefix<C(!new)>(records: seq<Entry<C>>, r: Entry<C>, x: Entry<C>)
    requires Before(x, r)
    ensures Prefix(Prefix(records, r), x) == Prefix(records, x)
  {
    if records != [] {
      PrefixOfPrefix(records[1..], r, x);
      var y, rest := records[0], Prefix(records[1..], r);
      if Before(y, r) {
        assert ([y] + rest)[1..] == rest;
      }
    }
  }

  lemma {:induction false} NoneBefore<C(!new)>(records: seq<Entry<C>>, r: Entry<C>)
    requires forall x :: x in records ==> !Before(x, r)
    ensures Prefix(records, r) == []
  {
    if records != [] {
      assert records[0] in records;
      NoneBefore(records[1..], r);
    }
  }

  lemma {:induction false} PrefixAppends<C(!new)>(records: seq<Entry<C>>, more: seq<Entry<C>>, r: Entry<C>)
    requires forall x :: x in more ==> !Before(x, r)
    ensures Prefix(records + more, r) == Prefix(records, r)
  {
    if records == [] {
      assert records + more == more;
      NoneBefore(more, r);
    } else {
      assert (records + more)[0] == records[0] && (records + more)[1..] == records[1..] + more;
      PrefixAppends(records[1..], more, r);
    }
  }

  lemma {:induction false} FindAppends<C(!new)>(records: seq<Entry<C>>, more: seq<Entry<C>>, id: Id)
    requires Find(records, id).Some?
    ensures Find(records + more, id) == Find(records, id)
  {
    assert (records + more)[0] == records[0] && (records + more)[1..] == records[1..] + more;
    if records[0].id != id {
      FindAppends(records[1..], more, id);
    }
  }

  // ----- Plain recursion

  /** A checkpoint's verdict in a view: validated over its own strict prefix. */
  ghost function VerdictIn<C(!new), S(!new), V(!new)>(validation: Validation<C, S, V>, view: seq<Entry<C>>, id: Id): Verdict<V>
    requires Patient(validation)
    decreases |view|, 0, 0
  {
    match Find(view, id)
    case None => Err(NotHeld)
    case Some(r) => Judged(validation, Prefix(view, r), validation.begin(r, Prefix(view, r)))
  }

  /** A validation run to its end, its questions answered in its view. */
  ghost function Judged<C(!new), S(!new), V(!new)>(validation: Validation<C, S, V>, view: seq<Entry<C>>, s: S): Verdict<V>
    requires Patient(validation)
    decreases |view|, 1, validation.patience(s)
  {
    match validation.look(s)
    case Decide(verdict) => Ok(verdict)
    case Throw(code) => Err(Thrown(code))
    case Ask(id) => Judged(validation, view, validation.resume(s, VerdictIn(validation, view, id)))
  }

  /** A view of the record that holds whole strict prefixes. */
  ghost predicate Whole<C(!new)>(view: seq<Entry<C>>, records: seq<Entry<C>>) {
    && Named(records)
    && (forall x :: x in view ==> x in records)
    && (forall x :: x in view ==> Prefix(view, x) == Prefix(records, x))
  }

  lemma RecordIsWhole<C(!new)>(records: seq<Entry<C>>)
    requires Named(records)
    ensures Whole(records, records)
  {
  }

  lemma PrefixIsWhole<C(!new)>(view: seq<Entry<C>>, records: seq<Entry<C>>, r: Entry<C>)
    requires Whole(view, records) && r in view
    ensures Whole(Prefix(view, r), records)
  {
    hide Prefix;
    forall x | x in Prefix(view, r)
      ensures Prefix(Prefix(view, r), x) == Prefix(records, x)
    {
      PrefixOfPrefix(view, r, x);
    }
  }

  /** A verdict does not depend on the view it is read in, only on the record before the checkpoint. */
  lemma VerdictAnywhere<C(!new), S(!new), V(!new)>(validation: Validation<C, S, V>, view: seq<Entry<C>>, records: seq<Entry<C>>, id: Id)
    requires Patient(validation) && Whole(view, records) && Find(view, id).Some?
    ensures VerdictIn(validation, view, id) == VerdictIn(validation, records, id)
  {
    hide Find, Prefix, Judged;
    assert Find(records, id).value == Find(view, id).value;
  }

  /** Records witnessed since, none of them before a checkpoint, leave its verdict standing. */
  lemma VerdictStands<C(!new), S(!new), V(!new)>(validation: Validation<C, S, V>, records: seq<Entry<C>>, more: seq<Entry<C>>, id: Id)
    requires Patient(validation) && Find(records, id).Some? && forall x :: x in more ==> !Before(x, Find(records, id).value)
    ensures VerdictIn(validation, records + more, id) == VerdictIn(validation, records, id)
  {
    hide Judged;
    FindAppends(records, more, id);
    PrefixAppends(records, more, Find(records, id).value);
  }

  // ----- What a reader learns later

  /** Two validations that do the same with the same facts. What each reads of its world (revocations,
      served histories, what is withheld) is in where it begins. */
  ghost predicate SameRule<C(!new), S(!new), V(!new)>(v: Validation<C, S, V>, w: Validation<C, S, V>) {
    v.look == w.look && v.resume == w.resume && v.patience == w.patience
  }

  /** They read the same facts for a checkpoint, whatever its view. */
  ghost predicate SameFacts<C(!new), S(!new), V(!new)>(v: Validation<C, S, V>, w: Validation<C, S, V>, r: Entry<C>) {
    forall view :: v.begin(r, view) == w.begin(r, view)
  }

  /** They read the same facts for a checkpoint and all that is strictly before it. */
  ghost predicate SameBefore<C(!new), S(!new), V(!new)>(v: Validation<C, S, V>, w: Validation<C, S, V>, records: seq<Entry<C>>, r: Entry<C>) {
    SameFacts(v, w, r) && forall x :: x in Prefix(records, r) ==> SameFacts(v, w, x)
  }

  /** A verdict rests on what is read for the checkpoint and for those before it, and on nothing else. */
  lemma {:induction false} VerdictsAgree<C(!new), S(!new), V(!new)>(v: Validation<C, S, V>, w: Validation<C, S, V>, view: seq<Entry<C>>, id: Id)
    requires Patient(v) && Patient(w) && SameRule(v, w)
    requires Find(view, id).Some? ==> SameBefore(v, w, view, Find(view, id).value)
    ensures VerdictIn(v, view, id) == VerdictIn(w, view, id)
    decreases |view|, 0, 0
  {
    hide Patient, Prefix, Find;
    if Find(view, id).Some? {
      var r := Find(view, id).value;
      JudgedAgree(v, w, Prefix(view, r), v.begin(r, Prefix(view, r)));
    }
  }

  lemma {:induction false} JudgedAgree<C(!new), S(!new), V(!new)>(v: Validation<C, S, V>, w: Validation<C, S, V>, view: seq<Entry<C>>, s: S)
    requires Patient(v) && Patient(w) && SameRule(v, w) && forall x :: x in view ==> SameFacts(v, w, x)
    ensures Judged(v, view, s) == Judged(w, view, s)
    decreases |view|, 1, v.patience(s)
  {
    hide Patient, Prefix, Find, SameFacts;
    if v.look(s).Ask? {
      var id := v.look(s).id;
      VerdictsAgree(v, w, view, id);
      Resumes(v, view, s);
      Resumes(w, view, s);
      JudgedAgree(v, w, view, v.resume(s, VerdictIn(v, view, id)));
    } else {
      Ends(v, view, s);
      Ends(w, view, s);
    }
  }

  /** What is learnt for index `cut` and later changes no verdict of an earlier index. */
  lemma EarlierStand<C(!new), S(!new), V(!new)>(v: Validation<C, S, V>, w: Validation<C, S, V>, records: seq<Entry<C>>, cut: nat, id: Id)
    requires Patient(v) && Patient(w) && SameRule(v, w) && forall r: Entry<C> :: r.at < cut ==> SameFacts(v, w, r)
    requires Find(records, id).Some? && Find(records, id).value.at < cut
    ensures VerdictIn(v, records, id) == VerdictIn(w, records, id)
  {
    hide Patient, Find;
    VerdictsAgree(v, w, records, id);
  }

  ghost predicate Outside<C(!new)>(active: set<Id>, view: seq<Entry<C>>) {
    forall id :: id in active ==> Find(view, id).None?
  }

  // ----- The session

  /** The results so far and the judgements under way, shared by the nested views of one query. */
  class Evaluation<C(!new), S(!new), V(!new)> {
    const validation: Validation<C, S, V>
    ghost const records: seq<Entry<C>>
    var results: map<Id, V>
    var active: set<Id>

    /** Every kept result is the verdict of plain recursion over the whole record. */
    ghost predicate Valid()
      reads this
    {
      && Patient(validation) && Named(records)
      && (forall id :: id in results ==> VerdictIn(validation, records, id) == Ok(results[id]))
    }

    constructor (validation: Validation<C, S, V>, ghost records: seq<Entry<C>>)
      requires Patient(validation) && Named(records)
      ensures Valid() && this.validation == validation && this.records == records && active == {}
    {
      this.validation, this.records := validation, records;
      results, active := map[], {};
    }

    /** `evaluate`, in a view. What is under way is outside the view, so no judgement comes back to it. */
    method Evaluate(view: seq<Entry<C>>, id: Id) returns (verdict: Verdict<V>)
      requires Valid() && Whole(view, records) && Outside(active, view)
      modifies this
      ensures Valid() && active == old(active) && verdict == VerdictIn(validation, view, id)
      decreases |view|, 0
    {
      hide Patient, Find, Prefix, Judged;
      var found := Find(view, id);
      if found.None? {
        return Err(NotHeld);
      }
      VerdictAnywhere(validation, view, records, id);
      if id in results {
        return Ok(results[id]);
      }
      if id in active {
        // The source refuses here with an unresolved dependency cycle.
        assert false;
      }
      var r := found.value;
      var prefix := Prefix(view, r);
      PrefixIsWhole(view, records, r);
      StillOutside(view, r, active, id);
      active := active + {id};
      verdict := ValidateInView(prefix, r);
      if verdict.Ok? {
        results := results[id := verdict.value];
      }
      active := active - {id};
    }

    /** `validateInView`: the validation runs, its questions evaluated in the view. */
    method ValidateInView(view: seq<Entry<C>>, r: Entry<C>) returns (verdict: Verdict<V>)
      requires Valid() && Whole(view, records) && Outside(active, view)
      modifies this
      ensures Valid() && active == old(active) && verdict == Judged(validation, view, validation.begin(r, view))
      decreases |view|, 1
    {
      hide Patient, Find, Prefix, Judged, Whole;
      var s := validation.begin(r, view);
      while validation.look(s).Ask?
        invariant Valid() && active == old(active)
        invariant Judged(validation, view, s) == Judged(validation, view, validation.begin(r, view))
        decreases validation.patience(s)
      {
        var answer := Evaluate(view, validation.look(s).id);
        Resumes(validation, view, s);
        s := validation.resume(s, answer);
      }
      Ends(validation, view, s);
      match validation.look(s) {
        case Decide(v) =>
          return Ok(v);
        case Throw(code) =>
          return Err(Thrown(code));
      }
    }

    lemma StillOutside(view: seq<Entry<C>>, r: Entry<C>, active: set<Id>, id: Id)
      requires Named(records) && Whole(view, records) && r in view && r.id == id
      requires Outside(active, view)
      ensures Outside(active + {id}, Prefix(view, r))
    {
      hide Find, Prefix;
    }
  }

  lemma Resumes<C(!new), S(!new), V(!new)>(validation: Validation<C, S, V>, view: seq<Entry<C>>, s: S)
    requires Patient(validation) && validation.look(s).Ask?
    ensures Judged(validation, view, s) == Judged(validation, view, validation.resume(s, VerdictIn(validation, view, validation.look(s).id)))
    ensures validation.patience(validation.resume(s, VerdictIn(validation, view, validation.look(s).id))) < validation.patience(s)
  {
  }

  lemma Ends<C(!new), S(!new), V(!new)>(validation: Validation<C, S, V>, view: seq<Entry<C>>, s: S)
    requires Patient(validation) && !validation.look(s).Ask?
    ensures Judged(validation, view, s) == match validation.look(s)
      case Decide(v) => Ok(v)
      case Throw(code) => Err(Thrown(code))
  {
  }

  // ----- The reader

  /** The order the venue includes in: by index, and each operator's sequences ascending. */
  ghost predicate Included<C>(records: seq<Entry<C>>) {
    forall i, j :: 0 <= i < j < |records| ==>
      records[i].at <= records[j].at && (records[i].operator == records[j].operator ==> records[i].sequence < records[j].sequence)
  }

  /** The last record of an operator. */
  function LastOf<C(!new)>(records: seq<Entry<C>>, operator: Key): (last: Option<Entry<C>>)
    ensures last.Some? ==> last.value in records && last.value.operator == operator
    ensures last.None? ==> forall r :: r in records ==> r.operator != operator
  {
    if records == [] then None
    else if records[|records| - 1].operator == operator then Some(records[|records| - 1])
    else LastOf(records[..|records| - 1], operator)
  }

  lemma {:induction false} LastIsGreatest<C(!new)>(records: seq<Entry<C>>, operator: Key)
    requires Included(records)
    ensures LastOf(records, operator).Some? ==> forall r :: r in records && r.operator == operator ==> r.sequence <= LastOf(records, operator).value.sequence
  {
    if records != [] {
      var n := |records| - 1;
      LastIsGreatest(records[..n], operator);
      assert records == records[..n] + [records[n]];
    }
  }

  /** One reader's record, and the validation as it reads its world now. Between queries there is no
      session. */
  class FaultWorld<C(!new), S(!new), V(!new)> {
    var validation: Validation<C, S, V>
    var records: seq<Entry<C>>
    var evaluation: Evaluation?<C, S, V>

    ghost predicate Valid()
      reads this
    {
      Patient(validation) && Named(records) && Included(records) && evaluation == null
    }

    constructor (validation: Validation<C, S, V>, records: seq<Entry<C>>)
      requires Patient(validation) && Named(records) && Included(records)
      ensures Valid() && this.validation == validation && this.records == records
    {
      this.validation, this.records, evaluation := validation, records, null;
    }

    /** What changes a later validation: a revocation, a history served, something withheld. Verdicts that
        rest on none of it stand. */
    method Learn(later: Validation<C, S, V>)
      requires Valid() && Patient(later) && SameRule(validation, later)
      modifies this`validation
      ensures Valid() && validation == later
      ensures forall id :: Find(records, id).Some? && SameBefore(old(validation), later, records, Find(records, id).value) ==>
        VerdictIn(later, records, id) == VerdictIn(old(validation), records, id)
    {
      hide Patient, Find, SameRule, SameBefore;
      forall id | Find(records, id).Some? && SameBefore(validation, later, records, Find(records, id).value)
        ensures VerdictIn(later, records, id) == VerdictIn(validation, records, id)
      {
        VerdictsAgree(validation, later, records, id);
      }
      validation := later;
    }

    /** `record`: a query of its own. */
    method Record(id: Id) returns (verdict: Verdict<V>)
      requires Valid()
      modifies this`evaluation
      ensures Valid() && verdict == VerdictIn(validation, records, id)
    {
      RecordIsWhole(records);
      evaluation := new Evaluation<C, S, V>(validation, records);
      verdict := evaluation.Evaluate(records, id);
      evaluation := null;
    }

    /** `observedRecords`: every verdict, through one session of a view with nothing withheld: `all` is
        the validation there. What this reader's own validation has the same facts for, it decides alike. */
    method ObservedRecords(all: Validation<C, S, V>) returns (verdicts: seq<Verdict<V>>)
      requires Valid() && Patient(all) && SameRule(validation, all)
      ensures Valid() && |verdicts| == |records|
      ensures forall i :: 0 <= i < |records| ==> verdicts[i] == VerdictIn(all, records, records[i].id)
      ensures forall i :: 0 <= i < |records| && SameBefore(validation, all, records, records[i]) ==>
        verdicts[i] == VerdictIn(validation, records, records[i].id)
    {
      hide SameBefore, SameRule, Patient;
      RecordIsWhole(records);
      var session := new Evaluation<C, S, V>(all, records);
      verdicts := [];
      for i := 0 to |records|
        invariant session.Valid() && session.records == records && session.validation == all && session.active == {}
        invariant fresh(session) && |verdicts| == i
        invariant forall j :: 0 <= j < i ==> verdicts[j] == VerdictIn(all, records, records[j].id)
      {
        var verdict := session.Evaluate(records, records[i].id);
        verdicts := verdicts + [verdict];
      }
      forall i | 0 <= i < |records| && SameBefore(validation, all, records, records[i])
        ensures verdicts[i] == VerdictIn(validation, records, records[i].id)
      {
        assert Find(records, records[i].id) == Some(records[i]);
        VerdictsAgree(validation, all, records, records[i].id);
      }
    }

    /** `include` of a signed checkpoint at an index: what is decided then is what a reading of the longer
        record decides, of it and of all before it, with the facts of now. */
    method Include(entry: Entry<C>) returns (verdict: Verdict<V>)
      requires Valid() && Find(records, entry.id).None? && forall x :: x in records ==> x.at <= entry.at
      modifies this`records, this`evaluation
      ensures Valid()
      ensures if exists x :: x in old(records) && x.operator == entry.operator && x.sequence >= entry.sequence
        then verdict == Err(SequencePassed) && records == old(records)
        else records == old(records) + [entry] && verdict == VerdictIn(validation, records, entry.id)
      ensures forall id :: Find(old(records), id).Some? ==> VerdictIn(validation, records, id) == VerdictIn(validation, old(records), id)
    {
      var prior := LastOf(records, entry.operator);
      LastIsGreatest(records, entry.operator);
      if prior.Some? && prior.value.sequence >= entry.sequence {
        return Err(SequencePassed);
      }
      var session := new Evaluation<C, S, V>(validation, records);
      evaluation := session;
      var prefix := Prefix(records, entry);
      OwnPrefixIsWhole(records, entry);
      verdict := session.ValidateInView(prefix, entry);
      evaluation := null;
      IncludedInOrder(records, entry);
      IncludedStands(validation, records, entry);
      records := records + [entry];
    }
  }

  lemma OwnPrefixIsWhole<C(!new)>(records: seq<Entry<C>>, entry: Entry<C>)
    requires Named(records)
    ensures Whole(Prefix(records, entry), records)
  {
    hide Prefix;
    forall x | x in Prefix(records, entry)
      ensures Prefix(Prefix(records, entry), x) == Prefix(records, x)
    {
      PrefixOfPrefix(records, entry, x);
    }
  }

  lemma IncludedInOrder<C(!new)>(records: seq<Entry<C>>, entry: Entry<C>)
    requires Named(records) && Included(records) && Find(records, entry.id).None?
    requires forall x :: x in records ==> x.at <= entry.at && (x.operator == entry.operator ==> x.sequence < entry.sequence)
    ensures Named(records + [entry]) && Included(records + [entry])
  {
    hide Find;
    var next := records + [entry];
    forall i, j | 0 <= i < j < |next|
      ensures next[i].at <= next[j].at && (next[i].operator == next[j].operator ==> next[i].sequence < next[j].sequence)
    {
      assert next[i] in records;
    }
  }

  lemma {:induction false} FindsAppended<C(!new)>(records: seq<Entry<C>>, entry: Entry<C>)
    requires Find(records, entry.id).None?
    ensures Find(records + [entry], entry.id) == Some(entry)
  {
    if records == [] {
      assert records + [entry] == [entry];
    } else {
      assert records[0] in records && (records + [entry])[1..] == records[1..] + [entry];
      FindsAppended(records[1..], entry);
    }
  }

  lemma IncludedStands<C(!new), S(!new), V(!new)>(validation: Validation<C, S, V>, records: seq<Entry<C>>, entry: Entry<C>)
    requires Patient(validation) && Find(records, entry.id).None?
    requires forall x :: x in records ==> x.at <= entry.at && (x.operator == entry.operator ==> x.sequence < entry.sequence)
    ensures VerdictIn(validation, records + [entry], entry.id) == Judged(validation, Prefix(records, entry), validation.begin(entry, Prefix(records, entry)))
    ensures forall id :: Find(records, id).Some? ==> VerdictIn(validation, records + [entry], id) == VerdictIn(validation, records, id)
  {
    hide Judged, Patient, Find, Prefix;
    FindsAppended(records, entry);
    PrefixAppends(records, [entry], entry);
    forall id | Find(records, id).Some?
      ensures VerdictIn(validation, records + [entry], id) == VerdictIn(validation, records, id)
    {
      VerdictStands(validation, records, [entry], id);
    }
  }
}
