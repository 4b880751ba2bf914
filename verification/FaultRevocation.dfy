/**
 The revocation check as a replayed validation: an issue of a revoked obligor is good only where a final
 checkpoint from before the cutoff had it. Cutoffs are read when a checkpoint is judged, so one that
 comes later can turn a verdict; these lemmas say which.
 */
module FaultRevocation {
  import opened Wrappers
  import opened FaultEvaluation

  /** An issue in a history. */
  datatype Issue = Issue(obligor: nat, event: nat)

  type Issues = seq<Issue>
  type Cutoffs = map<nat, nat>

  /** For each issue in doubt, the records still to be asked about it. */
  type Doubts = seq<seq<Id>>

  predicate CutOff(cuts: Cutoffs, i: Issue, at: nat) {
    i.obligor in cuts && at >= cuts[i.obligor]
  }

  /** The records from before a cutoff that hold an issue. */
  function Holders(view: seq<Entry<Issues>>, i: Issue, cut: nat): (ids: seq<Id>)
    ensures forall id :: id in ids <==> exists x :: x in view && Holds(x, i, cut) && x.id == id
  {
    if view == [] then []
    else if Holds(view[0], i, cut) then [view[0].id] + Holders(view[1..], i, cut)
    else
      assert view == [view[0]] + view[1..];
      Holders(view[1..], i, cut)
  }

  predicate Holds(x: Entry<Issues>, i: Issue, cut: nat) {
    x.at < cut && i in x.checkpoint
  }

  function Doubted(cuts: Cutoffs, issues: Issues, at: nat, view: seq<Entry<Issues>>): (doubts: Doubts)
    ensures forall d :: d in doubts <==> exists i :: i in issues && CutOff(cuts, i, at) && Holders(view, i, cuts[i.obligor]) == d
  {
    if issues == [] then []
    else
      assert issues == [issues[0]] + issues[1..];
      var rest := Doubted(cuts, issues[1..], at, view);
      if CutOff(cuts, issues[0], at) then [Holders(view, issues[0], cuts[issues[0].obligor])] + rest else rest
  }

  function Left(doubts: Doubts): nat {
    if doubts == [] then 0 else |doubts[0]| + 1 + Left(doubts[1..])
  }

  /** A doubt about an issue ends with the first record that is final; out of records, the checkpoint is
      refused. */
  function Revoking(cuts: Cutoffs): Validation<Issues, Doubts, bool> {
    Validation(
      (r: Entry<Issues>, view: seq<Entry<Issues>>) => Doubted(cuts, r.checkpoint, r.at, view),
      (s: Doubts) => if s == [] then Decide(true) else if s[0] == [] then Decide(false) else Ask(s[0][0]),
      (s: Doubts, answer: Verdict<bool>) => if s == [] || s[0] == [] then s else if answer == Ok(true) then s[1..] else [s[0][1..]] + s[1..],
      Left)
  }

  lemma RevokingPatient(cuts: Cutoffs)
    ensures Patient(Revoking(cuts))
  {
    forall s: Doubts, answer: Verdict<bool> | Revoking(cuts).look(s).Ask?
      ensures Left(Revoking(cuts).resume(s, answer)) < Left(s)
    {
      assert ([s[0][1..]] + s[1..])[1..] == s[1..];
    }
  }

  ghost predicate Settled(cuts: Cutoffs, view: seq<Entry<Issues>>, d: seq<Id>) {
    RevokingPatient(cuts);
    exists id :: id in d && VerdictIn(Revoking(cuts), view, id) == Ok(true)
  }

  /** The doubts run to their end. */
  lemma {:induction false} JudgedRevoking(cuts: Cutoffs, view: seq<Entry<Issues>>, s: Doubts)
    requires Patient(Revoking(cuts))
    ensures Judged(Revoking(cuts), view, s) == Ok(forall d :: d in s ==> Settled(cuts, view, d))
    decreases Left(s)
  {
    hide Patient, VerdictIn, Prefix, Find;
    var v := Revoking(cuts);
    if v.look(s).Ask? {
      var id := s[0][0];
      var next := v.resume(s, VerdictIn(v, view, id));
      Resumes(v, view, s);
      JudgedRevoking(cuts, view, next);
      assert s == [s[0]] + s[1..] && s[0] == [id] + s[0][1..];
      if VerdictIn(v, view, id) == Ok(true) {
        assert Settled(cuts, view, s[0]);
      } else {
        assert Settled(cuts, view, s[0]) <==> Settled(cuts, view, s[0][1..]);
      }
    } else {
      Ends(v, view, s);
      if s != [] {
        assert s[0] in s && !Settled(cuts, view, s[0]);
      }
    }
  }

  /** A final checkpoint from before the cutoff, and before the one judged, that has the issue. */
  ghost predicate FinalBefore(cuts: Cutoffs, records: seq<Entry<Issues>>, r: Entry<Issues>, i: Issue, cut: nat) {
    RevokingPatient(cuts);
    exists x :: x in Prefix(records, r) && Holds(x, i, cut) && VerdictIn(Revoking(cuts), records, x.id) == Ok(true)
  }

  /** A checkpoint is final exactly where every issue in it that is cut off was final before its cutoff. */
  lemma RevokingMeans(cuts: Cutoffs, records: seq<Entry<Issues>>, id: Id)
    requires Named(records) && Find(records, id).Some?
    ensures Patient(Revoking(cuts))
    ensures
      var r := Find(records, id).value;
      VerdictIn(Revoking(cuts), records, id)
      == Ok(forall i :: i in r.checkpoint && CutOff(cuts, i, r.at) ==> FinalBefore(cuts, records, r, i, cuts[i.obligor]))
  {
    hide Prefix, Find, Patient, Judged, Holds;
    RevokingPatient(cuts);
    var v, r := Revoking(cuts), Find(records, id).value;
    var view := Prefix(records, r);
    RecordIsWhole(records);
    PrefixIsWhole(records, records, r);
    JudgedRevoking(cuts, view, v.begin(r, view));
    forall i | i in r.checkpoint && CutOff(cuts, i, r.at)
      ensures Settled(cuts, view, Holders(view, i, cuts[i.obligor])) <==> FinalBefore(cuts, records, r, i, cuts[i.obligor])
      ensures Holders(view, i, cuts[i.obligor]) in v.begin(r, view)
    {
      SettledByFinal(cuts, records, r, i, cuts[i.obligor]);
    }
  }

  lemma SettledByFinal(cuts: Cutoffs, records: seq<Entry<Issues>>, r: Entry<Issues>, i: Issue, cut: nat)
    requires Named(records) && r in records && Whole(Prefix(records, r), records)
    ensures Settled(cuts, Prefix(records, r), Holders(Prefix(records, r), i, cut)) <==> FinalBefore(cuts, records, r, i, cut)
  {
    hide Patient, Judged, VerdictIn, Holds;
    RevokingPatient(cuts);
    var v, view := Revoking(cuts), Prefix(records, r);
    forall x | x in view
      ensures VerdictIn(v, view, x.id) == VerdictIn(v, records, x.id)
    {
      assert Find(view, x.id).Some?;
      VerdictAnywhere(v, view, records, x.id);
    }
  }

  lemma SameRevoking(cuts: Cutoffs, obligor: nat, cut: nat, r: Entry<Issues>)
    requires obligor !in cuts && r.at < cut
    ensures SameFacts(Revoking(cuts), Revoking(cuts[obligor := cut]), r)
  {
    forall view
      ensures Doubted(cuts, r.checkpoint, r.at, view) == Doubted(cuts[obligor := cut], r.checkpoint, r.at, view)
    {
      SameDoubts(cuts, obligor, cut, r.checkpoint, r.at, view);
    }
  }

  lemma {:induction false} SameDoubts(cuts: Cutoffs, obligor: nat, cut: nat, issues: Issues, at: nat, view: seq<Entry<Issues>>)
    requires obligor !in cuts && at < cut
    ensures Doubted(cuts, issues, at, view) == Doubted(cuts[obligor := cut], issues, at, view)
  {
    hide Holders;
    if issues != [] {
      SameDoubts(cuts, obligor, cut, issues[1..], at, view);
    }
  }

  /** A revocation learnt after a checkpoint was decided leaves every verdict of an earlier index, and at its
      own index or later refuses a checkpoint with an issue of that obligor exactly where no earlier one of
      before the cutoff that has the issue was final, and still is: a decided verdict can turn while its
      index lasts. */
  lemma RevocationTurns(cuts: Cutoffs, obligor: nat, cut: nat, records: seq<Entry<Issues>>, id: Id)
    requires Named(records) && Find(records, id).Some? && obligor !in cuts
    ensures Patient(Revoking(cuts)) && Patient(Revoking(cuts[obligor := cut]))
    ensures
      var v, w, r := Revoking(cuts), Revoking(cuts[obligor := cut]), Find(records, id).value;
      && (r.at < cut ==> VerdictIn(w, records, id) == VerdictIn(v, records, id))
      && (r.at >= cut && (exists i :: i in r.checkpoint && i.obligor == obligor && !FinalBefore(cuts, records, r, i, cut))
          ==> VerdictIn(w, records, id) == Ok(false))
      && (r.at >= cut && (forall i :: i in r.checkpoint ==> i.obligor == obligor && FinalBefore(cuts, records, r, i, cut))
          ==> VerdictIn(w, records, id) == Ok(true))
  {
    hide Patient, VerdictIn, Prefix, Find, Doubted;
    var more := cuts[obligor := cut];
    var v, w, r := Revoking(cuts), Revoking(more), Find(records, id).value;
    RevokingPatient(cuts);
    RevokingPatient(more);
    RevokingMeans(more, records, id);
    forall x: Entry<Issues> | x.at < cut
      ensures SameFacts(v, w, x)
    {
      SameRevoking(cuts, obligor, cut, x);
    }
    if r.at < cut {
      EarlierStand(v, w, records, cut, id);
    }
    forall i | i in r.checkpoint && i.obligor == obligor
      ensures FinalBefore(more, records, r, i, cut) <==> FinalBefore(cuts, records, r, i, cut)
    {
      FinalEarlier(cuts, obligor, cut, records, r, i);
    }
  }

  lemma FinalEarlier(cuts: Cutoffs, obligor: nat, cut: nat, records: seq<Entry<Issues>>, r: Entry<Issues>, i: Issue)
    requires Named(records) && r in records && obligor !in cuts
    requires forall x: Entry<Issues> :: x.at < cut ==> SameFacts(Revoking(cuts), Revoking(cuts[obligor := cut]), x)
    ensures FinalBefore(cuts[obligor := cut], records, r, i, cut) <==> FinalBefore(cuts, records, r, i, cut)
  {
    hide Patient, VerdictIn, SameFacts, Doubted;
    var more := cuts[obligor := cut];
    var v, w := Revoking(cuts), Revoking(more);
    RevokingPatient(cuts);
    RevokingPatient(more);
    forall x | x in Prefix(records, r) && Holds(x, i, cut)
      ensures VerdictIn(v, records, x.id) == VerdictIn(w, records, x.id)
    {
      assert Find(records, x.id) == Some(x);
      EarlierStand(v, w, records, cut, x.id);
    }
  }
}
