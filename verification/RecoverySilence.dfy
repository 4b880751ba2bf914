/**
 A backing's no-commitment clock, and the first silence after a segment's opening (C2b.6.1, C2b.4.1). The
 reading looks at the ends of a span and at the indices of records inside it, and finds what looking at
 every index would find.
 */
module RecoverySilence {
  import opened Wrappers
  import Numbers

  type Backing = nat
  type Key = nat
  type Name = nat

  datatype ScopeEntry = ScopeEntry(backing: Backing, operator: Key, link: Name, from: nat)

  datatype Scope = Scope(root: Name, operator: Key, domain: Name, entries: seq<ScopeEntry>)

  /** A checkpoint on the venue's record. `evident` is whether the reader has its directory and its own
      scope; `opens` is whether it opens its segment. */
  datatype Recorded = Recorded(at: nat, lapsed: bool, operator: Key, evident: bool, segment: Name, opens: bool, scope: Scope)

  /** What is read: the record, each backing's declared duration, and the operator in force at an index. */
  datatype Venue = Venue(records: seq<Recorded>, clauses: map<Backing, nat>, inForce: (Backing, nat) -> Key)

  datatype Refusal = UnresolvedClock | UnavailableOpening | UnresolvedOpening | UnauthenticatedScope

  // ----- The clock

  /** A record that counts for the clock: not lapsed, and signed by whoever was in force at its index. */
  predicate Commits(v: Venue, backing: Backing, r: Recorded) {
    !r.lapsed && v.inForce(backing, r.at) == r.operator
  }

  function ClockOver(v: Venue, backing: Backing, at: nat, records: seq<Recorded>): Result<nat, Refusal> {
    if records == [] then Ok(0)
    else
      var r, last := records[|records| - 1], ClockOver(v, backing, at, records[..|records| - 1]);
      if last.Err? || r.at >= at || r.at <= last.value || !Commits(v, backing, r) then last
      else if r.evident then Ok(r.at)
      else Err(UnresolvedClock)
  }

  function Clock(v: Venue, backing: Backing, at: nat): Result<nat, Refusal> {
    ClockOver(v, backing, at, v.records)
  }

  /** The clock is the latest commitment strictly before the index, and zero where there is none. */
  lemma {:induction false} ClockIsLatest(v: Venue, backing: Backing, at: nat, records: seq<Recorded>)
    requires ClockOver(v, backing, at, records).Ok?
    ensures var c := ClockOver(v, backing, at, records).value;
      && (forall r :: r in records && r.at < at && Commits(v, backing, r) ==> r.at <= c)
      && (c == 0 || exists r :: r in records && r.at < at && Commits(v, backing, r) && r.at == c)
  {
    if records != [] {
      var n := |records| - 1;
      ClockIsLatest(v, backing, at, records[..n]);
      assert records == records[..n] + [records[n]];
    }
  }

  /** Between two indices no record parts, the clock reads one way. */
  lemma {:induction false} ClockSame(v: Venue, backing: Backing, a: nat, b: nat, records: seq<Recorded>)
    requires forall r: Recorded :: r in records ==> (r.at < a <==> r.at < b)
    ensures ClockOver(v, backing, a, records) == ClockOver(v, backing, b, records)
  {
    if records != [] {
      var n := |records| - 1;
      assert records[n] in records;
      ClockSame(v, backing, a, b, records[..n]);
    }
  }

  /** Records at an index or after do not move the clock there. */
  lemma {:induction false} ClockStands(v: Venue, backing: Backing, at: nat, records: seq<Recorded>, more: seq<Recorded>)
    requires forall r: Recorded :: r in more ==> r.at >= at
    ensures ClockOver(v, backing, at, records + more) == ClockOver(v, backing, at, records)
    decreases |more|
  {
    if more == [] {
      assert records + more == records;
    } else {
      var n := |more| - 1;
      assert more[n] in more;
      ClockStands(v, backing, at, records, more[..n]);
      assert (records + more)[..|records + more| - 1] == records + more[..n];
    }
  }

  // ----- Silence, index by index

  /** Whether a scoped backing that declared a duration has a clock that cannot be read at an index. */
  ghost predicate Unclear(v: Venue, scope: Scope, at: nat) {
    exists e :: e in scope.entries && e.backing in v.clauses && Clock(v, e.backing, at).Err?
  }

  /** `gapOpen`, for a clock that reads. */
  ghost predicate GapOpen(v: Venue, backing: Backing, at: nat) {
    backing in v.clauses && Clock(v, backing, at).Ok? && at - Clock(v, backing, at).value > v.clauses[backing]
  }

  ghost predicate Silent(v: Venue, scope: Scope, at: nat) {
    exists e :: e in scope.entries && GapOpen(v, e.backing, at)
  }

  /** The first index of a span at which a scoped backing's gap is open, looking at every index. */
  ghost function FirstSilence(v: Venue, scope: Scope, from: nat, through: nat): Result<Option<nat>, Refusal>
    decreases through - from
  {
    if from > through then Ok(None)
    else if Unclear(v, scope, from) then Err(UnresolvedClock)
    else if Silent(v, scope, from) then Ok(Some(from))
    else FirstSilence(v, scope, from + 1, through)
  }

  /** A quiet stretch is passed over. */
  lemma {:induction false} QuietStretch(v: Venue, scope: Scope, from: nat, to: nat, through: nat)
    requires from <= to <= through + 1 && (forall t: nat :: from <= t < to ==> !Unclear(v, scope, t) && !Silent(v, scope, t))
    ensures FirstSilence(v, scope, from, through) == FirstSilence(v, scope, to, through)
    decreases through + 1 - from
  {
    hide Unclear, Silent;
    if from < to {
      QuietStretch(v, scope, from + 1, to, through);
    }
  }

  /** What is found is the least index at which a gap is open; nothing is found exactly where there is none. */
  lemma {:induction false} SilenceIsFirst(v: Venue, scope: Scope, from: nat, through: nat)
    requires FirstSilence(v, scope, from, through).Ok?
    ensures match FirstSilence(v, scope, from, through).value
      case Some(g) => from <= g <= through && Silent(v, scope, g) && forall t: nat :: from <= t < g ==> !Silent(v, scope, t)
      case None => forall t: nat :: from <= t <= through ==> !Silent(v, scope, t)
    decreases through - from
  {
    hide Unclear, Silent;
    if from <= through && !Unclear(v, scope, from) && !Silent(v, scope, from) {
      SilenceIsFirst(v, scope, from + 1, through);
    }
  }

  // ----- The reading

  predicate Opens(r: Recorded, segment: Name) {
    r.segment == segment && r.opens
  }

  function OpeningOf(records: seq<Recorded>, segment: Name): Option<Recorded> {
    if records == [] then None
    else if Opens(records[0], segment) then Some(records[0])
    else OpeningOf(records[1..], segment)
  }

  lemma {:induction false} OpeningStands(records: seq<Recorded>, more: seq<Recorded>, segment: Name)
    requires OpeningOf(records, segment).Some?
    ensures OpeningOf(records + more, segment) == OpeningOf(records, segment)
  {
    assert (records + more)[0] == records[0] && (records + more)[1..] == records[1..] + more;
    if !Opens(records[0], segment) {
      OpeningStands(records[1..], more, segment);
    }
  }

  predicate Declares(v: Venue, scope: Scope) {
    exists e :: e in scope.entries && e.backing in v.clauses
  }

  /** What the reading says: the first silence strictly after the authenticated opening. */
  ghost function Silence(v: Venue, segment: Name, scope: Scope, through: nat): Result<Option<nat>, Refusal> {
    if !Declares(v, scope) then Ok(None)
    else
      match OpeningOf(v.records, segment)
      case None => Err(UnavailableOpening)
      case Some(r) =>
        if !r.evident then Err(UnresolvedOpening)
        else if r.scope != scope then Err(UnauthenticatedScope)
        else FirstSilence(v, scope, r.at + 1, through)
  }

  /** The record with later entries. */
  function Extended(v: Venue, more: seq<Recorded>): Venue {
    v.(records := v.records + more)
  }

  lemma LookStands(v: Venue, more: seq<Recorded>, scope: Scope, at: nat)
    requires forall r: Recorded :: r in more ==> r.at >= at
    ensures Unclear(Extended(v, more), scope, at) == Unclear(v, scope, at)
    ensures Silent(Extended(v, more), scope, at) == Silent(v, scope, at)
  {
    hide ClockOver;
    forall b
      ensures Clock(Extended(v, more), b, at) == Clock(v, b, at)
    {
      ClockStands(v, b, at, v.records, more);
      ClockAlike(v, Extended(v, more), b, at, v.records + more);
    }
  }

  lemma {:induction false} ClockAlike(v: Venue, w: Venue, backing: Backing, at: nat, records: seq<Recorded>)
    requires v.inForce == w.inForce
    ensures ClockOver(v, backing, at, records) == ClockOver(w, backing, at, records)
  {
    if records != [] {
      ClockAlike(v, w, backing, at, records[..|records| - 1]);
    }
  }

  lemma {:induction false} FirstSilenceStands(v: Venue, more: seq<Recorded>, scope: Scope, from: nat, through: nat, later: nat)
    requires through <= later && forall r: Recorded :: r in more ==> r.at >= through
    ensures var first, after := FirstSilence(v, scope, from, through), FirstSilence(Extended(v, more), scope, from, later);
      if first == Ok(None) then after == FirstSilence(Extended(v, more), scope, if from > through then from else through + 1, later)
      else after == first
    decreases through - from
  {
    hide Unclear, Silent;
    if from <= through {
      LookStands(v, more, scope, from);
      if !Unclear(v, scope, from) && !Silent(v, scope, from) {
        FirstSilenceStands(v, more, scope, from + 1, through, later);
      }
    }
  }

  /** Once a silence is found, no later record and no later reading finds another; and where none was
      found, none comes to be found in the span already read. */
  lemma {:induction false} SilenceStands(v: Venue, more: seq<Recorded>, segment: Name, scope: Scope, through: nat, later: nat)
    requires through <= later && (forall r: Recorded :: r in more ==> r.at >= through) && OpeningOf(v.records, segment).Some?
    ensures var first, after := Silence(v, segment, scope, through), Silence(Extended(v, more), segment, scope, later);
      if first == Ok(None) then after.Ok? && after.value.Some? ==> after.value.value > through else after == first
  {
    hide Unclear, Silent, FirstSilence;
    OpeningStands(v.records, more, segment);
    var r, w := OpeningOf(v.records, segment).value, Extended(v, more);
    assert OpeningOf(w.records, segment) == Some(r);
    FirstSilenceStands(v, more, scope, r.at + 1, through, later);
    var next := if r.at + 1 > through then r.at + 1 else through + 1;
    if FirstSilence(w, scope, next, later).Ok? {
      SilenceIsFirst(w, scope, next, later);
    }
  }

  // ----- Points

  /** At a point with no record strictly between it and the one before, each backing's clock reads one way
      over the stretch that ends there. */
  lemma StretchReads(v: Venue, scope: Scope, before: int, at: nat)
    requires forall r: Recorded :: r in v.records ==> !(before < r.at < at)
    ensures forall b, t: nat :: before < t <= at ==> Clock(v, b, t) == Clock(v, b, at)
    ensures forall t: nat :: before < t <= at ==> Unclear(v, scope, t) == Unclear(v, scope, at)
  {
    hide ClockOver;
    forall b, t: nat | before < t <= at
      ensures Clock(v, b, t) == Clock(v, b, at)
    {
      ClockSame(v, b, t, at, v.records);
    }
  }

  /** A stretch's clock is the one read at its start, or starts there. */
  lemma ClockMoves(v: Venue, backing: Backing, before: nat, at: nat)
    requires before < at && (forall r: Recorded :: r in v.records ==> !(before < r.at < at))
    requires Clock(v, backing, before).Ok? && Clock(v, backing, at).Ok?
    ensures Clock(v, backing, at).value == Clock(v, backing, before).value || Clock(v, backing, at).value == before
  {
    hide ClockOver;
    ClockIsLatest(v, backing, before, v.records);
    ClockIsLatest(v, backing, at, v.records);
  }

  /** Where a backing's gap first opens, by the clock read at a point. */
  ghost predicate Crosses(v: Venue, backing: Backing, start: nat, at: nat, g: nat) {
    backing in v.clauses && Clock(v, backing, at).Ok? && g <= at
    && g == Later(start, Clock(v, backing, at).value + v.clauses[backing] + 1)
  }

  function Later(a: nat, b: nat): nat {
    if b < a then a else b
  }

  /** The least crossing of the entries read. */
  ghost predicate FirstCrossing(v: Venue, entries: seq<ScopeEntry>, start: nat, at: nat, first: Option<nat>) {
    && (first.Some? ==> exists e :: e in entries && Crosses(v, e.backing, start, at, first.value))
    && (forall e, g :: e in entries && Crosses(v, e.backing, start, at, g) ==> first.Some? && first.value <= g)
  }

  /** A stretch is quiet up to its least crossing, and silent there. */
  lemma CrossingIsSilence(v: Venue, scope: Scope, start: nat, before: int, at: nat, first: Option<nat>)
    requires start - 1 <= before < at && (before < start ==> at == start)
    requires before >= start ==> !Unclear(v, scope, before) && !Silent(v, scope, before)
    requires (forall r: Recorded :: r in v.records ==> !(before < r.at < at)) && !Unclear(v, scope, at)
    requires FirstCrossing(v, scope.entries, start, at, first)
    ensures first.Some? ==> before < first.value <= at && Silent(v, scope, first.value)
    ensures forall t: nat :: before < t <= at && (first.Some? ==> t < first.value) ==> !Silent(v, scope, t)
  {
    hide Clock;
    StretchReads(v, scope, before, at);
    if first.Some? {
      var e :| e in scope.entries && Crosses(v, e.backing, start, at, first.value);
      if before >= start {
        ClockMoves(v, e.backing, before, at);
        assert !GapOpen(v, e.backing, before);
      }
      assert GapOpen(v, e.backing, first.value);
    }
    forall t: nat | before < t <= at && Silent(v, scope, t)
      ensures first.Some? && first.value <= t
    {
      var e :| e in scope.entries && GapOpen(v, e.backing, t);
      var g := Later(start, Clock(v, e.backing, at).value + v.clauses[e.backing] + 1);
      assert Crosses(v, e.backing, start, at, g);
    }
  }

  // ----- The reading as it runs

  /** `closing`. */
  method Closing(v: Venue, backing: Backing, at: nat) returns (last: Result<nat, Refusal>)
    ensures last == Clock(v, backing, at)
  {
    last := Ok(0);
    for i := 0 to |v.records|
      invariant last == ClockOver(v, backing, at, v.records[..i]) && last.Ok?
    {
      var r := v.records[i];
      assert v.records[..i + 1][..i] == v.records[..i];
      if r.at >= at || r.at <= last.value || !Commits(v, backing, r) {
        continue;
      }
      if !r.evident {
        last := Err(UnresolvedClock);
        ClockFails(v, backing, at, v.records, i + 1);
        return;
      }
      last := Ok(r.at);
    }
    assert v.records[..|v.records|] == v.records;
  }

  /** A clock that fails on some records fails on all. */
  lemma {:induction false} ClockFails(v: Venue, backing: Backing, at: nat, records: seq<Recorded>, n: nat)
    requires n <= |records| && ClockOver(v, backing, at, records[..n]) == Err(UnresolvedClock)
    ensures ClockOver(v, backing, at, records) == Err(UnresolvedClock)
    decreases |records|
  {
    if n < |records| {
      assert records[..|records| - 1][..n] == records[..n];
      ClockFails(v, backing, at, records[..|records| - 1], n);
    } else {
      assert records[..n] == records;
    }
  }

  /** The scoped backings' least crossing at a point. */
  method CrossingAt(v: Venue, scope: Scope, start: nat, at: nat) returns (result: Result<Option<nat>, Refusal>)
    ensures result.Err? ==> result == Err(UnresolvedClock)
    ensures result.Err? <==> Unclear(v, scope, at)
    ensures result.Ok? ==> FirstCrossing(v, scope.entries, start, at, result.value)
  {
    hide Clock;
    var first: Option<nat> := None;
    for i := 0 to |scope.entries|
      invariant forall e :: e in scope.entries[..i] && e.backing in v.clauses ==> Clock(v, e.backing, at).Ok?
      invariant FirstCrossing(v, scope.entries[..i], start, at, first)
    {
      var e, was := scope.entries[i], first;
      assert scope.entries[..i + 1] == scope.entries[..i] + [e];
      if e.backing in v.clauses {
        var closing := Closing(v, e.backing, at);
        if closing.Err? {
          assert e in scope.entries;
          return Err(UnresolvedClock);
        }
        var crossing := closing.value + v.clauses[e.backing] + 1;
        var g := if crossing < start then start else crossing;
        if g <= at && (first.None? || g < first.value) {
          first := Some(g);
        }
        assert g <= at ==> Crosses(v, e.backing, start, at, g);
      }
      CrossesOnce(v, e.backing, start, at);
      assert first == was || Crosses(v, e.backing, start, at, first.value);
    }
    assert scope.entries[..|scope.entries|] == scope.entries;
    return Ok(first);
  }

  lemma CrossesOnce(v: Venue, backing: Backing, start: nat, at: nat)
    ensures forall g, h :: Crosses(v, backing, start, at, g) && Crosses(v, backing, start, at, h) ==> g == h
  {
  }

  /** The point passed, no silence stands at or before it. */
  lemma PointPassed(v: Venue, scope: Scope, start: nat, before: int, at: nat, through: nat, first: Option<nat>)
    requires start - 1 <= before < at <= through && (before < start ==> at == start)
    requires before >= start ==> !Unclear(v, scope, before) && !Silent(v, scope, before)
    requires (forall r: Recorded :: r in v.records ==> !(before < r.at < at)) && !Unclear(v, scope, at)
    requires FirstCrossing(v, scope.entries, start, at, first)
    ensures FirstSilence(v, scope, before + 1, through) == if first.Some? then Ok(first) else FirstSilence(v, scope, at + 1, through)
    ensures first.None? ==> !Silent(v, scope, at)
  {
    CrossingIsSilence(v, scope, start, before, at, first);
    StretchReads(v, scope, before, at);
    hide Unclear, Silent, FirstCrossing;
    QuietStretch(v, scope, before + 1, if first.Some? then first.value else at + 1, through);
  }

  /** The ends of the span, and the indices of records inside it. */
  function Points(v: Venue, start: nat, through: nat): (points: set<nat>)
    requires start <= through
    ensures start in points && through in points && forall p :: p in points ==> start <= p <= through
    ensures forall r: Recorded :: r in v.records && start <= r.at <= through ==> r.at in points
  {
    {start, through} + set r | r in v.records && start <= r.at <= through :: r.at
  }

  lemma NoneAfter(v: Venue, scope: Scope, through: nat)
    ensures FirstSilence(v, scope, through + 1, through) == Ok(None)
  {
  }

  /** An unclear point is an unclear stretch. */
  lemma PointFails(v: Venue, scope: Scope, before: int, at: nat, through: nat)
    requires -1 <= before < at <= through && Unclear(v, scope, at) && forall r: Recorded :: r in v.records ==> !(before < r.at < at)
    ensures FirstSilence(v, scope, before + 1, through) == Err(UnresolvedClock)
  {
    StretchReads(v, scope, before, at);
  }

  /** The loop over points. */
  method OverPoints(v: Venue, scope: Scope, start: nat, through: nat) returns (result: Result<Option<nat>, Refusal>)
    requires 0 < start <= through
    ensures result == FirstSilence(v, scope, start, through)
  {
    hide Unclear, Silent, FirstCrossing, Points, FirstSilence;
    var points := Points(v, start, through);
    ghost var before := start - 1;
    while points != {}
      invariant start - 1 <= before <= through && (before < start ==> start in points)
      invariant forall p :: p in points ==> before < p <= through
      invariant before < through ==> through in points
      invariant forall r: Recorded :: r in v.records && before < r.at <= through ==> r.at in points
      invariant before >= start ==> !Unclear(v, scope, before) && !Silent(v, scope, before)
      invariant FirstSilence(v, scope, before + 1, through) == FirstSilence(v, scope, start, through)
      decreases |points|
    {
      var at := Numbers.Least(points);
      assert forall r: Recorded :: r in v.records ==> !(before < r.at < at);
      points := points - {at};
      var first := CrossingAt(v, scope, start, at);
      if first.Err? {
        PointFails(v, scope, before, at, through);
        return first;
      }
      PointPassed(v, scope, start, before, at, through, first.value);
      if first.value.Some? {
        return first;
      }
      before := at;
    }
    NoneAfter(v, scope, through);
    return Ok(None);
  }

  /** `receiptSilence`. */
  method ReceiptSilence(v: Venue, segment: Name, scope: Scope, through: nat) returns (result: Result<Option<nat>, Refusal>)
    ensures result == Silence(v, segment, scope, through)
  {
    hide Unclear, Silent, OpeningOf, Declares;
    if !Declares(v, scope) {
      return Ok(None);
    }
    var opening := OpeningOf(v.records, segment);
    if opening.None? {
      return Err(UnavailableOpening);
    }
    if !opening.value.evident {
      return Err(UnresolvedOpening);
    }
    if opening.value.scope != scope {
      return Err(UnauthenticatedScope);
    }
    if through <= opening.value.at {
      return Ok(None);
    }
    result := OverPoints(v, scope, opening.value.at + 1, through);
  }
}
