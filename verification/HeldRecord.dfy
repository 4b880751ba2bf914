/**
 The commitments of one operator that stand as held, derived index by index from records alone (C2.3.3).
 Adjacent ranges, each derived from where the one before ended, give what the whole range gives.
 */
module HeldRecord {
  import opened Wrappers
  import Numbers

  const U64_END: nat := 0x1_0000_0000_0000_0000

  type Key = nat

  /** A record's bytes, as they are ordered. */
  type Bytes = nat

  datatype Commitment = Commitment(operator: Key, sequence: nat, root: Bytes)

  datatype Entry = Entry(index: nat, ordinal: nat, record: Bytes)

  datatype Request = Request(subject: Key, from: nat, to: nat)

  /** The highest sequence held before the entries at `from`. */
  datatype Prior = Prior(from: nat, highest: nat)

  datatype Held = Held(index: nat, commitment: Commitment)

  datatype Derived = Derived(held: seq<Held>, next: Prior)

  datatype Refusal = Disordered | Unestablished

  /** The commitment a record decodes to, where it does and it verifies. */
  type Decoder = Bytes -> Option<Commitment>

  // ----- What is held

  predicate Counts(decode: Decoder, subject: Key, e: Entry) {
    decode(e.record).Some? && decode(e.record).value.operator == subject
  }

  function Sequence(decode: Decoder, e: Entry): nat
    requires decode(e.record).Some?
  {
    decode(e.record).value.sequence
  }

  /** No entry at an earlier index reaches this sequence, and no twin at its own has lesser bytes. */
  ghost predicate Kept(decode: Decoder, subject: Key, entries: seq<Entry>, prior: nat, e: Entry) {
    && e in entries && Counts(decode, subject, e) && Sequence(decode, e) > prior
    && (forall x :: x in entries && x.index < e.index && Counts(decode, subject, x) ==> Sequence(decode, x) < Sequence(decode, e))
    && (forall x :: x in entries && x.index == e.index && Counts(decode, subject, x) && Sequence(decode, x) == Sequence(decode, e)
          ==> e.record <= x.record)
  }

  ghost predicate Stands(decode: Decoder, subject: Key, entries: seq<Entry>, prior: nat, h: Held) {
    exists e :: Kept(decode, subject, entries, prior, e) && e.index == h.index && decode(e.record) == Some(h.commitment)
  }

  predicate Ascends(held: seq<Held>) {
    forall i, j :: 0 <= i < j < |held| ==> held[i].commitment.sequence < held[j].commitment.sequence
  }

  /** Exactly the commitments that stand, in ascending sequence. */
  ghost predicate Holds(decode: Decoder, subject: Key, entries: seq<Entry>, prior: nat, held: seq<Held>) {
    Ascends(held) && forall h :: h in held <==> Stands(decode, subject, entries, prior, h)
  }

  function Highest(prior: nat, held: seq<Held>): nat {
    if held == [] then prior else held[|held| - 1].commitment.sequence
  }

  // ----- One answer

  lemma HasFirst(held: seq<Held>)
    ensures held == [] || held[0] in held
  {
  }

  /** Records hold one list of commitments. */
  lemma {:induction false} AscendsOnce(a: seq<Held>, b: seq<Held>)
    requires Ascends(a) && Ascends(b) && forall h :: h in a <==> h in b
    ensures a == b
    decreases |a|
  {
    HasFirst(a);
    HasFirst(b);
    if a != [] {
      FirstIsLeast(a, b[0]);
      FirstIsLeast(b, a[0]);
      forall h
        ensures h in a[1..] <==> h in b[1..]
      {
        InTail(a, h);
        InTail(b, h);
      }
      TailAscends(a);
      TailAscends(b);
      hide Ascends;
      AscendsOnce(a[1..], b[1..]);
      assert a == [a[0]] + a[1..] && b == [b[0]] + b[1..];
    }
  }

  lemma FirstIsLeast(a: seq<Held>, h: Held)
    requires Ascends(a) && h in a
    ensures h == a[0] || a[0].commitment.sequence < h.commitment.sequence
  {
  }

  lemma TailAscends(a: seq<Held>)
    requires Ascends(a) && a != []
    ensures Ascends(a[1..])
  {
  }

  lemma InTail(a: seq<Held>, h: Held)
    requires Ascends(a) && a != []
    ensures h in a[1..] <==> h in a && h != a[0]
  {
    assert a == [a[0]] + a[1..];
    if h in a[1..] {
      var i :| 0 <= i < |a[1..]| && a[1..][i] == h;
      assert a[i + 1] == h;
    }
  }

  lemma HoldsOnce(decode: Decoder, subject: Key, entries: seq<Entry>, prior: nat, a: seq<Held>, b: seq<Held>)
    requires Holds(decode, subject, entries, prior, a) && Holds(decode, subject, entries, prior, b)
    ensures a == b
  {
    hide Stands;
    AscendsOnce(a, b);
  }

  /** Every record that counts is reached by a held one. */
  lemma {:induction false} HeldAbove(decode: Decoder, subject: Key, entries: seq<Entry>, prior: nat, held: seq<Held>, e: Entry)
    requires Holds(decode, subject, entries, prior, held)
    requires e in entries && Counts(decode, subject, e) && Sequence(decode, e) > prior
    ensures exists h :: h in held && h.commitment.sequence >= Sequence(decode, e)
    decreases e.index, e.record
  {
    if x :| x in entries && x.index < e.index && Counts(decode, subject, x) && Sequence(decode, x) >= Sequence(decode, e) {
      HeldAbove(decode, subject, entries, prior, held, x);
    } else if x :| x in entries && x.index == e.index && Counts(decode, subject, x) && Sequence(decode, x) == Sequence(decode, e)
                   && x.record < e.record {
      HeldAbove(decode, subject, entries, prior, held, x);
    } else {
      assert Kept(decode, subject, entries, prior, e);
      assert Stands(decode, subject, entries, prior, Held(e.index, decode(e.record).value));
    }
  }

  /** What is passed on as highest is the highest sequence that counts, or the prior one. */
  lemma HighestCovers(decode: Decoder, subject: Key, entries: seq<Entry>, prior: nat, held: seq<Held>)
    requires Holds(decode, subject, entries, prior, held)
    ensures Highest(prior, held) >= prior
    ensures forall e :: e in entries && Counts(decode, subject, e) ==> Sequence(decode, e) <= Highest(prior, held)
    ensures Highest(prior, held) == prior || exists e :: e in entries && Counts(decode, subject, e) && Sequence(decode, e) == Highest(prior, held)
  {
    if held != [] {
      var last := held[|held| - 1];
      assert last in held;
      var e :| Kept(decode, subject, entries, prior, e) && e.index == last.index && decode(e.record) == Some(last.commitment);
      assert Sequence(decode, e) == Highest(prior, held);
    }
    forall e | e in entries && Counts(decode, subject, e)
      ensures Sequence(decode, e) <= Highest(prior, held)
    {
      if Sequence(decode, e) > prior {
        HeldAbove(decode, subject, entries, prior, held, e);
      }
    }
  }

  // ----- Adjacent ranges

  lemma KeptFirst(decode: Decoder, subject: Key, a: seq<Entry>, b: seq<Entry>, prior: nat, e: Entry)
    requires (forall x, y :: x in a && y in b ==> x.index < y.index) && e in a
    ensures Kept(decode, subject, a + b, prior, e) <==> Kept(decode, subject, a, prior, e)
  {
    if Kept(decode, subject, a, prior, e) {
      forall x | x in a + b && x.index <= e.index
        ensures x in a
      {
      }
    }
  }

  lemma KeptSecond(decode: Decoder, subject: Key, a: seq<Entry>, b: seq<Entry>, prior: nat, highest: nat, e: Entry)
    requires (forall x, y :: x in a && y in b ==> x.index < y.index) && e in b
    requires highest >= prior && forall x :: x in a && Counts(decode, subject, x) ==> Sequence(decode, x) <= highest
    requires highest == prior || exists x :: x in a && Counts(decode, subject, x) && Sequence(decode, x) == highest
    ensures Kept(decode, subject, a + b, prior, e) <==> Kept(decode, subject, b, highest, e)
  {
    if Kept(decode, subject, b, highest, e) {
      forall x | x in a + b && x.index == e.index
        ensures x in b
      {
      }
    }
  }

  lemma StandsJoined(decode: Decoder, subject: Key, a: seq<Entry>, b: seq<Entry>, prior: nat, highest: nat, h: Held)
    requires forall x, y :: x in a && y in b ==> x.index < y.index
    requires highest >= prior && forall x :: x in a && Counts(decode, subject, x) ==> Sequence(decode, x) <= highest
    requires highest == prior || exists x :: x in a && Counts(decode, subject, x) && Sequence(decode, x) == highest
    ensures Stands(decode, subject, a + b, prior, h) <==> Stands(decode, subject, a, prior, h) || Stands(decode, subject, b, highest, h)
  {
    forall e: Entry
      ensures e in a ==> (Kept(decode, subject, a + b, prior, e) <==> Kept(decode, subject, a, prior, e))
      ensures e in b ==> (Kept(decode, subject, a + b, prior, e) <==> Kept(decode, subject, b, highest, e))
      ensures Kept(decode, subject, a + b, prior, e) ==> e in a || e in b
    {
      if e in a {
        KeptFirst(decode, subject, a, b, prior, e);
      }
      if e in b {
        KeptSecond(decode, subject, a, b, prior, highest, e);
      }
    }
    hide Kept, Counts, Sequence;
    KeptIsIn(decode, subject, a, prior);
    KeptIsIn(decode, subject, b, highest);
    if Stands(decode, subject, a + b, prior, h) {
      var e :| Kept(decode, subject, a + b, prior, e) && e.index == h.index && decode(e.record) == Some(h.commitment);
      assert e in a ==> Stands(decode, subject, a, prior, h);
      assert e in b ==> Stands(decode, subject, b, highest, h);
    }
  }

  lemma KeptIsIn(decode: Decoder, subject: Key, entries: seq<Entry>, prior: nat)
    ensures forall e :: Kept(decode, subject, entries, prior, e) ==> e in entries
  {
  }

  /** Two adjacent ranges, the second derived from the first's highest, hold what the whole range holds. */
  lemma HoldsJoined(decode: Decoder, subject: Key, a: seq<Entry>, b: seq<Entry>, prior: nat, first: seq<Held>, second: seq<Held>)
    requires forall x, y :: x in a && y in b ==> x.index < y.index
    requires Holds(decode, subject, a, prior, first) && Holds(decode, subject, b, Highest(prior, first), second)
    ensures Holds(decode, subject, a + b, prior, first + second)
    ensures Highest(prior, first + second) == Highest(Highest(prior, first), second)
  {
    var highest := Highest(prior, first);
    HighestCovers(decode, subject, a, prior, first);
    forall h
      ensures h in first + second <==> Stands(decode, subject, a + b, prior, h)
    {
      StandsJoined(decode, subject, a, b, prior, highest, h);
    }
    forall i, j | 0 <= i < |first| && 0 <= j < |second|
      ensures first[i].commitment.sequence < second[j].commitment.sequence
    {
      assert second[j] in second;
      assert i == |first| - 1 || first[i].commitment.sequence < first[|first| - 1].commitment.sequence;
    }
  }

  // ----- The derivation as it runs

  /** The frame's own order for commitments: by index, then by bytes, with a zero ordinal. */
  predicate InFrame(request: Request, entries: seq<Entry>) {
    && request.from <= request.to < U64_END
    && (forall e :: e in entries ==> request.from <= e.index <= request.to && e.ordinal == 0)
    && (forall i :: 0 < i < |entries| ==>
          entries[i - 1].index < entries[i].index || (entries[i - 1].index == entries[i].index && entries[i - 1].record <= entries[i].record))
  }

  lemma {:induction false} FrameOrders(request: Request, entries: seq<Entry>, i: nat, j: nat)
    requires InFrame(request, entries) && i <= j < |entries|
    ensures entries[i].index <= entries[j].index
    decreases j
  {
    if i < j {
      FrameOrders(request, entries, i, j - 1);
    }
  }

  /** The highest sequence a derivation starts from: none before index zero, and otherwise one established
      for the very index the range starts at. */
  function Starting(request: Request, prior: Option<Prior>): Result<nat, Refusal> {
    if request.from == 0 then if prior.None? then Ok(0) else Err(Unestablished)
    else if prior.Some? && prior.value.highest < U64_END && prior.value.from == request.from then Ok(prior.value.highest)
    else Err(Unestablished)
  }

  /** The candidates of the entries read so far at one index: by sequence, the least record. */
  ghost predicate Gathered(decode: Decoder, subject: Key, group: seq<Entry>, highest: nat, candidates: map<nat, Entry>) {
    forall q :: if q in candidates
      then Sequenced(decode, subject, candidates[q], q) && candidates[q] in group && q > highest
        && forall e :: e in group && Sequenced(decode, subject, e, q) ==> candidates[q].record <= e.record
      else forall e :: e in group && q > highest ==> !Sequenced(decode, subject, e, q)
  }

  predicate Sequenced(decode: Decoder, subject: Key, e: Entry, q: nat) {
    Counts(decode, subject, e) && Sequence(decode, e) == q
  }

  lemma Gathers(decode: Decoder, subject: Key, group: seq<Entry>, highest: nat, candidates: map<nat, Entry>, e: Entry, next: map<nat, Entry>)
    requires Gathered(decode, subject, group, highest, candidates)
    requires if !Counts(decode, subject, e) || Sequence(decode, e) <= highest then next == candidates
      else if Sequence(decode, e) in candidates && candidates[Sequence(decode, e)].record <= e.record then next == candidates
      else next == candidates[Sequence(decode, e) := e]
    ensures Gathered(decode, subject, group + [e], highest, next)
  {
    forall q
      ensures if q in next
        then Sequenced(decode, subject, next[q], q) && next[q] in group + [e] && q > highest
          && forall x :: x in group + [e] && Sequenced(decode, subject, x, q) ==> next[q].record <= x.record
        else forall x :: x in group + [e] && q > highest ==> !Sequenced(decode, subject, x, q)
    {
      assert q in next && q !in candidates ==> next[q] == e;
    }
  }

  /** One index's entries, from `at` to the next index. */
  method Gather(decode: Decoder, request: Request, entries: seq<Entry>, at: nat, highest: nat)
    returns (candidates: map<nat, Entry>, next: nat)
    requires InFrame(request, entries) && at < |entries|
    ensures at < next <= |entries| && (forall i :: at <= i < next ==> entries[i].index == entries[at].index)
    ensures next < |entries| ==> entries[next].index > entries[at].index
    ensures Gathered(decode, request.subject, entries[at..next], highest, candidates)
  {
    hide Gathered, InFrame, Sequence, Sequenced;
    candidates, next := map[], at;
    assert entries[at..at] == [];
    GathersNone(decode, request.subject, highest);
    while next < |entries| && entries[next].index == entries[at].index
      invariant at <= next <= |entries| && (forall i :: at <= i < next ==> entries[i].index == entries[at].index)
      invariant next > at || next == at < |entries|
      invariant Gathered(decode, request.subject, entries[at..next], highest, candidates)
    {
      var e, before := entries[next], candidates;
      if Counts(decode, request.subject, e) && Sequence(decode, e) > highest {
        var q := Sequence(decode, e);
        if q !in candidates || e.record < candidates[q].record {
          candidates := candidates[q := e];
        }
      }
      Gathers(decode, request.subject, entries[at..next], highest, before, e, candidates);
      assert entries[at..next + 1] == entries[at..next] + [e];
      next := next + 1;
    }
    if next < |entries| {
      FrameOrders(request, entries, at, next);
    }
  }

  lemma GathersNone(decode: Decoder, subject: Key, highest: nat)
    ensures Gathered(decode, subject, [], highest, map[])
  {
  }

  /** A candidate is what stands among its index's entries. */
  lemma GatheredStands(decode: Decoder, subject: Key, group: seq<Entry>, index: nat, highest: nat, candidates: map<nat, Entry>, h: Held)
    requires Gathered(decode, subject, group, highest, candidates) && forall e :: e in group ==> e.index == index
    ensures Stands(decode, subject, group, highest, h)
      <==> h.commitment.sequence in candidates && h.index == index && decode(candidates[h.commitment.sequence].record) == Some(h.commitment)
  {
    if Stands(decode, subject, group, highest, h) {
      var e :| Kept(decode, subject, group, highest, e) && e.index == h.index && decode(e.record) == Some(h.commitment);
      assert Sequenced(decode, subject, e, h.commitment.sequence);
      assert h.commitment.sequence in candidates;
    }
    if h.commitment.sequence in candidates && h.index == index && decode(candidates[h.commitment.sequence].record) == Some(h.commitment) {
      var e := candidates[h.commitment.sequence];
      assert Sequenced(decode, subject, e, h.commitment.sequence);
      assert Kept(decode, subject, group, highest, e);
    }
  }

  /** The candidates, by ascending sequence. */
  method Sort(decode: Decoder, ghost subject: Key, ghost group: seq<Entry>, index: nat, ghost highest: nat, candidates: map<nat, Entry>) returns (held: seq<Held>)
    requires Gathered(decode, subject, group, highest, candidates) && forall e :: e in group ==> e.index == index
    ensures Holds(decode, subject, group, highest, held)
  {
    var rest := candidates.Keys;
    held := [];
    while rest != {}
      invariant rest <= candidates.Keys && Ascends(held)
      invariant forall h :: h in held ==> forall q :: q in rest ==> h.commitment.sequence < q
      invariant forall h :: h in held <==> h.commitment.sequence in candidates.Keys - rest && h.index == index
                                           && decode(candidates[h.commitment.sequence].record) == Some(h.commitment)
      decreases |rest|
    {
      var q := Numbers.Least(rest);
      assert Sequenced(decode, subject, candidates[q], q);
      held := held + [Held(index, decode(candidates[q].record).value)];
      rest := rest - {q};
    }
    forall h
      ensures h in held <==> Stands(decode, subject, group, highest, h)
    {
      GatheredStands(decode, subject, group, index, highest, candidates, h);
    }
  }

  /** What a derivation over a range gives. */
  ghost predicate Derives(decode: Decoder, request: Request, entries: seq<Entry>, prior: Option<Prior>, result: Result<Derived, Refusal>) {
    && (result.Ok? <==> InFrame(request, entries) && Starting(request, prior).Ok?)
    && (result.Ok? ==> Holds(decode, request.subject, entries, Starting(request, prior).value, result.value.held))
    && (result.Ok? ==> result.value.next == Prior(request.to + 1, Highest(Starting(request, prior).value, result.value.held)))
  }

  /** `heldCommitments`. */
  method HeldCommitments(decode: Decoder, request: Request, entries: seq<Entry>, prior: Option<Prior>) returns (result: Result<Derived, Refusal>)
    ensures Derives(decode, request, entries, prior, result)
  {
    hide Gathered, Holds;
    if !InFrame(request, entries) {
      return Err(Disordered);
    }
    var start := Starting(request, prior);
    if start.Err? {
      return Err(start.error);
    }
    var highest, held, at := start.value, [], 0;
    HoldsNone(decode, request.subject, highest);
    assert entries[..0] == [];
    while at < |entries|
      invariant at <= |entries| && highest == Highest(start.value, held)
      invariant Holds(decode, request.subject, entries[..at], start.value, held)
      invariant 0 < at < |entries| ==> entries[at - 1].index < entries[at].index
    {
      var candidates, next := Gather(decode, request, entries, at, highest);
      ghost var group := entries[at..next];
      var found := Sort(decode, request.subject, group, entries[at].index, highest, candidates);
      assert entries[..next] == entries[..at] + group;
      LaterGroup(request, entries, at, next);
      HoldsJoined(decode, request.subject, entries[..at], group, start.value, held, found);
      held := held + found;
      highest := Highest(highest, found);
      at := next;
    }
    assert entries[..|entries|] == entries;
    return Ok(Derived(held, Prior(request.to + 1, highest)));
  }

  lemma HoldsNone(decode: Decoder, subject: Key, prior: nat)
    ensures Holds(decode, subject, [], prior, [])
  {
  }

  lemma LaterGroup(request: Request, entries: seq<Entry>, at: nat, next: nat)
    requires InFrame(request, entries) && at <= next <= |entries| && (0 < at < |entries| ==> entries[at - 1].index < entries[at].index)
    ensures forall x, y :: x in entries[..at] && y in entries[at..next] ==> x.index < y.index
  {
    forall x, y | x in entries[..at] && y in entries[at..next]
      ensures x.index < y.index
    {
      var i :| 0 <= i < at && entries[i] == x;
      var j :| 0 <= j < next - at && entries[at..next][j] == y;
      FrameOrders(request, entries, i, at - 1);
      FrameOrders(request, entries, at, at + j);
    }
  }

  lemma FramesJoin(request: Request, middle: nat, a: seq<Entry>, b: seq<Entry>)
    requires request.from <= middle < request.to
    requires InFrame(request.(to := middle), a) && InFrame(request.(from := middle + 1), b)
    ensures InFrame(request, a + b)
    ensures forall x, y :: x in a && y in b ==> x.index < y.index
  {
    var whole := a + b;
    forall i | 0 < i < |whole|
      ensures whole[i - 1].index < whole[i].index || (whole[i - 1].index == whole[i].index && whole[i - 1].record <= whole[i].record)
    {
      if i == |a| {
        assert a[i - 1] in a && b[0] in b;
      }
    }
  }

  /** A record's sequence is of 64 bits. */
  ghost predicate Sized(decode: Decoder) {
    forall b :: decode(b).Some? ==> decode(b).value.sequence < U64_END
  }

  /** A range derived, and then the next one from the prior it passes on, give what one derivation over
      both gives; neither is refused unless that one is. */
  lemma RangesJoin(decode: Decoder, request: Request, middle: nat, a: seq<Entry>, b: seq<Entry>, prior: Option<Prior>,
                   first: Result<Derived, Refusal>, second: Result<Derived, Refusal>, whole: Result<Derived, Refusal>)
    requires Sized(decode) && request.from <= middle < request.to
    requires Derives(decode, request.(to := middle), a, prior, first)
    requires first.Ok? ==> Derives(decode, request.(from := middle + 1), b, Some(first.value.next), second)
    requires Derives(decode, request, a + b, prior, whole)
    ensures first.Ok? && second.Ok? ==> whole == Ok(Derived(first.value.held + second.value.held, second.value.next))
    ensures (forall e :: e in a ==> e.index <= middle) && (forall e :: e in b ==> e.index > middle) ==> (whole.Ok? <==> first.Ok? && second.Ok?)
  {
    hide Holds, InFrame;
    if first.Ok? {
      var start := Starting(request, prior).value;
      PriorSized(decode, request.subject, a, start, first.value.held);
      if second.Ok? {
        FramesJoin(request, middle, a, b);
        HoldsJoined(decode, request.subject, a, b, start, first.value.held, second.value.held);
        HoldsOnce(decode, request.subject, a + b, start, whole.value.held, first.value.held + second.value.held);
      }
    }
    if whole.Ok? && (forall e :: e in a ==> e.index <= middle) && forall e :: e in b ==> e.index > middle {
      FrameParts(request, middle, a, b);
    }
  }

  lemma PriorSized(decode: Decoder, subject: Key, entries: seq<Entry>, prior: nat, held: seq<Held>)
    requires Sized(decode) && prior < U64_END && Holds(decode, subject, entries, prior, held)
    ensures Highest(prior, held) < U64_END
  {
    hide Holds, Highest;
    HighestCovers(decode, subject, entries, prior, held);
  }

  lemma FrameParts(request: Request, middle: nat, a: seq<Entry>, b: seq<Entry>)
    requires InFrame(request, a + b) && request.from <= middle < request.to
    requires (forall e :: e in a ==> e.index <= middle) && forall e :: e in b ==> e.index > middle
    ensures InFrame(request.(to := middle), a) && InFrame(request.(from := middle + 1), b)
  {
    var whole := a + b;
    forall i | 0 < i < |a|
      ensures a[i - 1].index < a[i].index || (a[i - 1].index == a[i].index && a[i - 1].record <= a[i].record)
    {
      assert whole[i - 1] == a[i - 1] && whole[i] == a[i];
    }
    forall i | 0 < i < |b|
      ensures b[i - 1].index < b[i].index || (b[i - 1].index == b[i].index && b[i - 1].record <= b[i].record)
    {
      assert whole[|a| + i - 1] == b[i - 1] && whole[|a| + i] == b[i];
    }
  }
}
