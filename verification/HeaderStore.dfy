/**
 The tree of accepted headers with its heaviest branch listed by height. Additions may move that branch,
 and prunings drop others; at every point the store passes its own audit, and an ancestor found by height
 is the one that parent links lead to.
 */
module HeaderStore {
  import opened Wrappers
  import opened HeaderTree

  datatype Refusal = MALFORMED | KNOWN | UNKNOWN_PARENT | BELOW_ANCHOR | HEIGHT | TIMESTAMP | DIFFICULTY | POW

  datatype AddResult = Added | Refused(refusal: Refusal)

  /** The headers off the best chain, all of them. */
  ghost predicate SidesOk(a: Anchor, hs: Headers, best: seq<Id>, side: set<Id>)
    requires ContextOk(a)
  {
    forall id :: id in side <==> id in hs && !OnBest(a, best, hs[id].header)
  }

  /** No accepted header outscores the best chain. */
  ghost predicate Heaviest(a: Anchor, hs: Headers, best: seq<Id>)
    requires ContextOk(a)
  {
    forall id :: id in hs ==> hs[id].score <= ScoreOf(hs, TipId(a, best))
  }

  ghost predicate StoreOk(a: Anchor, hs: Headers, best: seq<Id>, side: set<Id>) {
    && ContextOk(a) && Linked(a, hs) && AllLawful(a, hs) && BestOk(a, hs, best) && SidesOk(a, hs, best, side) && Heaviest(a, hs, best)
  }

  // ----- A header added

  lemma LinkedAdds(a: Anchor, hs: Headers, row: Row)
    requires ContextOk(a) && Linked(a, hs) && row.header.id !in hs && !InContext(a, row.header.id)
    requires Known(a, hs, row.header.parentId) && row.header.height == HeaderOf(a, hs, row.header.parentId).height + 1
    ensures Linked(a, hs[row.header.id := row]) && Within(hs, hs[row.header.id := row])
  {
    hide ContextOk, InContext;
    var all := hs[row.header.id := row];
    RootIsNot(a, hs);
    forall id | id in all
      ensures LinkedAt(a, all, id)
    {
      if id != row.header.id {
        assert LinkedAt(a, hs, id);
      }
    }
  }

  lemma LawfulAdds(a: Anchor, hs: Headers, row: Row)
    requires ContextOk(a) && Linked(a, hs) && AllLawful(a, hs) && row.header.id !in hs
    requires Linked(a, hs[row.header.id := row]) && Within(hs, hs[row.header.id := row]) && Known(a, hs, row.header.parentId)
    requires var difficulty := Required(a, hs, row.header.parentId);
      && row.header.timestamp > HeaderOf(a, hs, row.header.parentId).timestamp
      && 0 < difficulty <= a.rules.most && row.header.claimed == difficulty
      && row.score == ScoreOf(hs, row.header.parentId) + difficulty && a.rules.work(row.header)
    ensures AllLawful(a, hs[row.header.id := row])
  {
    hide ContextOk, Linked, Required, Within;
    var all := hs[row.header.id := row];
    forall id | id in all
      ensures Lawful(a, all, id)
    {
      if id == row.header.id {
        SameRequired(a, hs, all, row.header.parentId);
      } else {
        SameLawful(a, hs, all, id);
      }
    }
  }

  lemma ChainedAdds(hs: Headers, base: Id, height: nat, list: seq<Id>, row: Row)
    requires Chained(hs, base, height, list) && row.header.id !in hs
    ensures Chained(hs[row.header.id := row], base, height, list)
  {
    var all := hs[row.header.id := row];
    forall i | 0 <= i < |list|
      ensures LinkOf(all, base, height, list, i)
    {
      assert LinkOf(hs, base, height, list, i);
    }
  }

  // ----- A tip promoted

  /** A run one header longer at its foot. */
  lemma ChainedGrows(hs: Headers, p: Id, id: Id, height: nat, list: seq<Id>)
    requires id in hs && hs[id].header.parentId == p && hs[id].header.height == height + 1 && Chained(hs, id, height + 1, list)
    ensures Chained(hs, p, height, [id] + list)
  {
    var next := [id] + list;
    forall i | 0 <= i < |next|
      ensures LinkOf(hs, p, height, next, i)
    {
      if i > 0 {
        assert LinkOf(hs, id, height + 1, list, i - 1);
      }
    }
  }

  /** A run cut at a header of it, and another put there. */
  lemma ChainedJoins(hs: Headers, base: Id, height: nat, list: seq<Id>, n: nat, tail: seq<Id>)
    requires Chained(hs, base, height, list) && n <= |list| && Chained(hs, if n == 0 then base else list[n - 1], height + n, tail)
    ensures Chained(hs, base, height, list[..n] + tail)
  {
    var next, foot := list[..n] + tail, if n == 0 then base else list[n - 1];
    forall i | 0 <= i < |next|
      ensures LinkOf(hs, base, height, next, i)
    {
      if i < n {
        assert LinkOf(hs, base, height, list, i);
      } else {
        assert LinkOf(hs, foot, height + n, tail, i - n);
      }
    }
  }

  lemma ChainedHeights(hs: Headers, base: Id, height: nat, list: seq<Id>)
    requires Chained(hs, base, height, list)
    ensures forall i :: 0 <= i < |list| ==> list[i] in hs && hs[list[i]].header.height == height + 1 + i
    ensures forall i, j :: 0 <= i < j < |list| ==> list[i] != list[j]
  {
    forall i | 0 <= i < |list|
      ensures list[i] in hs && hs[list[i]].header.height == height + 1 + i
    {
      assert LinkOf(hs, base, height, list, i);
    }
  }

  /** An accepted header is on the best chain just where the chain lists it. */
  lemma OnBestLists(a: Anchor, hs: Headers, best: seq<Id>, id: Id)
    requires ContextOk(a) && Linked(a, hs) && BestOk(a, hs, best) && id in hs
    ensures OnBest(a, best, hs[id].header) <==> id in best
  {
    hide ContextOk, Linked, Chained;
    assert HeaderOf(a, hs, id).id == id;
    ChainedHeights(hs, Root(a).id, AnchorHeight(a), best);
    if id in best {
      var j :| 0 <= j < |best| && best[j] == id;
    }
  }

  /** The headers off the best chain once its top is replaced. */
  lemma SidesPromoted(a: Anchor, hs: Headers, best: seq<Id>, side: set<Id>, n: nat, tail: seq<Id>, newest: Id)
    requires ContextOk(a) && Linked(a, hs) && BestOk(a, hs, best) && n <= |best| && BestOk(a, hs, best[..n] + tail) && newest in tail
    requires forall id :: id in side <==> id in hs && id != newest && !OnBest(a, best, hs[id].header)
    ensures SidesOk(a, hs, best[..n] + tail, side + (set id | id in best[n..]) - (set id | id in tail))
  {
    hide ContextOk, Linked, AnchorHeight, Chained;
    var next := best[..n] + tail;
    ChainedHeights(hs, Root(a).id, AnchorHeight(a), best);
    ChainedHeights(hs, Root(a).id, AnchorHeight(a), next);
    assert best == best[..n] + best[n..];
    forall id
      ensures id in side + (set x | x in best[n..]) - (set x | x in tail) <==> id in hs && !OnBest(a, next, hs[id].header)
    {
      InParts(best[..n], best[n..], id);
      InParts(best[..n], tail, id);
      if id in hs {
        OnBestLists(a, hs, best, id);
        OnBestLists(a, hs, next, id);
      }
    }
  }

  lemma InParts(x: seq<Id>, y: seq<Id>, id: Id)
    requires forall i, j :: 0 <= i < j < |x + y| ==> (x + y)[i] != (x + y)[j]
    ensures id in x + y <==> id in x || id in y
    ensures !(id in x && id in y)
  {
    forall i, j | 0 <= i < |x| && 0 <= j < |y|
      ensures x[i] != y[j]
    {
      assert (x + y)[i] == x[i] && (x + y)[|x| + j] == y[j];
    }
  }

  // ----- Pruning

  /** Headers kept with their ancestors are still linked and lawful. */
  lemma PrunedOk(a: Anchor, hs: Headers, kept: Headers)
    requires ContextOk(a) && Linked(a, hs) && AllLawful(a, hs) && Within(kept, hs)
    requires forall id :: id in kept && hs[id].header.height > AnchorHeight(a) + 1 ==> hs[id].header.parentId in kept
    ensures Linked(a, kept) && AllLawful(a, kept)
  {
    hide ContextOk, Required, InContext;
    forall id | id in kept
      ensures LinkedAt(a, kept, id)
    {
      assert LinkedAt(a, hs, id);
    }
    forall id | id in kept
      ensures Lawful(a, kept, id)
    {
      SameLawful(a, kept, hs, id);
    }
  }

  /** A header off the best chain forks where its parent does, below itself. */
  lemma ForkOfParent(a: Anchor, hs: Headers, best: seq<Id>, id: Id)
    requires ContextOk(a) && Linked(a, hs) && id in hs && !OnBest(a, best, hs[id].header)
    ensures Fork(a, hs, best, id) == Fork(a, hs, best, ParentOf(a, hs, id))
  {
    hide ContextOk, Linked, OnBest;
  }

  /** The headers off the best chain on a header's path. */
  ghost function OffPath(a: Anchor, hs: Headers, best: seq<Id>, id: Id): (off: set<Id>)
    requires ContextOk(a) && Linked(a, hs) && Known(a, hs, id)
    ensures forall x :: x in off ==> x in hs && !OnBest(a, best, hs[x].header)
    decreases HeaderOf(a, hs, id).height
  {
    if OnBest(a, best, HeaderOf(a, hs, id)) then {} else {id} + OffPath(a, hs, best, ParentOf(a, hs, id))
  }

  /** The off-path headers of the protected ids. */
  ghost function Protected(a: Anchor, hs: Headers, best: seq<Id>, ids: seq<Id>): set<Id>
    requires ContextOk(a) && Linked(a, hs)
  {
    if ids == [] then {}
    else
      var p := ids[|ids| - 1];
      Protected(a, hs, best, ids[..|ids| - 1]) + if p in hs then OffPath(a, hs, best, p) else {}
  }

  /** A set of headers with the off-path ones of each. */
  ghost predicate Closed(a: Anchor, hs: Headers, best: seq<Id>, keep: set<Id>, more: set<Id>)
    requires ContextOk(a) && Linked(a, hs)
  {
    forall x :: x in keep ==> x in hs && OffPath(a, hs, best, x) <= keep + more
  }

  ghost function ForkHeight(a: Anchor, hs: Headers, best: seq<Id>, id: Id): nat
    requires ContextOk(a) && Linked(a, hs) && Known(a, hs, id)
  {
    HeaderOf(a, hs, Fork(a, hs, best, id)).height
  }

  /** A side header that a pruning spares: protected, or forking no lower than the height. */
  ghost predicate Stays(a: Anchor, hs: Headers, best: seq<Id>, height: nat, ids: seq<Id>, id: Id)
    requires ContextOk(a) && Linked(a, hs) && id in hs
  {
    id in Protected(a, hs, best, ids) || ForkHeight(a, hs, best, id) >= height
  }

  lemma {:induction false} ProtectedClosed(a: Anchor, hs: Headers, best: seq<Id>, ids: seq<Id>)
    requires ContextOk(a) && Linked(a, hs)
    ensures Closed(a, hs, best, Protected(a, hs, best, ids), {})
  {
    hide ContextOk, Linked, OnBest;
    if ids != [] {
      ProtectedClosed(a, hs, best, ids[..|ids| - 1]);
      var p := ids[|ids| - 1];
      if p in hs {
        OffPathClosed(a, hs, best, p);
      }
    }
  }

  lemma {:induction false} OffPathClosed(a: Anchor, hs: Headers, best: seq<Id>, id: Id)
    requires ContextOk(a) && Linked(a, hs) && Known(a, hs, id)
    ensures Closed(a, hs, best, OffPath(a, hs, best, id), {})
    decreases HeaderOf(a, hs, id).height
  {
    hide ContextOk, Linked;
    if !OnBest(a, best, HeaderOf(a, hs, id)) {
      OffPathClosed(a, hs, best, ParentOf(a, hs, id));
    }
  }

  lemma PathStep(a: Anchor, hs: Headers, best: seq<Id>, id: Id, keep: set<Id>)
    requires ContextOk(a) && Linked(a, hs) && id in hs && !OnBest(a, best, hs[id].header)
    ensures keep + OffPath(a, hs, best, id) == (keep + {id}) + OffPath(a, hs, best, ParentOf(a, hs, id))
  {
    hide ContextOk, Linked, OnBest;
  }

  /** A walk may stop at the best chain, or at a header whose path is kept already. */
  lemma PathEnds(a: Anchor, hs: Headers, best: seq<Id>, id: Id, kept: set<Id>)
    requires ContextOk(a) && Linked(a, hs) && Known(a, hs, id) && Closed(a, hs, best, kept, {})
    ensures OnBest(a, best, HeaderOf(a, hs, id)) || id in kept ==> OffPath(a, hs, best, id) <= kept
  {
    hide ContextOk, Linked, OnBest;
  }

  /** What stays stays with its ancestors. */
  lemma StaysWithParent(a: Anchor, hs: Headers, best: seq<Id>, height: nat, ids: seq<Id>, id: Id)
    requires ContextOk(a) && Linked(a, hs) && BestOk(a, hs, best) && id in hs && ParentOf(a, hs, id) in hs
    requires OnBest(a, best, hs[id].header) || Stays(a, hs, best, height, ids, id)
    ensures var p := ParentOf(a, hs, id); OnBest(a, best, hs[p].header) || Stays(a, hs, best, height, ids, p)
  {
    hide ContextOk, Linked, Chained, Protected;
    var p := ParentOf(a, hs, id);
    if OnBest(a, best, hs[id].header) {
      BestReaches(a, hs, best, id);
      BestParent(a, hs, best, hs[id].header.height);
    } else if !OnBest(a, best, hs[p].header) {
      ForkOfParent(a, hs, best, id);
      ProtectedClosed(a, hs, best, ids);
      assert p in OffPath(a, hs, best, id);
    }
  }

  lemma PrunedKeeps(a: Anchor, hs: Headers, best: seq<Id>, side: set<Id>, height: nat, ids: seq<Id>, doomed: set<Id>)
    requires StoreOk(a, hs, best, side)
    requires forall id :: id in doomed <==> id in side && !Stays(a, hs, best, height, ids, id)
    ensures StoreOk(a, hs - doomed, best, side - doomed)
  {
    hide ContextOk, AllLawful, Linked, Chained, Stays, OnBest, Heaviest;
    var kept := hs - doomed;
    forall id | id in kept && hs[id].header.height > AnchorHeight(a) + 1
      ensures hs[id].header.parentId in kept
    {
      ParentIs(a, hs, id);
      StaysWithParent(a, hs, best, height, ids, id);
    }
    PrunedOk(a, hs, kept);
    ChainedPruned(a, hs, best, doomed, side);
    RestPruned(a, hs, best, side, doomed);
  }

  lemma RestPruned(a: Anchor, hs: Headers, best: seq<Id>, side: set<Id>, doomed: set<Id>)
    requires ContextOk(a) && Linked(a, hs) && BestOk(a, hs, best) && SidesOk(a, hs, best, side) && Heaviest(a, hs, best) && doomed <= side
    requires BestOk(a, hs - doomed, best)
    ensures SidesOk(a, hs - doomed, best, side - doomed) && Heaviest(a, hs - doomed, best)
  {
    hide ContextOk, Linked, Chained, OnBest;
    TipKnown(a, hs, best);
    TipKnown(a, hs - doomed, best);
    RootIsNot(a, hs);
  }

  lemma ParentIs(a: Anchor, hs: Headers, id: Id)
    requires ContextOk(a) && Linked(a, hs) && id in hs && hs[id].header.height > AnchorHeight(a) + 1
    ensures ParentOf(a, hs, id) in hs && ParentOf(a, hs, id) == hs[id].header.parentId
  {
    assert LinkedAt(a, hs, id);
  }

  lemma ChainedPruned(a: Anchor, hs: Headers, best: seq<Id>, doomed: set<Id>, side: set<Id>)
    requires ContextOk(a) && Linked(a, hs) && BestOk(a, hs, best) && SidesOk(a, hs, best, side) && doomed <= side
    ensures BestOk(a, hs - doomed, best)
  {
    hide ContextOk, Linked;
    var kept := hs - doomed;
    forall i | 0 <= i < |best|
      ensures LinkOf(kept, Root(a).id, AnchorHeight(a), best, i)
    {
      assert LinkOf(hs, Root(a).id, AnchorHeight(a), best, i);
      OnBestLists(a, hs, best, best[i]);
    }
  }

  class HeaderStore {
    const a: Anchor
    var headers: Headers
    var best: seq<Id>
    var side: set<Id>
    /** The runs set in the rows so far. */
    ghost var runs: seq<Run>

    ghost predicate Valid()
      reads this
    {
      StoreOk(a, headers, best, side) && RunsOk(AnchorHeight(a) + 1, runs, best)
    }

    /** A store rooted at an anchor, nothing accepted above it. */
    constructor (a: Anchor)
      requires ContextOk(a)
      ensures Valid() && this.a == a && headers == map[] && best == [] && side == {} && runs == []
    {
      this.a, headers, best, side, runs := a, map[], [], {}, [];
    }

    /** The best chain's tip. */
    function Tip(): Id
      requires ContextOk(a)
      reads this
    {
      TipId(a, best)
    }

    /** The ancestor of a header at a height. The walk follows parents only while it is off every list kept by height. */
    method AncestorAt(id: Id, height: int) returns (r: Option<Header>)
      requires Valid() && Known(a, headers, id)
      ensures r == if Lowest(a) <= height <= HeaderOf(a, headers, id).height then Some(AncestorOf(a, headers, id, height)) else None
    {
      hide ContextOk, Linked, AllLawful, Chained, SidesOk, Heaviest, Lawful;
      AnchorDeep(a);
      var at := id;
      while HeaderOf(a, headers, at).height > height
        invariant Known(a, headers, at) && HeaderOf(a, headers, at).height <= HeaderOf(a, headers, id).height
        invariant height <= HeaderOf(a, headers, id).height ==> height <= HeaderOf(a, headers, at).height
        invariant Lowest(a) <= height <= HeaderOf(a, headers, id).height ==> AncestorOf(a, headers, at, height) == AncestorOf(a, headers, id, height)
        decreases HeaderOf(a, headers, at).height
      {
        if OnBest(a, best, HeaderOf(a, headers, at)) {
          if height >= Lowest(a) {
            BestAncestor(a, headers, best, at, height);
          }
          if height <= AnchorHeight(a) {
            return if height < Lowest(a) then None else Some(a.context[height - Lowest(a)]);
          }
          return Some(BestAt(a, headers, best, height));
        }
        at := ParentOf(a, headers, at);
      }
      AncestorSelf(a, headers, at);
      return if HeaderOf(a, headers, at).height == height then Some(HeaderOf(a, headers, at)) else None;
    }

    /** The best chain's highest header on a header's path. */
    method ForkOf(id: Id) returns (f: Id)
      requires Valid() && Known(a, headers, id)
      ensures f == Fork(a, headers, best, id)
    {
      hide ContextOk, Linked, AllLawful, Chained, SidesOk, Heaviest, OnBest;
      f := id;
      while !OnBest(a, best, HeaderOf(a, headers, f))
        invariant Known(a, headers, f) && Fork(a, headers, best, f) == Fork(a, headers, best, id)
        decreases HeaderOf(a, headers, f).height
      {
        RootOnBest(a, headers, best);
        f := ParentOf(a, headers, f);
      }
    }

    /** The difficulty required after a header: the context always reaches its ancestors. */
    method RequiredAfter(id: Id) returns (difficulty: Option<int>)
      requires Valid() && Known(a, headers, id)
      ensures difficulty == Some(Required(a, headers, id))
    {
      hide ContextOk, Linked, AllLawful, BestOk, SidesOk, Heaviest, AncestorOf, EpochHeaders, HeaderOf;
      var parent := HeaderOf(a, headers, id);
      if Flat(a, parent) {
        return Some(32);
      }
      if parent.height % DIFFICULTY_EPOCH != 0 {
        return Some(parent.claimed);
      }
      var list: seq<Header> := [];
      for i := 0 to USE_LAST_EPOCHS + 1
        invariant |list| == i && forall j :: 0 <= j < i ==> list[j] == EpochHeaders(a, headers, id)[j]
      {
        EpochAncestor(a, headers, id, i);
        var ancestor := AncestorAt(id, parent.height - (USE_LAST_EPOCHS - i) * DIFFICULTY_EPOCH);
        list := list + [ancestor.value];
      }
      assert list == EpochHeaders(a, headers, id);
      return Some(a.rules.retarget(list));
    }

    /** Why a header is refused, if it is. */
    ghost predicate Refuses(h: Option<Header>, why: Refusal)
      requires Valid()
      reads this
    {
      match why
      case MALFORMED => h.None?
      case KNOWN => h.Some? && (h.value.id in headers || InContext(a, h.value.id))
      case UNKNOWN_PARENT => New(h) && h.value.parentId !in headers && !InContext(a, h.value.parentId)
      case BELOW_ANCHOR => New(h) && h.value.parentId !in headers && InContext(a, h.value.parentId) && h.value.parentId != Root(a).id
      case HEIGHT => Placed(h) && h.value.height != HeaderOf(a, headers, h.value.parentId).height + 1
      case TIMESTAMP => Above(h) && h.value.timestamp <= HeaderOf(a, headers, h.value.parentId).timestamp
      case DIFFICULTY => Follows(h) && !Difficult(h.value)
      case POW => Follows(h) && Difficult(h.value) && !a.rules.work(h.value)
    }

    ghost predicate New(h: Option<Header>)
      reads this
    {
      h.Some? && h.value.id !in headers && !InContext(a, h.value.id)
    }

    ghost predicate Placed(h: Option<Header>)
      requires Valid()
      reads this
    {
      New(h) && Known(a, headers, h.value.parentId)
    }

    ghost predicate Above(h: Option<Header>)
      requires Valid()
      reads this
    {
      Placed(h) && h.value.height == HeaderOf(a, headers, h.value.parentId).height + 1
    }

    ghost predicate Difficult(h: Header)
      requires Valid() && Known(a, headers, h.parentId)
      reads this
    {
      0 < Required(a, headers, h.parentId) <= a.rules.most && h.claimed == Required(a, headers, h.parentId)
    }

    ghost predicate Follows(h: Option<Header>)
      requires Valid()
      reads this
    {
      Above(h) && h.value.timestamp > HeaderOf(a, headers, h.value.parentId).timestamp
    }

    /** Accept one header, or refuse it and change nothing. The best chain moves only to strictly more
        score, and then to the new header. */
    method Add(h: Option<Header>) returns (r: AddResult)
      requires Valid()
      modifies this
      ensures Valid()
      ensures old(runs) <= runs && |runs| <= |old(runs)| + 1
      ensures r.Refused? ==> old(Refuses(h, r.refusal)) && headers == old(headers) && best == old(best) && side == old(side)
      ensures r.Added? ==> old(Follows(h)) && h.value.id in headers && headers == old(headers)[h.value.id := headers[h.value.id]]
      ensures r.Added? ==> headers[h.value.id].header == h.value && Lawful(a, headers, h.value.id)
      ensures r.Added? ==> if headers[h.value.id].score > old(ScoreOf(headers, Tip())) then Tip() == h.value.id else best == old(best)
    {
      hide ContextOk, Linked, AllLawful, Chained, SidesOk, Heaviest, Required, InContext, LinkedAt, Lawful;
      if h.None? {
        return Refused(MALFORMED);
      }
      var header := h.value;
      if header.id in headers || InContext(a, header.id) {
        return Refused(KNOWN);
      }
      if header.parentId !in headers && !InContext(a, header.parentId) {
        return Refused(UNKNOWN_PARENT);
      }
      if header.parentId !in headers && header.parentId != Root(a).id {
        return Refused(BELOW_ANCHOR);
      }
      var parent := HeaderOf(a, headers, header.parentId);
      if header.height != parent.height + 1 {
        return Refused(HEIGHT);
      }
      if header.timestamp <= parent.timestamp {
        return Refused(TIMESTAMP);
      }
      var difficulty := RequiredAfter(header.parentId);
      if difficulty.value <= 0 || difficulty.value > a.rules.most || header.claimed != difficulty.value {
        return Refused(DIFFICULTY);
      }
      if !a.rules.work(header) {
        return Refused(POW);
      }
      var row := Row(header, ScoreOf(headers, header.parentId) + difficulty.value);
      ghost var hs := headers;
      LinkedAdds(a, headers, row);
      LawfulAdds(a, headers, row);
      ChainedAdds(headers, Root(a).id, AnchorHeight(a), best, row);
      var was := ScoreOf(headers, Tip());
      NewIsOff(a, headers, best, side, row);
      headers := headers[header.id := row];
      IsLawful(a, headers, header.id);
      if row.score > was {
        var run := Promote(header.id);
        RunsMore(AnchorHeight(a) + 1, old(runs), old(best), run);
        runs := runs + [run];
        HeaviestPromoted(a, hs, old(best), row, best);
      } else {
        side := side + {header.id};
        SideAdded(a, hs, best, old(side), row);
        RootInContext(a);
        HeaviestKept(a, hs, best, row);
      }
      return Added;
    }

    /** Make an accepted header the best chain's tip: its path above where it meets the old chain
        replaces the old top, whose headers go off it. `run` is what is set in the rows. */
    method Promote(tip: Id) returns (run: Run)
      requires ContextOk(a) && Linked(a, headers) && BestOk(a, headers, best) && tip in headers && !OnBest(a, best, headers[tip].header)
      requires forall id :: id in side <==> id in headers && id != tip && !OnBest(a, best, headers[id].header)
      modifies this`best, this`side
      ensures BestOk(a, headers, best) && SidesOk(a, headers, best, side) && Tip() == tip && best != []
      ensures Fits(AnchorHeight(a) + 1, old(best), run) && best == SetOn(AnchorHeight(a) + 1, old(best), run)
    {
      hide ContextOk, Linked, Chained, SidesOk, OnBest;
      var at, path: seq<Id> := tip, [];
      NothingChained(headers, tip, headers[tip].header.height);
      while !OnBest(a, best, HeaderOf(a, headers, at))
        invariant Known(a, headers, at) && Chained(headers, at, HeaderOf(a, headers, at).height, path)
        invariant if path == [] then at == tip else path[|path| - 1] == tip
        invariant best == old(best) && side == old(side)
        decreases HeaderOf(a, headers, at).height
      {
        RootOnBest(a, headers, best);
        ChainedGrows(headers, ParentOf(a, headers, at), at, HeaderOf(a, headers, at).height - 1, path);
        path := [at] + path;
        at := ParentOf(a, headers, at);
      }
      assert tip in path;
      var n := HeaderOf(a, headers, at).height - AnchorHeight(a);
      BestReaches(a, headers, best, at);
      ChainedJoins(headers, Root(a).id, AnchorHeight(a), best, n, path);
      SidesPromoted(a, headers, best, side, n, path, tip);
      side := side + (set id | id in best[n..]) - (set id | id in path);
      best := best[..n] + path;
      run := Run(HeaderOf(a, headers, at).height + 1, path);
    }

    /** The headers on protected paths off the best chain. */
    method KeepProtected(ids: seq<Id>) returns (keep: Option<set<Id>>)
      requires Valid()
      ensures keep.Some? <==> forall p :: p in ids ==> p in headers || InContext(a, p)
      ensures keep.Some? ==> keep.value == Protected(a, headers, best, ids)
    {
      hide ContextOk, Linked, AllLawful, Chained, SidesOk, Heaviest, OnBest, InContext, OffPath;
      var kept: set<Id> := {};
      for i := 0 to |ids|
        invariant kept == Protected(a, headers, best, ids[..i]) && forall p :: p in ids[..i] ==> p in headers || InContext(a, p)
      {
        assert ids[..i + 1] == ids[..i] + [ids[i]] && ids[..i + 1][..i] == ids[..i];
        var p := ids[i];
        if p !in headers && !InContext(a, p) {
          return None;
        }
        if p in headers {
          kept := KeepPath(p, kept, ids[..i]);
        }
      }
      assert ids[..|ids|] == ids;
      return Some(kept);
    }

    method KeepPath(p: Id, kept: set<Id>, ghost before: seq<Id>) returns (keep: set<Id>)
      requires Valid() && p in headers && kept == Protected(a, headers, best, before)
      ensures keep == kept + OffPath(a, headers, best, p)
    {
      hide ContextOk, Linked, AllLawful, Chained, SidesOk, Heaviest, OnBest, Protected, OffPath, Closed;
      ProtectedClosed(a, headers, best, before);
      var at := p;
      keep := kept;
      while !OnBest(a, best, HeaderOf(a, headers, at)) && at !in keep
        invariant Known(a, headers, at) && kept <= keep
        invariant forall x :: x in keep ==> x in kept || (x in headers && headers[x].header.height > HeaderOf(a, headers, at).height)
        invariant keep + OffPath(a, headers, best, at) == kept + OffPath(a, headers, best, p)
        decreases HeaderOf(a, headers, at).height
      {
        RootOnBest(a, headers, best);
        PathStep(a, headers, best, at, keep);
        keep := keep + {at};
        at := ParentOf(a, headers, at);
      }
      PathEnds(a, headers, best, at, kept);
    }

    /** Where a header meets the best chain, each header's height walked once. */
    method Meeting(id: Id, meets: map<Id, nat>) returns (height: nat, met: map<Id, nat>)
      requires Valid() && Known(a, headers, id) && forall k :: k in meets ==> k in headers && meets[k] == ForkHeight(a, headers, best, k)
      ensures height == ForkHeight(a, headers, best, id)
      ensures forall k :: k in met ==> k in headers && met[k] == ForkHeight(a, headers, best, k)
    {
      hide ContextOk, Linked, AllLawful, Chained, SidesOk, Heaviest, OnBest;
      var walk, walked: set<Id> := id, {};
      while !OnBest(a, best, HeaderOf(a, headers, walk)) && walk !in meets
        invariant Known(a, headers, walk) && ForkHeight(a, headers, best, walk) == ForkHeight(a, headers, best, id)
        invariant forall k :: k in walked ==> k in headers && ForkHeight(a, headers, best, k) == ForkHeight(a, headers, best, id)
        decreases HeaderOf(a, headers, walk).height
      {
        RootOnBest(a, headers, best);
        walked := walked + {walk};
        walk := ParentOf(a, headers, walk);
      }
      height := if walk in meets && !OnBest(a, best, HeaderOf(a, headers, walk)) then meets[walk] else HeaderOf(a, headers, walk).height;
      met := meets + map k | k in walked :: height;
    }

    /** Drop every side header that neither lies on a protected path nor descends from the final
        header; refused where that is not on the best chain or a protected id is unknown. */
    method Prune(witnessed: Id, ids: seq<Id>) returns (ok: bool)
      requires Valid()
      modifies this`headers, this`side
      ensures Valid()
      ensures ok <==> witnessed in old(headers) && OnBest(a, best, old(headers)[witnessed].header) && forall p :: p in ids ==> p in old(headers) || InContext(a, p)
      ensures !ok ==> headers == old(headers) && side == old(side)
      ensures ok ==> forall id :: id in headers <==>
        id in old(headers) && (OnBest(a, best, old(headers)[id].header) || old(Stays(a, headers, best, headers[witnessed].header.height, ids, id)))
      ensures forall id :: id in headers ==> headers[id] == old(headers)[id]
    {
      hide ContextOk, Linked, AllLawful, Chained, Heaviest, OnBest, InContext, Protected, ForkHeight;
      if witnessed !in headers || !OnBest(a, best, headers[witnessed].header) {
        return false;
      }
      var final := headers[witnessed].header.height;
      var keep := KeepProtected(ids);
      if keep.None? {
        return false;
      }
      var doomed: set<Id>, rest, meets: map<Id, nat> := {}, side, map[];
      while rest != {}
        invariant rest <= side && headers == old(headers) && side == old(side)
        invariant forall id :: id in doomed <==> id in side - rest && !Stays(a, headers, best, final, ids, id)
        invariant forall k :: k in meets ==> k in headers && meets[k] == ForkHeight(a, headers, best, k)
        decreases |rest|
      {
        var id :| id in rest;
        if id !in keep.value {
          var height;
          height, meets := Meeting(id, meets);
          if height < final {
            doomed := doomed + {id};
          }
        }
        rest := rest - {id};
      }
      PrunedKeeps(a, headers, best, side, final, ids, doomed);
      headers := headers - doomed;
      side := side - doomed;
      return true;
    }

    /** One header's check: its parent, height, timestamp, difficulty, score and work. */
    method Sound(id: Id, work: bool) returns (ok: bool)
      requires Valid() && id in headers
      ensures ok
    {
      hide ContextOk, Linked, Chained, SidesOk, Heaviest, Required, OnBest;
      assert Lawful(a, headers, id);
      var row, parent := headers[id], HeaderOf(a, headers, ParentOf(a, headers, id));
      var difficulty := RequiredAfter(ParentOf(a, headers, id));
      ok := row.header.height == parent.height + 1 && row.header.timestamp > parent.timestamp
        && difficulty.Some? && row.header.claimed == difficulty.value && row.score == ScoreOf(headers, ParentOf(a, headers, id)) + difficulty.value
        && (work ==> a.rules.work(row.header));
    }

    /** `audit`: the best chain linked from the anchor to its tip, every side header off it and not
        above it in score, and every header as its acceptance required. It always passes. */
    method Audit(work: bool) returns (ok: bool, checked: nat)
      requires Valid()
      ensures ok && checked == |best| + |side|
    {
      hide ContextOk, Linked, AllLawful, Chained, OnBest;
      ok, checked := true, 0;
      ChainedHeights(headers, Root(a).id, AnchorHeight(a), best);
      for i := 0 to |best|
        invariant ok && checked == i
      {
        BestHeader(a, headers, best, AnchorHeight(a) + 1 + i);
        var sound := Sound(best[i], work);
        ok := ok && headers[best[i]].header.parentId == (if i == 0 then Root(a).id else best[i - 1]) && sound;
        checked := checked + 1;
      }
      var rest := side;
      while rest != {}
        invariant rest <= side && ok && checked + |rest| == |best| + |side|
        decreases |rest|
      {
        var id :| id in rest;
        var sound := Sound(id, work);
        ok := ok && !OnBest(a, best, headers[id].header) && headers[id].score <= ScoreOf(headers, Tip()) && sound;
        rest, checked := rest - {id}, checked + 1;
      }
    }
  }

  lemma RootOnBest(a: Anchor, hs: Headers, best: seq<Id>)
    requires ContextOk(a) && Linked(a, hs)
    ensures OnBest(a, best, HeaderOf(a, hs, Root(a).id))
  {
    hide ContextOk, Linked;
    RootIsNot(a, hs);
  }

  lemma RootInContext(a: Anchor)
    requires ContextOk(a)
    ensures InContext(a, Root(a).id)
  {
  }

  /** The epoch headers are the ancestors an epoch apart. */
  lemma EpochAncestor(a: Anchor, hs: Headers, id: Id, i: nat)
    requires ContextOk(a) && Linked(a, hs) && Known(a, hs, id) && i <= USE_LAST_EPOCHS
    ensures var height := HeaderOf(a, hs, id).height - (USE_LAST_EPOCHS - i) * DIFFICULTY_EPOCH;
      Lowest(a) <= height <= HeaderOf(a, hs, id).height && EpochHeaders(a, hs, id)[i] == AncestorOf(a, hs, id, height)
  {
    hide ContextOk, Linked, AncestorOf;
    AnchorDeep(a);
  }

  lemma NothingChained(hs: Headers, base: Id, height: nat)
    ensures Chained(hs, base, height, [])
  {
  }

  lemma IsLawful(a: Anchor, hs: Headers, id: Id)
    requires ContextOk(a) && Linked(a, hs) && AllLawful(a, hs) && id in hs
    ensures Lawful(a, hs, id)
  {
  }

  /** Where a header stands on the best chain, the chain is cut. */
  lemma BestReaches(a: Anchor, hs: Headers, best: seq<Id>, at: Id)
    requires ContextOk(a) && Linked(a, hs) && BestOk(a, hs, best) && Known(a, hs, at) && OnBest(a, best, HeaderOf(a, hs, at))
    ensures var n := HeaderOf(a, hs, at).height - AnchorHeight(a); 0 <= n <= |best| && at == if n == 0 then Root(a).id else best[n - 1]
  {
    hide ContextOk, Linked, Chained;
  }

  lemma NewIsOff(a: Anchor, hs: Headers, best: seq<Id>, side: set<Id>, row: Row)
    requires ContextOk(a) && Linked(a, hs) && BestOk(a, hs, best) && SidesOk(a, hs, best, side) && row.header.id !in hs
    requires row.header.height > AnchorHeight(a)
    ensures !OnBest(a, best, row.header)
    ensures var all := hs[row.header.id := row]; forall id :: id in side <==> id in all && id != row.header.id && !OnBest(a, best, all[id].header)
  {
    hide ContextOk, Linked, Chained;
    ChainedHeights(hs, Root(a).id, AnchorHeight(a), best);
  }

  lemma SideAdded(a: Anchor, hs: Headers, best: seq<Id>, side: set<Id>, row: Row)
    requires ContextOk(a) && SidesOk(a, hs, best, side) && row.header.id !in hs && !OnBest(a, best, row.header)
    ensures SidesOk(a, hs[row.header.id := row], best, side + {row.header.id})
  {
    hide ContextOk, OnBest;
  }

  lemma TipKnown(a: Anchor, hs: Headers, best: seq<Id>)
    requires ContextOk(a) && BestOk(a, hs, best)
    ensures best != [] ==> TipId(a, best) in hs
  {
    hide ContextOk, Chained;
    ChainedHeights(hs, Root(a).id, AnchorHeight(a), best);
  }

  lemma HeaviestKept(a: Anchor, hs: Headers, best: seq<Id>, row: Row)
    requires ContextOk(a) && Linked(a, hs) && BestOk(a, hs, best) && Heaviest(a, hs, best) && row.header.id !in hs
    requires row.score <= ScoreOf(hs, TipId(a, best)) && row.header.id != Root(a).id
    ensures Heaviest(a, hs[row.header.id := row], best)
  {
    hide ContextOk, Linked, Chained;
    TipKnown(a, hs, best);
  }

  lemma HeaviestPromoted(a: Anchor, hs: Headers, best: seq<Id>, row: Row, next: seq<Id>)
    requires ContextOk(a) && BestOk(a, hs, best) && Heaviest(a, hs, best) && row.header.id !in hs
    requires row.score > ScoreOf(hs, TipId(a, best)) && TipId(a, next) == row.header.id
    ensures Heaviest(a, hs[row.header.id := row], next)
  {
    hide ContextOk, Chained;
  }
}
