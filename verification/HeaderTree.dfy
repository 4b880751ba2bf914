/**
 The tree of accepted headers above an anchor: every header's parent is another or the anchor, its
 difficulty is what the rule requires after its parent, and its score is the sum on its path. The
 difficulty rule is any function of the epoch headers before, and the work any predicate.
 */
module HeaderTree {
  import opened Wrappers

  type Id = nat

  datatype Header = Header(id: Id, parentId: Id, height: nat, timestamp: nat, claimed: int)

  /** `retarget` is over nine headers an epoch apart, the parent last; `flat` a height, if any, around
      which the difficulty is fixed. */
  datatype Rules = Rules(retarget: seq<Header> -> int, work: Header -> bool, flat: Option<nat>, most: nat)

  /** The chain below and at the anchor, ascending, and the rules. */
  datatype Anchor = Anchor(context: seq<Header>, rules: Rules)

  /** An accepted header with its chain's score. */
  datatype Row = Row(header: Header, score: nat)

  type Headers = map<Id, Row>

  const ANCHOR_CONTEXT: nat := 1024
  const DIFFICULTY_EPOCH: nat := 128
  const USE_LAST_EPOCHS: nat := 8

  predicate ContextOk(a: Anchor) {
    && |a.context| >= ANCHOR_CONTEXT + 1
    && (forall i :: 0 <= i < |a.context| ==> a.context[i].height == a.context[0].height + i)
    && (forall i :: 0 < i < |a.context| ==> a.context[i].parentId == a.context[i - 1].id)
    && (forall i, j :: 0 <= i < j < |a.context| ==> a.context[i].id != a.context[j].id)
  }

  function Lowest(a: Anchor): nat
    requires ContextOk(a)
  {
    a.context[0].height
  }

  function Root(a: Anchor): Header
    requires ContextOk(a)
  {
    a.context[|a.context| - 1]
  }

  function AnchorHeight(a: Anchor): nat
    requires ContextOk(a)
  {
    Root(a).height
  }

  predicate InContext(a: Anchor, id: Id) {
    exists i :: 0 <= i < |a.context| && a.context[i].id == id
  }

  /** Every accepted header stands one above its parent, which is accepted or is the anchor. */
  ghost predicate Linked(a: Anchor, hs: Headers)
    requires ContextOk(a)
  {
    forall id :: id in hs ==> LinkedAt(a, hs, id)
  }

  ghost predicate LinkedAt(a: Anchor, hs: Headers, id: Id)
    requires ContextOk(a) && id in hs
  {
    var h := hs[id].header;
    && h.id == id && !InContext(a, id) && h.height > AnchorHeight(a)
    && if h.height == AnchorHeight(a) + 1 then h.parentId == Root(a).id
       else h.parentId in hs && hs[h.parentId].header.height == h.height - 1
  }

  /** The anchor or an accepted header. */
  predicate Known(a: Anchor, hs: Headers, id: Id)
    requires ContextOk(a)
  {
    id in hs || id == Root(a).id
  }

  function HeaderOf(a: Anchor, hs: Headers, id: Id): (h: Header)
    requires ContextOk(a) && Linked(a, hs) && Known(a, hs, id)
    ensures h.id == id && h.height >= AnchorHeight(a) && (id in hs <==> h.height > AnchorHeight(a))
  {
    if id in hs then assert LinkedAt(a, hs, id); hs[id].header else Root(a)
  }

  function ScoreOf(hs: Headers, id: Id): nat {
    if id in hs then hs[id].score else 0
  }

  function ParentOf(a: Anchor, hs: Headers, id: Id): (p: Id)
    requires ContextOk(a) && Linked(a, hs) && id in hs
    ensures Known(a, hs, p) && HeaderOf(a, hs, p).height == hs[id].header.height - 1
  {
    assert LinkedAt(a, hs, id);
    assert InContext(a, Root(a).id);
    hs[id].header.parentId
  }

  /** Following parent links from a header down to a height, through the anchor into the context. */
  ghost function AncestorOf(a: Anchor, hs: Headers, id: Id, height: nat): (h: Header)
    requires ContextOk(a) && Linked(a, hs) && Known(a, hs, id)
    requires Lowest(a) <= height <= HeaderOf(a, hs, id).height
    ensures h.height == height
    ensures height > AnchorHeight(a) ==> h.id in hs && hs[h.id].header == h
    decreases HeaderOf(a, hs, id).height
  {
    if id !in hs then a.context[height - Lowest(a)]
    else if hs[id].header.height == height then assert LinkedAt(a, hs, id); hs[id].header
    else AncestorOf(a, hs, ParentOf(a, hs, id), height)
  }

  lemma AncestorSelf(a: Anchor, hs: Headers, id: Id)
    requires ContextOk(a) && Linked(a, hs) && Known(a, hs, id)
    ensures Lowest(a) <= HeaderOf(a, hs, id).height && AncestorOf(a, hs, id, HeaderOf(a, hs, id).height) == HeaderOf(a, hs, id)
  {
    hide Linked;
  }

  /** A header's ancestors an epoch apart, itself last. */
  ghost function EpochHeaders(a: Anchor, hs: Headers, id: Id): (list: seq<Header>)
    requires ContextOk(a) && Linked(a, hs) && Known(a, hs, id)
    ensures |list| == USE_LAST_EPOCHS + 1
  {
    var height := HeaderOf(a, hs, id).height;
    seq(USE_LAST_EPOCHS + 1, i requires 0 <= i <= USE_LAST_EPOCHS => AncestorOf(a, hs, id, height - (USE_LAST_EPOCHS - i) * DIFFICULTY_EPOCH))
  }

  predicate Flat(a: Anchor, parent: Header) {
    a.rules.flat.Some? && (parent.height == a.rules.flat.value || parent.height + 1 == a.rules.flat.value)
  }

  /** The difficulty required after a header. */
  ghost function Required(a: Anchor, hs: Headers, id: Id): int
    requires ContextOk(a) && Linked(a, hs) && Known(a, hs, id)
  {
    var parent := HeaderOf(a, hs, id);
    if Flat(a, parent) then 32
    else if parent.height % DIFFICULTY_EPOCH != 0 then parent.claimed
    else a.rules.retarget(EpochHeaders(a, hs, id))
  }

  /** A header as its acceptance requires it. */
  ghost predicate Lawful(a: Anchor, hs: Headers, id: Id)
    requires ContextOk(a) && Linked(a, hs) && id in hs
  {
    var row, parent := hs[id], ParentOf(a, hs, id);
    var difficulty := Required(a, hs, parent);
    && row.header.timestamp > HeaderOf(a, hs, parent).timestamp
    && 0 < difficulty <= a.rules.most && row.header.claimed == difficulty
    && row.score == ScoreOf(hs, parent) + difficulty
    && a.rules.work(row.header)
  }

  ghost predicate AllLawful(a: Anchor, hs: Headers)
    requires ContextOk(a) && Linked(a, hs)
  {
    forall id :: id in hs ==> Lawful(a, hs, id)
  }

  // ----- The same headers in a larger tree

  /** A tree and one that keeps some of its headers with all their ancestors agree on those. */
  ghost predicate Within(hs: Headers, all: Headers) {
    forall id :: id in hs ==> id in all && all[id] == hs[id]
  }

  lemma {:induction false} SameAncestor(a: Anchor, hs: Headers, all: Headers, id: Id, height: nat)
    requires ContextOk(a) && Linked(a, hs) && Linked(a, all) && Within(hs, all) && Known(a, hs, id) && id !in all - hs.Keys
    requires Lowest(a) <= height <= HeaderOf(a, hs, id).height
    ensures Known(a, all, id) && HeaderOf(a, all, id) == HeaderOf(a, hs, id)
    ensures AncestorOf(a, all, id, height) == AncestorOf(a, hs, id, height)
    decreases HeaderOf(a, hs, id).height
  {
    if id in hs && hs[id].header.height != height {
      var p := ParentOf(a, hs, id);
      RootIsNot(a, all);
      SameAncestor(a, hs, all, p, height);
    }
  }

  lemma RootIsNot(a: Anchor, hs: Headers)
    requires ContextOk(a) && Linked(a, hs)
    ensures Root(a).id !in hs
  {
    assert InContext(a, Root(a).id);
    assert Root(a).id in hs ==> LinkedAt(a, hs, Root(a).id);
  }

  lemma AnchorDeep(a: Anchor)
    requires ContextOk(a)
    ensures AnchorHeight(a) == Lowest(a) + |a.context| - 1 >= Lowest(a) + ANCHOR_CONTEXT
  {
  }

  lemma SameHeader(a: Anchor, hs: Headers, all: Headers, id: Id)
    requires ContextOk(a) && Linked(a, hs) && Linked(a, all) && Within(hs, all) && Known(a, hs, id)
    ensures Known(a, all, id) && HeaderOf(a, all, id) == HeaderOf(a, hs, id) && id !in all - hs.Keys
  {
    hide Linked, ContextOk;
    RootIsNot(a, all);
  }

  lemma SameRequired(a: Anchor, hs: Headers, all: Headers, id: Id)
    requires ContextOk(a) && Linked(a, hs) && Linked(a, all) && Within(hs, all) && Known(a, hs, id)
    ensures Known(a, all, id) && HeaderOf(a, all, id) == HeaderOf(a, hs, id) && Required(a, all, id) == Required(a, hs, id)
  {
    hide Flat, Linked, AncestorOf, ContextOk, Within;
    RootIsNot(a, all);
    SameHeader(a, hs, all, id);
    AnchorDeep(a);
    var height := HeaderOf(a, hs, id).height;
    SameAncestor(a, hs, all, id, height);
    forall i | 0 <= i <= USE_LAST_EPOCHS
      ensures EpochHeaders(a, all, id)[i] == EpochHeaders(a, hs, id)[i]
    {
      SameAncestor(a, hs, all, id, height - (USE_LAST_EPOCHS - i) * DIFFICULTY_EPOCH);
    }
    assert EpochHeaders(a, all, id) == EpochHeaders(a, hs, id);
  }

  lemma SameLawful(a: Anchor, hs: Headers, all: Headers, id: Id)
    requires ContextOk(a) && Linked(a, hs) && Linked(a, all) && Within(hs, all) && id in hs
    ensures Lawful(a, hs, id) <==> Lawful(a, all, id)
  {
    hide Required;
    var p := ParentOf(a, hs, id);
    assert LinkedAt(a, all, id);
    RootIsNot(a, all);
    SameRequired(a, hs, all, p);
  }

  // ----- The best chain

  function Prior(base: Id, list: seq<Id>, i: nat): Id
    requires i < |list|
  {
    if i == 0 then base else list[i - 1]
  }

  /** A link of a run above `base`: at its height, and over the one before. */
  ghost predicate LinkOf(hs: Headers, base: Id, height: nat, list: seq<Id>, i: nat)
    requires i < |list|
  {
    list[i] in hs && hs[list[i]].header.height == height + 1 + i && hs[list[i]].header.parentId == Prior(base, list, i)
  }

  /** Headers linked one above another, from the child of `base`, which stands at `height`. */
  ghost predicate Chained(hs: Headers, base: Id, height: nat, list: seq<Id>) {
    forall i :: 0 <= i < |list| ==> LinkOf(hs, base, height, list, i)
  }

  /** The list kept by height: a branch that begins above the anchor. */
  ghost predicate BestOk(a: Anchor, hs: Headers, best: seq<Id>)
    requires ContextOk(a)
  {
    Chained(hs, Root(a).id, AnchorHeight(a), best)
  }

  /** Whether a header is the best chain's at its height; the anchor and what is below it are. */
  predicate OnBest(a: Anchor, best: seq<Id>, h: Header)
    requires ContextOk(a)
  {
    h.height <= AnchorHeight(a) || (h.height - AnchorHeight(a) - 1 < |best| && best[h.height - AnchorHeight(a) - 1] == h.id)
  }

  function TipId(a: Anchor, best: seq<Id>): Id
    requires ContextOk(a)
  {
    if best == [] then Root(a).id else best[|best| - 1]
  }

  /** The id at a height: the anchor's own, or one listed. */
  function BestId(a: Anchor, best: seq<Id>, height: nat): Id
    requires ContextOk(a) && AnchorHeight(a) <= height <= AnchorHeight(a) + |best|
  {
    if height == AnchorHeight(a) then Root(a).id else best[height - AnchorHeight(a) - 1]
  }

  lemma BestHeader(a: Anchor, hs: Headers, best: seq<Id>, height: nat)
    requires ContextOk(a) && Linked(a, hs) && BestOk(a, hs, best) && AnchorHeight(a) <= height <= AnchorHeight(a) + |best|
    ensures Known(a, hs, BestId(a, best, height)) && HeaderOf(a, hs, BestId(a, best, height)).height == height
    ensures OnBest(a, best, HeaderOf(a, hs, BestId(a, best, height)))
    ensures height > AnchorHeight(a) ==> BestId(a, best, height) in hs && ParentOf(a, hs, BestId(a, best, height)) == BestId(a, best, height - 1)
  {
    hide ContextOk, Linked;
    RootIsNot(a, hs);
    var id := BestId(a, best, height);
    if height > AnchorHeight(a) {
      var i := height - AnchorHeight(a) - 1;
      assert LinkOf(hs, Root(a).id, AnchorHeight(a), best, i);
    }
  }

  /** The header there, or in the context where the height is below the anchor. */
  function BestAt(a: Anchor, hs: Headers, best: seq<Id>, height: nat): Header
    requires ContextOk(a) && BestOk(a, hs, best) && Lowest(a) <= height <= AnchorHeight(a) + |best|
  {
    if height <= AnchorHeight(a) then a.context[height - Lowest(a)]
    else
      var i := height - AnchorHeight(a) - 1;
      assert LinkOf(hs, Root(a).id, AnchorHeight(a), best, i);
      hs[best[i]].header
  }

  /** From a header on the best chain, following parents stays on it. */
  lemma {:induction false} BestAncestor(a: Anchor, hs: Headers, best: seq<Id>, id: Id, height: nat)
    requires ContextOk(a) && Linked(a, hs) && BestOk(a, hs, best) && Known(a, hs, id) && OnBest(a, best, HeaderOf(a, hs, id))
    requires Lowest(a) <= height <= HeaderOf(a, hs, id).height
    ensures height <= AnchorHeight(a) + |best| && AncestorOf(a, hs, id, height) == BestAt(a, hs, best, height)
    decreases HeaderOf(a, hs, id).height
  {
    hide ContextOk, Linked, Chained;
    var at := HeaderOf(a, hs, id).height;
    if id in hs {
      assert BestId(a, best, at) == id;
      if height < at {
        BestParent(a, hs, best, at);
        BestAncestor(a, hs, best, ParentOf(a, hs, id), height);
      }
    }
  }

  lemma BestParent(a: Anchor, hs: Headers, best: seq<Id>, at: nat)
    requires ContextOk(a) && Linked(a, hs) && BestOk(a, hs, best) && AnchorHeight(a) < at <= AnchorHeight(a) + |best|
    ensures var id := best[at - AnchorHeight(a) - 1]; id in hs && OnBest(a, best, HeaderOf(a, hs, ParentOf(a, hs, id)))
  {
    hide ContextOk, Linked, Chained;
    BestHeader(a, hs, best, at);
    BestHeader(a, hs, best, at - 1);
  }

  /** Where a header's path meets the best chain. */
  ghost function Fork(a: Anchor, hs: Headers, best: seq<Id>, id: Id): (f: Id)
    requires ContextOk(a) && Linked(a, hs) && Known(a, hs, id)
    ensures Known(a, hs, f) && OnBest(a, best, HeaderOf(a, hs, f)) && HeaderOf(a, hs, f).height <= HeaderOf(a, hs, id).height
    decreases HeaderOf(a, hs, id).height
  {
    if OnBest(a, best, HeaderOf(a, hs, id)) then id else Fork(a, hs, best, ParentOf(a, hs, id))
  }

  /** Whether `x` lies on the path from `id` down, `id` included. */
  ghost predicate OnPath(a: Anchor, hs: Headers, id: Id, x: Id)
    requires ContextOk(a) && Linked(a, hs) && Known(a, hs, id)
    decreases HeaderOf(a, hs, id).height
  {
    x == id || (id in hs && OnPath(a, hs, ParentOf(a, hs, id), x))
  }

  lemma {:induction false} OnPathIsAncestor(a: Anchor, hs: Headers, id: Id, x: Id)
    requires ContextOk(a) && Linked(a, hs) && Known(a, hs, id) && Known(a, hs, x)
    ensures OnPath(a, hs, id, x) <==> HeaderOf(a, hs, x).height <= HeaderOf(a, hs, id).height && AncestorOf(a, hs, id, HeaderOf(a, hs, x).height).id == x
    decreases HeaderOf(a, hs, id).height
  {
    RootIsNot(a, hs);
    if id in hs && x != id {
      OnPathIsAncestor(a, hs, ParentOf(a, hs, id), x);
    }
  }

  /** The fork is the highest header of the best chain on a header's path. */
  lemma {:induction false} ForkIsHighest(a: Anchor, hs: Headers, best: seq<Id>, id: Id, x: Id)
    requires ContextOk(a) && Linked(a, hs) && Known(a, hs, id) && Known(a, hs, x)
    ensures OnPath(a, hs, id, Fork(a, hs, best, id))
    ensures OnPath(a, hs, id, x) && OnBest(a, best, HeaderOf(a, hs, x)) ==> HeaderOf(a, hs, x).height <= HeaderOf(a, hs, Fork(a, hs, best, id)).height
    decreases HeaderOf(a, hs, id).height
  {
    OnPathIsAncestor(a, hs, id, x);
    if !OnBest(a, best, HeaderOf(a, hs, id)) {
      ForkIsHighest(a, hs, best, ParentOf(a, hs, id), x);
    }
  }

  // ----- Runs

  /** Ids that become the best chain from a height up. */
  datatype Run = Run(from: nat, ids: seq<Id>)

  /** A run of at least one id that leaves no gap in a chain from height `first`, and is not from below it. */
  predicate Fits(first: nat, best: seq<Id>, run: Run) {
    run.ids != [] && first <= run.from <= first + |best|
  }

  function SetOn(first: nat, best: seq<Id>, run: Run): seq<Id>
    requires Fits(first, best, run)
  {
    best[..run.from - first] + run.ids
  }

  /** Runs that each fit the chain the ones before made. */
  predicate AllFit(first: nat, best: seq<Id>, runs: seq<Run>)
    decreases |runs|
  {
    runs == [] || (Fits(first, best, runs[0]) && AllFit(first, SetOn(first, best, runs[0]), runs[1..]))
  }

  /** The chain they make. */
  function BestOf(first: nat, best: seq<Id>, runs: seq<Run>): seq<Id>
    requires AllFit(first, best, runs)
    decreases |runs|
  {
    if runs == [] then best else BestOf(first, SetOn(first, best, runs[0]), runs[1..])
  }

  /** The runs set so far, from no chain at all to this one. */
  predicate RunsOk(first: nat, runs: seq<Run>, best: seq<Id>) {
    AllFit(first, [], runs) && BestOf(first, [], runs) == best && (runs == [] <==> best == [])
  }

  lemma {:induction false} FitsMore(first: nat, best: seq<Id>, runs: seq<Run>, run: Run)
    requires AllFit(first, best, runs) && Fits(first, BestOf(first, best, runs), run)
    ensures AllFit(first, best, runs + [run])
    ensures BestOf(first, best, runs + [run]) == SetOn(first, BestOf(first, best, runs), run)
    decreases |runs|
  {
    if runs == [] {
      assert runs + [run] == [run] && [run][1..] == [];
    } else {
      assert (runs + [run])[1..] == runs[1..] + [run];
      FitsMore(first, SetOn(first, best, runs[0]), runs[1..], run);
    }
  }

  lemma RunsMore(first: nat, runs: seq<Run>, best: seq<Id>, run: Run)
    requires RunsOk(first, runs, best) && Fits(first, best, run)
    ensures RunsOk(first, runs + [run], SetOn(first, best, run))
  {
    FitsMore(first, [], runs, run);
  }
}
