/**
 The server of a subject map. It keeps the map twice: what it answers comes from the copy that ends with
 its latest fold, and the other copy runs ahead of it over the blocks whose proof is still to come. A
 proof may fail, and a fold made elsewhere may be taken over. Unbroken, it answers what a reader takes.

 The queue runs `extend` and `adopt` one after another, each in the segments between its awaits;
 the other calls may run between any two segments.
 */
module ExhaustionServer {
  import opened Wrappers
  import opened ErgoScan
  import opened MerkleTree
  import opened SubjectIndex
  import opened SubjectMapStore
  import opened SubjectReading
  import opened SubjectRead
  import opened Disagreement
  import opened MapBinding

  datatype ServedBlock = ServedBlock(id: Bytes, transactionsRoot: Bytes, section: seq<SectionTransaction>)

  datatype FoldInputs = FoldInputs(startId: Bytes, startHeight: nat, endId: Bytes, endHeight: nat, mapRoot: Field, foldKeyHash: Field)

  datatype Fold = Fold(first: bool, inputs: FoldInputs, proof: Bytes)

  datatype Broken = DISAGREEMENT | BLOCKS

  datatype ServerError = FOLD | PENDING | Unusable(why: Broken) | Encoding

  datatype Pending = Pending(inputs: FoldInputs, blocks: seq<ServedBlock>, previous: Option<Fold>)

  datatype KeyAnswer = KeyAnswer(path: MapPath, entries: seq<MapEntry>)

  predicate BlockWellFormed(block: ServedBlock) {
    |block.id| == 32 && |block.transactionsRoot| == 32
  }

  function SectionsOf(blocks: seq<ServedBlock>): (all: seq<seq<Bytes>>)
    ensures |all| == |blocks|
  {
    seq(|blocks|, i requires 0 <= i < |blocks| => UnsignedOf(blocks[i].section))
  }

  lemma SectionsJoin(a: seq<ServedBlock>, b: seq<ServedBlock>)
    ensures SectionsOf(a + b) == SectionsOf(a) + SectionsOf(b)
  {
  }

  /** A map stands at the end of `blocks`: its history is theirs, and so is its end. */
  ghost predicate StandsAt(m: SubjectMap, startId: Bytes, startHeight: nat, blocks: seq<ServedBlock>)
    reads m
  {
    && m.Valid()
    && m.history == HistoryOf(startHeight, SectionsOf(blocks))
    && m.height == startHeight + |blocks|
    && m.id == EndOf(startId, blocks)
  }

  function EndOf(startId: Bytes, blocks: seq<ServedBlock>): Bytes {
    if blocks == [] then startId else blocks[|blocks| - 1].id
  }

  lemma StandsFurther(startHeight: nat, blocks: seq<ServedBlock>, block: ServedBlock)
    ensures HistoryOf(startHeight, SectionsOf(blocks + [block]))
         == HistoryOf(startHeight, SectionsOf(blocks)) + BlockEntries(UnsignedOf(block.section), startHeight + |blocks| + 1)
  {
    hide BlockEntries;
    SectionsJoin(blocks, [block]);
    var all := SectionsOf(blocks + [block]);
    assert all[..|all| - 1] == SectionsOf(blocks);
  }

  /** A map at the end of `blocks` brought to the next block. */
  method Advance(m: SubjectMap, ghost startId: Bytes, ghost startHeight: nat, ghost blocks: seq<ServedBlock>, block: ServedBlock)
    requires StandsAt(m, startId, startHeight, blocks) && |block.id| == 32 && startHeight + |blocks| + 1 < U32
    modifies m
    ensures StandsAt(m, startId, startHeight, blocks + [block])
  {
    hide BlockEntries, UpdatesOver, HistoryOf, SubjectMap.Valid;
    StandsFurther(startHeight, blocks, block);
    var updates := m.AppendBlock(block.id, UnsignedOf(block.section));
  }

  /** The blocks kept, by height. */
  ghost predicate Keeps(kept: map<nat, ServedBlock>, startHeight: nat, chain: seq<ServedBlock>) {
    && (forall height: nat :: height in kept <==> startHeight < height <= startHeight + |chain|)
    && (forall height: nat :: height in kept ==> kept[height] == chain[height - startHeight - 1])
  }

  lemma KeepsMore(kept: map<nat, ServedBlock>, startHeight: nat, chain: seq<ServedBlock>, block: ServedBlock)
    requires Keeps(kept, startHeight, chain)
    ensures Keeps(kept[startHeight + |chain| + 1 := block], startHeight, chain + [block])
  {
  }

  /** Fold inputs that say where a run of blocks ends and what map it ends with. */
  ghost predicate EndsAt(inputs: FoldInputs, h: Sponge, startId: Bytes, startHeight: nat, foldKeyHash: Field, end: seq<ServedBlock>) {
    && end != []
    && inputs == FoldInputs(startId, startHeight, EndOf(startId, end), startHeight + |end|, MapRoot(h, HistoryOf(startHeight, SectionsOf(end))), foldKeyHash)
  }

  lemma EndRead(inputs: FoldInputs, m: SubjectMap, startId: Bytes, startHeight: nat, foldKeyHash: Field, end: seq<ServedBlock>)
    requires StandsAt(m, startId, startHeight, end) && end != []
    requires m.Valid() ==> inputs == FoldInputs(startId, startHeight, m.id, m.height, MapRoot(m.h, m.history), foldKeyHash)
    ensures EndsAt(inputs, m.h, startId, startHeight, foldKeyHash, end)
  {
    hide HistoryOf, MapRoot;
  }

  class ExhaustionServer {
    const startId: Bytes
    const startHeight: nat
    const foldKeyHash: Field
    const blake: Hash
    /** The copy that runs ahead. */
    const ahead: SubjectMap
    /** The copy that answers. */
    const served: SubjectMap
    var blocks: map<nat, ServedBlock>
    var fold: Option<Fold>
    var broken: Option<Broken>
    var pending: Option<Pending>
    /** Every block appended to the map ahead, in order, how many of them the latest fold has, and every
        block appended to the served map. */
    ghost var chain: seq<ServedBlock>
    ghost var folded: nat
    ghost var told: seq<ServedBlock>
    /** How many blocks either map had when their roots were last compared with a fold's. */
    ghost var adopted: nat

    ghost predicate Valid()
      reads this, ahead, served
    {
      && AheadHolds()
      && (broken.None? ==> FoldHolds())
    }

    ghost predicate AheadHolds()
      reads this, ahead
    {
      && ahead != served && ahead.h == served.h && folded <= |chain|
      && (forall i :: 0 <= i < |chain| ==> BlockWellFormed(chain[i])) && startHeight + |chain| < U32
      && StandsAt(ahead, startId, startHeight, chain)
      && Keeps(blocks, startHeight, chain)
    }

    ghost predicate Ends(inputs: FoldInputs, end: seq<ServedBlock>) {
      EndsAt(inputs, ahead.h, startId, startHeight, foldKeyHash, end)
    }

    /** Unbroken, the served map has as many blocks as the fold, which the map ahead reproduces there, and
        only a pending period parts the two. */
    ghost predicate FoldHolds()
      requires folded <= |chain|
      reads this, served
    {
      && StandsAt(served, startId, startHeight, told)
      && |told| == folded >= adopted && Alike(ahead.h, startId, startHeight, told, chain[..folded], adopted)
      && (pending.None? ==> folded == |chain|)
      && (pending.Some? ==> pending.value.blocks == chain[folded..] && pending.value.previous == fold && Ends(pending.value.inputs, chain))
      && (fold.None? ==> folded == 0)
      && (fold.Some? ==> Ends(fold.value.inputs, chain[..folded]))
    }

    /** The sponge separates what the two maps hashed when their roots were last compared. Nothing is
        asked of it where both read the same blocks. */
    ghost predicate Bound()
      requires adopted <= |told| && adopted <= |chain|
      reads this
    {
      ReadAlike(ahead.h, startHeight, told[..adopted], chain[..adopted])
    }

    constructor (h: Sponge, blake: Hash, tables: Tables, startId: Bytes, startHeight: nat, foldKeyHash: Field)
      requires TablesOk(tables) && |startId| == 32 && startHeight < U32
      ensures Valid() && chain == [] && fresh(ahead) && fresh(served) && fold == None && broken == None && pending == None
    {
      hide TablesOk, SubjectMap.Valid, Alike;
      NoneAlike(h, startId, startHeight);
      this.startId, this.startHeight, this.foldKeyHash, this.blake := startId, startHeight, foldKeyHash, blake;
      var a := new SubjectMap(h, tables, startId, startHeight);
      var s := new SubjectMap(h, tables, startId, startHeight);
      ahead, served := a, s;
      blocks, fold, broken, pending, chain, folded, told, adopted := map[], None, None, None, [], 0, [], 0;
    }

    /** Append blocks to the map ahead, keeping each. */
    method Keep(period: seq<ServedBlock>)
      requires AheadHolds() && (forall b :: b in period ==> BlockWellFormed(b)) && startHeight + |chain| + |period| < U32
      modifies this`blocks, this`chain, ahead
      ensures AheadHolds() && chain == old(chain) + period
    {
      hide StandsAt, Keeps;
      ghost var before := chain;
      for i := 0 to |period|
        invariant AheadHolds() && chain == before + period[..i]
      {
        assert period[i] in period;
        assert period[..i + 1] == period[..i] + [period[i]];
        Advance(ahead, startId, startHeight, chain, period[i]);
        KeepsMore(blocks, startHeight, chain, period[i]);
        EndHeight(ahead, startId, startHeight, chain + [period[i]]);
        blocks := blocks[ahead.height := period[i]];
        chain := chain + [period[i]];
      }
      assert period[..|period|] == period;
    }

    /** The head of `extend` in its turn: a broken server refuses, a pending period is to be proved
        first, and otherwise the blocks become the pending period. The served map and the latest
        fold stay as they are. */
    method Cut(period: seq<ServedBlock>) returns (r: Result<Option<Pending>, ServerError>)
      requires Valid()
      modifies this`blocks, this`chain, this`pending, ahead
      ensures Valid()
      ensures r.Err? ==> chain == old(chain) && pending == old(pending)
      ensures broken.Some? ==> r.Err?
      ensures r.Ok? && old(pending).Some? ==> r == Ok(pending) && pending == old(pending) && chain == old(chain)
      ensures r.Ok? && old(pending).None? && period == [] ==> r == Ok(None) && pending.None? && fold.Some? && chain == old(chain)
      ensures r.Ok? && old(pending).None? && period != [] ==>
        r == Ok(pending) && pending.Some? && pending.value.blocks == period && chain == old(chain) + period
      ensures broken.None? && old(pending).None? ==>
        (r.Ok? <==> (forall b :: b in period ==> BlockWellFormed(b)) && startHeight + |old(chain)| + |period| < U32 && (period == [] ==> fold.Some?))
    {
      hide StandsAt, Keeps, EndsAt, Alike;
      if exists b :: b in period && !BlockWellFormed(b) {
        return Err(Encoding);
      }
      if broken.Some? {
        return Err(Unusable(broken.value));
      }
      if pending.Some? {
        return Ok(pending);
      }
      EndHeight(ahead, startId, startHeight, chain);
      if period == [] {
        if fold.Some? { return Ok(None); }
        return Err(Encoding);
      }
      if ahead.height + |period| >= U32 {
        return Err(Encoding);
      }
      ghost var before := chain;
      Keep(period);
      assert chain[..folded] == before[..folded] && chain[folded..] == period;
      EndHeight(ahead, startId, startHeight, chain);
      var root := ahead.Root();
      var inputs := FoldInputs(startId, startHeight, ahead.id, ahead.height, root, foldKeyHash);
      EndRead(inputs, ahead, startId, startHeight, foldKeyHash, chain);
      pending := Some(Pending(inputs, period, fold));
      return Ok(pending);
    }

    /** The served map brought over blocks. */
    method Serve(period: seq<ServedBlock>, ghost before: seq<ServedBlock>)
      requires StandsAt(served, startId, startHeight, before) && (forall i :: 0 <= i < |period| ==> BlockWellFormed(period[i]))
      requires startHeight + |before| + |period| < U32
      modifies served
      ensures StandsAt(served, startId, startHeight, before + period)
    {
      hide StandsAt;
      assert before + period[..0] == before;
      for i := 0 to |period|
        invariant StandsAt(served, startId, startHeight, before + period[..i])
      {
        assert before + period[..i + 1] == before + period[..i] + [period[i]];
        Advance(served, startId, startHeight, before + period[..i], period[i]);
      }
      assert period[..|period|] == period;
    }

    /** The tail of `#seal`, once a proof is made: the served map comes to the period's end and the
        fold is the latest. A proof that fails runs nothing, and the period stays pending. */
    method Seal(proof: Bytes)
      requires Valid() && broken.None? && pending.Some?
      modifies this`fold, this`pending, this`folded, this`told, served
      ensures Valid() && pending == None && folded == |chain| && told == old(told) + old(pending).value.blocks
      ensures fold == Some(Fold(old(fold).None?, old(pending).value.inputs, proof))
      ensures Bound() ==> Ends(fold.value.inputs, told)
    {
      hide StandsAt, Keeps, EndsAt, HistoryOf, Alike, ReadAlike;
      var period := pending.value.blocks;
      assert chain[..folded] + chain[folded..] == chain && chain[..|chain|] == chain;
      ghost var before, earlier := told, chain[..folded];
      Serve(period, told);
      AlikeMore(ahead.h, startId, startHeight, before, earlier, adopted, period);
      fold := Some(Fold(pending.value.previous.None?, pending.value.inputs, proof));
      folded, told := |chain|, told + period;
      pending := None;
      if Bound() {
        ServedEnds();
      }
    }

    /** The served map has for every key what the map ahead had, at every block of the latest fold. */
    lemma ServedIsAhead(k: nat)
      requires Valid() && broken.None? && Bound() && k <= folded
      ensures SameEntries(HistoryOf(startHeight, SectionsOf(told[..k])), HistoryOf(startHeight, SectionsOf(chain[..k])))
    {
      hide StandsAt, Keeps, EndsAt, HistoryOf, Alike, ReadAlike, SameEntries;
      assert chain[..folded][..adopted] == chain[..adopted] && chain[..folded][..k] == chain[..k];
      AlikeEntries(ahead.h, startId, startHeight, told, chain[..folded], adopted);
      EarlierEntries(startHeight, told, chain[..folded], k);
    }

    /** The served map ends as the latest fold does: compared at an adoption, and kept since. */
    lemma ServedEnds()
      requires Valid() && broken.None? && fold.Some? && (adopted == folded || Bound())
      ensures Ends(fold.value.inputs, told)
    {
      hide StandsAt, Keeps, EndsAt, HistoryOf, Alike, ReadAlike;
      assert chain[..folded][..adopted] == chain[..adopted];
      AlikeEnds(fold.value.inputs, ahead.h, startId, startHeight, foldKeyHash, told, chain[..folded], adopted);
    }

    /** A block of a fold's span, as its source gives it. */
    method Find(source: nat -> Option<ServedBlock>, height: nat) returns (r: Result<ServedBlock, ServerError>)
      ensures r.Ok? <==> AtHand(source, height)
      ensures r.Ok? ==> Some(r.value) == source(height)
    {
      var block := source(height);
      if block.None? {
        return Err(FOLD);
      }
      if !BlockWellFormed(block.value) {
        return Err(Encoding);
      }
      return Ok(block.value);
    }

    /** What a fold must be before its blocks are appended: of this server, above the map's end, its
        end header its last block's, verified, and every block at hand. */
    ghost predicate Adoptable(given: Fold, source: nat -> Option<ServedBlock>, verified: bool)
      reads this
    {
      var end := given.inputs.endHeight;
      && broken.None? && pending.None? && FoldWellFormed(given.inputs) && verified
      && given.inputs.startId == startId && given.inputs.startHeight == startHeight && given.inputs.foldKeyHash == foldKeyHash
      && startHeight + |chain| < end
      && Reads(source, startHeight + |chain|, end)
      && AtHand(source, end) && source(end).value.id == given.inputs.endId
    }

    /** The checks of `#adopt` before anything is appended. */
    method CheckFold(given: Fold, source: nat -> Option<ServedBlock>, verified: bool) returns (r: Outcome<ServerError>)
      requires Valid()
      ensures r.Pass? <==> Adoptable(given, source, verified)
    {
      hide StandsAt, Keeps, EndsAt, Alike;
      if !FoldWellFormed(given.inputs) { return Fail(Encoding); }
      if broken.Some? { return Fail(Unusable(broken.value)); }
      if pending.Some? { return Fail(PENDING); }
      EndHeight(ahead, startId, startHeight, chain);
      var from, end := ahead.height + 1, given.inputs.endHeight;
      if given.inputs.startId != startId || given.inputs.startHeight != startHeight || given.inputs.foldKeyHash != foldKeyHash { return Fail(FOLD); }
      if end < from { return Fail(FOLD); }
      var last := Find(source, end);
      if last.Err? { return Fail(last.error); }
      if last.value.id != given.inputs.endId { return Fail(FOLD); }
      if !verified { return Fail(FOLD); }
      for height := from to end
        invariant forall x: nat :: from <= x < height ==> AtHand(source, x)
      {
        var found := Find(source, height);
        if found.Err? { return Fail(found.error); }
      }
      return Pass;
    }

    /** The blocks of a span read again and appended to the map ahead, until one is not at hand. */
    method KeepSpan(source: nat -> Option<ServedBlock>, end: nat) returns (read: bool)
      requires AheadHolds() && startHeight + |chain| < end < U32
      modifies this`blocks, this`chain, ahead
      ensures AheadHolds() && old(chain) <= chain
      ensures read <==> Reads(source, startHeight + |old(chain)|, end)
      ensures read ==> chain == old(chain) + Span(source, startHeight + |old(chain)|, end)
    {
      hide StandsAt, Keeps;
      EndHeight(ahead, startId, startHeight, chain);
      ghost var before, start := chain, startHeight + |chain|;
      var from := ahead.height + 1;
      for height := from to end + 1
        invariant AheadHolds() && |chain| == |before| + (height - from) && before <= chain && Reads(source, start, height - 1)
        invariant chain == before + Span(source, start, height - 1)
      {
        var found := Find(source, height);
        if found.Err? {
          return false;
        }
        SpanGrows(source, start, height);
        Keep([found.value]);
      }
      return true;
    }

    /** The same blocks read once more for the served map. */
    method ServeSpan(source: nat -> Option<ServedBlock>, start: nat, end: nat) returns (read: bool)
      requires StandsAt(served, startId, startHeight, told) && start == startHeight + |told| < end < U32
      modifies this`told, served
      ensures StandsAt(served, startId, startHeight, told) && old(told) <= told
      ensures read <==> Reads(source, start, end)
      ensures read ==> told == old(told) + Span(source, start, end)
    {
      hide StandsAt;
      ghost var before := told;
      for height := start + 1 to end + 1
        invariant StandsAt(served, startId, startHeight, told) && before <= told && Reads(source, start, height - 1)
        invariant told == before + Span(source, start, height - 1)
      {
        var found := Find(source, height);
        if found.Err? {
          return false;
        }
        SpanGrows(source, start, height);
        Serve([found.value], told);
        told := told + [found.value];
      }
      return true;
    }

    /** A fold that begins where this server does and that its maps can reach. */
    ghost predicate Ours(inputs: FoldInputs)
      reads this
    {
      inputs.startId == startId && inputs.startHeight == startHeight && inputs.foldKeyHash == foldKeyHash && inputs.endHeight < U32
    }

    /** The map ahead brought to a fold's end, and its root compared. */
    method AdoptAhead(given: Fold, again: nat -> Option<ServedBlock>) returns (r: Outcome<ServerError>)
      requires AheadHolds() && broken.None? && Ours(given.inputs) && startHeight + |chain| < given.inputs.endHeight
      modifies this`blocks, this`chain, this`broken, ahead
      ensures AheadHolds() && old(chain) <= chain
      ensures
        var start, end := startHeight + |old(chain)|, given.inputs.endHeight;
        if !Reads(again, start, end) then r.Fail? && broken == Some(BLOCKS)
        else
          && chain == old(chain) + Span(again, start, end)
          && if Ends(given.inputs, chain) then r.Pass? && broken.None? else r.Fail? && broken == Some(DISAGREEMENT)
    {
      hide StandsAt, Keeps, EndsAt, Span, MapRoot, HistoryOf, Reads;
      var read := KeepSpan(again, given.inputs.endHeight);
      if !read {
        broken := Some(BLOCKS);
        return Fail(Unusable(BLOCKS));
      }
      EndHeight(ahead, startId, startHeight, chain);
      var root := ahead.Root();
      RootOfEnd(given.inputs, ahead, startId, startHeight, foldKeyHash, chain, root);
      if ahead.id != given.inputs.endId || root != given.inputs.mapRoot {
        broken := Some(DISAGREEMENT);
        return Fail(Unusable(DISAGREEMENT));
      }
      return Pass;
    }

    /** The served map brought there from a reading of its own, and its root compared. */
    method AdoptServed(given: Fold, third: nat -> Option<ServedBlock>, start: nat) returns (r: Outcome<ServerError>)
      requires StandsAt(served, startId, startHeight, told) && served.h == ahead.h
      requires broken.None? && Ours(given.inputs) && start == startHeight + |told| < given.inputs.endHeight
      modifies this`told, this`broken, served
      ensures StandsAt(served, startId, startHeight, told)
      ensures
        var end := given.inputs.endHeight;
        if !Reads(third, start, end) then r.Fail? && broken == Some(BLOCKS)
        else
          && told == old(told) + Span(third, start, end)
          && if Ends(given.inputs, told) then r.Pass? && broken.None? else r.Fail? && broken == Some(BLOCKS)
    {
      hide StandsAt, EndsAt, Span, MapRoot, HistoryOf, Reads;
      var read := ServeSpan(third, start, given.inputs.endHeight);
      if !read {
        broken := Some(BLOCKS);
        return Fail(Unusable(BLOCKS));
      }
      EndHeight(served, startId, startHeight, told);
      var root := served.Root();
      RootOfEnd(given.inputs, served, startId, startHeight, foldKeyHash, told, root);
      if served.id != given.inputs.endId || root != given.inputs.mapRoot {
        broken := Some(BLOCKS);
        return Fail(Unusable(BLOCKS));
      }
      return Pass;
    }

    /** `#adopt`: a fold proved elsewhere taken as the latest, where its blocks give its root. `source`
        is how they read while it is checked, `again` for the map ahead and `third` for the served one.
        A reading that fails breaks the server, and so does one that ends at another root: the second
        is then a disagreement with the fold, the third with the second. */
    method Adopt(given: Fold, source: nat -> Option<ServedBlock>, verified: bool, again: nat -> Option<ServedBlock>, third: nat -> Option<ServedBlock>)
      returns (r: Outcome<ServerError>)
      requires Valid()
      modifies this`blocks, this`chain, this`fold, this`broken, this`folded, this`told, this`adopted, ahead, served
      ensures Valid()
      ensures !old(Adoptable(given, source, verified)) ==>
        r.Fail? && chain == old(chain) && told == old(told) && folded == old(folded) && fold == old(fold) && broken == old(broken)
      ensures old(Adoptable(given, source, verified)) ==>
        var start, end := startHeight + |old(chain)|, given.inputs.endHeight;
        if !Reads(again, start, end) then r.Fail? && broken == Some(BLOCKS)
        else
          && chain == old(chain) + Span(again, start, end)
          && if !Ends(given.inputs, chain) then r.Fail? && broken == Some(DISAGREEMENT)
             else if !Reads(third, start, end) then r.Fail? && broken == Some(BLOCKS)
             else if !Ends(given.inputs, old(told) + Span(third, start, end)) then r.Fail? && broken == Some(BLOCKS)
             else r.Pass? && broken.None? && fold == Some(given) && folded == |chain| && told == old(told) + Span(third, start, end)
      ensures r.Pass? ==> Ends(given.inputs, told) && adopted == folded
    {
      hide StandsAt, Keeps, EndsAt, Span, MapRoot, HistoryOf, Reads, Alike;
      r := CheckFold(given, source, verified);
      if r.Fail? { return; }
      var from := ahead.height;
      EndHeight(ahead, startId, startHeight, chain);
      assert chain[..folded] == chain;
      r := AdoptAhead(given, again);
      if r.Fail? { return; }
      r := AdoptServed(given, third, from);
      if r.Fail? { return; }
      fold := Some(given);
      folded := |chain|;
      assert chain[..|chain|] == chain;
      AlikeBegins(given.inputs, ahead.h, startId, startHeight, foldKeyHash, told, chain);
      adopted := folded;
    }

    // ----- What it answers

    /** The latest fold at or below a height. */
    method FoldBelow(maxHeight: nat) returns (r: Option<Fold>)
      requires Valid()
      ensures r.Some? <==> broken.None? && fold.Some? && fold.value.inputs.endHeight <= maxHeight
      ensures r.Some? ==> r == fold && Ends(r.value.inputs, chain[..folded])
    {
      return if broken.None? && fold.Some? && fold.value.inputs.endHeight <= maxHeight then fold else None;
    }

    /** A key's path at the latest fold and its entries after its first `from`: answered at every
        moment the server is unbroken, a period pending or not. */
    method Key(endHeight: nat, key: nat, from: nat) returns (r: Option<KeyAnswer>)
      requires Valid()
      ensures r.Some? <==> broken.None? && fold.Some? && fold.value.inputs.endHeight == endHeight
      ensures r.Some? ==>
        var history := HistoryOf(startHeight, SectionsOf(told));
        && IsPath(ahead.h, history, key, r.value.path)
        && r.value.entries == if from <= |EntriesOf(history, key)| then EntriesOf(history, key)[from..] else []
    {
      hide StandsAt, Keeps, IsPath, HistoryOf;
      if broken.Some? || fold.None? {
        return None;
      }
      ServedEnd();
      if fold.value.inputs.endHeight != endHeight || served.height != endHeight {
        return None;
      }
      var path := served.Path(key);
      var entries := served.Entries(key, from);
      return Some(KeyAnswer(path, entries));
    }

    lemma ServedEnd()
      requires Valid() && broken.None? && fold.Some?
      ensures served.Valid() && served.h == ahead.h && served.history == HistoryOf(startHeight, SectionsOf(told))
      ensures served.height == startHeight + folded == fold.value.inputs.endHeight
    {
      hide Keeps, HistoryOf, SubjectMap.Valid;
    }

    /** What `Key` answers for a reader holding nothing, or a tuple that is true of the map at an
        earlier block, is taken exactly where the count and the fields fit their widths: the path at
        the fold's root, and the entries since. */
    lemma AnswersAreTaken(k: nat, key: nat, kept: Option<KeptTuple>, answer: KeyAnswer)
      requires Valid() && broken.None? && fold.Some? && (adopted == folded || Bound()) && k <= folded && key < U32
      requires if kept.Some? then kept.value.key == key && (KeptTrue(ahead.h, HistoryOf(startHeight, SectionsOf(told[..k])), kept.value) || (Bound() && KeptTrue(ahead.h, HistoryOf(startHeight, SectionsOf(chain[..k])), kept.value))) else k == 0
      requires
        var history := HistoryOf(startHeight, SectionsOf(told));
        && IsPath(ahead.h, history, key, answer.path) && StartChain(kept) < P
        && answer.entries == if StartCount(kept) <= |EntriesOf(history, key)| then EntriesOf(history, key)[StartCount(kept)..] else []
      ensures
        var inputs, history := fold.value.inputs, HistoryOf(startHeight, SectionsOf(told));
        PathTaken(ahead.h, key, FoldEnd(inputs.endId, inputs.endHeight, inputs.mapRoot), answer.path) && EntriesTaken(ahead.h, key, answer.path, kept, answer.entries)
        <==> |EntriesOf(history, key)| < U64 && forall e :: e in answer.entries ==> e.height < U32 && e.position < U32 && e.output < U32
    {
      hide Alike, ReadAlike;
      hide Keeps, HistoryOf, StandsAt, EntriesOf, ChainFrom, IsPath, PathTaken, EntriesTaken, MapRoot;
      ServedEnds();
      if kept.Some? && Bound() {
        ServedIsAhead(k);
      }
      var inputs := fold.value.inputs;
      var earlier, since := HistoryOf(startHeight, SectionsOf(told[..k])), HistoryOf(startHeight + k, SectionsOf(told[k..]));
      SectionsJoin(told[..k], told[k..]);
      assert told[..k] + told[k..] == told;
      HistoryJoins(startHeight, SectionsOf(told[..k]), SectionsOf(told[k..]));
      assert HistoryOf(startHeight, SectionsOf(told)) == earlier + since;
      if kept.None? { EmptyHistoryOf(startHeight); assert SectionsOf(told[..k]) == []; }
      EntriesJoin(earlier, since, key);
      NothingYet(key);
      assert answer.entries == EntriesOf(since, key);
      TrueAnswerIsTaken(ahead.h, earlier, since, key, FoldEnd(inputs.endId, inputs.endHeight, inputs.mapRoot), answer.path, kept);
    }

    /** A kept block's transaction with its inclusion path: a reader takes it, and it is given for
        every transaction of a block whose section reproduces its root. */
    method Transaction(height: nat, position: nat) returns (r: Option<(Bytes, seq<InclusionStep>)>)
      requires Valid() && Wide(blake)
      ensures r.Some? ==>
        && broken.None? && startHeight < height <= startHeight + |chain|
        && var block := chain[height - startHeight - 1];
          position < |block.section| && r.value.0 == block.section[position].unsigned
          && WellFormed(position, r.value.1) && Climb(blake, blake(r.value.0), position, r.value.1) == block.transactionsRoot
      ensures broken.None? && startHeight < height <= startHeight + |chain| ==>
        var block := chain[height - startHeight - 1];
        2 * |block.section| <= U32 && position < |block.section| && MatchesRoot(blake, MerkleTree.Read(blake, block.section), block.transactionsRoot) ==> r.Some?
    {
      hide StandsAt, EndsAt, Climb, WellFormed, MatchesRoot;
      if broken.Some? || height !in blocks {
        return None;
      }
      var block := blocks[height];
      if position >= |block.section| {
        return None;
      }
      var steps := SectionInclusionPath(blake, block.section, block.transactionsRoot, position);
      return if steps.None? then None else Some((block.section[position].unsigned, steps.value));
    }
  }

  predicate FoldWellFormed(inputs: FoldInputs) {
    |inputs.startId| == 32 && |inputs.endId| == 32 && inputs.startHeight < U32 && inputs.endHeight < U32
  }

  predicate AtHand(source: nat -> Option<ServedBlock>, height: nat) {
    source(height).Some? && BlockWellFormed(source(height).value)
  }

  /** Every block above `start` through `end` at hand. */
  ghost predicate Reads(source: nat -> Option<ServedBlock>, start: nat, end: int) {
    forall height: nat :: start < height <= end ==> AtHand(source, height)
  }

  /** The blocks a source gives above `start` through `end`. */
  ghost function Span(source: nat -> Option<ServedBlock>, start: nat, end: nat): (span: seq<ServedBlock>)
    requires start <= end && Reads(source, start, end)
    ensures |span| == end - start
  {
    seq(end - start, i requires 0 <= i < end - start => var height: nat := start + 1 + i; assert AtHand(source, height); source(height).value)
  }

  lemma SpanGrows(source: nat -> Option<ServedBlock>, start: nat, height: nat)
    requires start < height && Reads(source, start, height - 1) && AtHand(source, height)
    ensures Reads(source, start, height) && Span(source, start, height) == Span(source, start, height - 1) + [source(height).value]
  {
  }

  /** Two maps' blocks: of one root when their roots were last compared, the same blocks since, and one
      last block. */
  ghost predicate Alike(h: Sponge, startId: Bytes, startHeight: nat, told: seq<ServedBlock>, ours: seq<ServedBlock>, adopted: nat) {
    && adopted <= |told| == |ours| && told[adopted..] == ours[adopted..] && EndOf(startId, told) == EndOf(startId, ours)
    && MapRoot(h, HistoryOf(startHeight, SectionsOf(told[..adopted]))) == MapRoot(h, HistoryOf(startHeight, SectionsOf(ours[..adopted])))
  }

  /** The same blocks, or blocks whose trees the sponge separates. */
  ghost predicate ReadAlike(h: Sponge, startHeight: nat, told: seq<ServedBlock>, ours: seq<ServedBlock>) {
    || told == ours
    || Separates(h, MapInputs(h, HistoryOf(startHeight, SectionsOf(told))) + MapInputs(h, HistoryOf(startHeight, SectionsOf(ours))))
  }

  lemma NoneAlike(h: Sponge, startId: Bytes, startHeight: nat)
    ensures Alike(h, startId, startHeight, [], [], 0)
  {
    hide MapRoot, HistoryOf;
  }

  /** Two maps that end as one fold does. */
  lemma AlikeBegins(inputs: FoldInputs, h: Sponge, startId: Bytes, startHeight: nat, foldKeyHash: Field, told: seq<ServedBlock>, ours: seq<ServedBlock>)
    requires EndsAt(inputs, h, startId, startHeight, foldKeyHash, told) && EndsAt(inputs, h, startId, startHeight, foldKeyHash, ours)
    ensures Alike(h, startId, startHeight, told, ours, |ours|) && |told| == |ours| && ours[..|ours|] == ours
  {
    hide MapRoot, HistoryOf;
    assert told[..|told|] == told && ours[..|ours|] == ours;
  }

  lemma AlikeMore(h: Sponge, startId: Bytes, startHeight: nat, told: seq<ServedBlock>, ours: seq<ServedBlock>, adopted: nat, more: seq<ServedBlock>)
    requires Alike(h, startId, startHeight, told, ours, adopted)
    ensures Alike(h, startId, startHeight, told + more, ours + more, adopted)
  {
    hide MapRoot, HistoryOf;
    assert (told + more)[..adopted] == told[..adopted] && (ours + more)[..adopted] == ours[..adopted];
    assert (told + more)[adopted..] == told[adopted..] + more && (ours + more)[adopted..] == ours[adopted..] + more;
    if more == [] {
      assert told + more == told && ours + more == ours;
    }
  }

  lemma HistorySplit(startHeight: nat, blocks: seq<ServedBlock>, n: nat)
    requires n <= |blocks|
    ensures HistoryOf(startHeight, SectionsOf(blocks)) == HistoryOf(startHeight, SectionsOf(blocks[..n])) + HistoryOf(startHeight + n, SectionsOf(blocks[n..]))
  {
    hide HistoryOf;
    assert blocks[..n] + blocks[n..] == blocks;
    SectionsJoin(blocks[..n], blocks[n..]);
    HistoryJoins(startHeight, SectionsOf(blocks[..n]), SectionsOf(blocks[n..]));
  }

  /** One root is of the same entries, and the same blocks since leave them the same. */
  lemma AlikeEntries(h: Sponge, startId: Bytes, startHeight: nat, told: seq<ServedBlock>, ours: seq<ServedBlock>, adopted: nat)
    requires Alike(h, startId, startHeight, told, ours, adopted) && ReadAlike(h, startHeight, told[..adopted], ours[..adopted])
    ensures SameEntries(HistoryOf(startHeight, SectionsOf(told)), HistoryOf(startHeight, SectionsOf(ours)))
  {
    hide HistoryOf, MapRoot, Separates, MapInputs, EntriesOf;
    var a, b := HistoryOf(startHeight, SectionsOf(told[..adopted])), HistoryOf(startHeight, SectionsOf(ours[..adopted]));
    if told[..adopted] != ours[..adopted] {
      RootBindsEntries(h, a, b);
    }
    HistorySplit(startHeight, told, adopted);
    HistorySplit(startHeight, ours, adopted);
    SameExtends(a, b, HistoryOf(startHeight + adopted, SectionsOf(told[adopted..])));
  }

  lemma EarlierEntries(startHeight: nat, told: seq<ServedBlock>, ours: seq<ServedBlock>, k: nat)
    requires k <= |told| && k <= |ours| && SameEntries(HistoryOf(startHeight, SectionsOf(told)), HistoryOf(startHeight, SectionsOf(ours)))
    ensures SameEntries(HistoryOf(startHeight, SectionsOf(told[..k])), HistoryOf(startHeight, SectionsOf(ours[..k])))
  {
    hide HistoryOf, SameEntries;
    assert SectionsOf(told)[..k] == SectionsOf(told[..k]) && SectionsOf(ours)[..k] == SectionsOf(ours[..k]);
    SameEarlier(startHeight, SectionsOf(told), SectionsOf(ours), k);
  }

  lemma AlikeEnds(inputs: FoldInputs, h: Sponge, startId: Bytes, startHeight: nat, foldKeyHash: Field, told: seq<ServedBlock>, ours: seq<ServedBlock>, adopted: nat)
    requires Alike(h, startId, startHeight, told, ours, adopted) && EndsAt(inputs, h, startId, startHeight, foldKeyHash, ours)
    requires adopted == |ours| || ReadAlike(h, startHeight, told[..adopted], ours[..adopted])
    ensures EndsAt(inputs, h, startId, startHeight, foldKeyHash, told)
  {
    hide HistoryOf, MapRoot, ReadAlike, SameEntries;
    if adopted == |ours| {
      assert told[..adopted] == told && ours[..adopted] == ours;
    } else {
      AlikeEntries(h, startId, startHeight, told, ours, adopted);
      SameRoot(h, HistoryOf(startHeight, SectionsOf(told)), HistoryOf(startHeight, SectionsOf(ours)));
    }
  }

  lemma RootOfEnd(inputs: FoldInputs, m: SubjectMap, startId: Bytes, startHeight: nat, foldKeyHash: Field, end: seq<ServedBlock>, root: Field)
    requires StandsAt(m, startId, startHeight, end) && end != [] && root == MapRoot(m.h, m.history)
    requires inputs.startId == startId && inputs.startHeight == startHeight && inputs.foldKeyHash == foldKeyHash && inputs.endHeight == startHeight + |end|
    ensures EndsAt(inputs, m.h, startId, startHeight, foldKeyHash, end) <==> m.id == inputs.endId && root == inputs.mapRoot
  {
    hide HistoryOf, MapRoot, SubjectMap.Valid;
  }

  lemma EmptyHistoryOf(start: nat)
    ensures HistoryOf(start, []) == []
  {
  }

  lemma EndHeight(m: SubjectMap, startId: Bytes, startHeight: nat, blocks: seq<ServedBlock>)
    requires StandsAt(m, startId, startHeight, blocks)
    ensures m.Valid() && m.height == startHeight + |blocks| && m.id == EndOf(startId, blocks)
  {
    hide SubjectMap.Valid;
  }
}
