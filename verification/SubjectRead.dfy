/**
 A reader's step for one subject over a checked fold: the path, the kept tuple if any, and the
 listed entries are each refused or taken, and what is taken is the map's own.
 */
module SubjectRead {
  import opened Wrappers
  import opened ErgoScan
  import opened MerkleTree
  import opened SubjectIndex
  import opened SubjectMapStore
  import opened SubjectReading

  /** A read's outcome, from which the next one for that key can go on. */
  datatype KeptTuple = KeptTuple(identity: Bytes, key: nat, count: nat, chain: nat, endHeight: nat, endId: Bytes)

  /** A fold's end and map root. */
  datatype FoldEnd = FoldEnd(endId: Bytes, endHeight: nat, mapRoot: Field)

  /** The reader's own: its set's identity and start height, and its chain's header ids by height. */
  datatype Reader = Reader(identity: Bytes, startHeight: nat, at: nat -> Option<Bytes>)

  datatype Refusal = BadPath | BadKept | BadEntries

  datatype KeyReading =
    | Refused(refusal: Refusal)
    | Misused
    | Checked(key: nat, after: nat, entries: seq<MapEntry>, kept: KeptTuple)

  predicate KeptWellFormed(kept: KeptTuple) {
    |kept.endId| == 32 && kept.count < U64 && kept.chain < P && kept.endHeight < U32
  }

  /** When a read can go on from a tuple: it is well formed, of this set and key, and no reorganisation has
      dropped the header it ended at. */
  predicate Continues(reader: Reader, key: nat, fold: FoldEnd, kept: KeptTuple) {
    && KeptWellFormed(kept)
    && kept.identity == reader.identity && kept.key == key && kept.endHeight <= fold.endHeight
    && reader.at(kept.endHeight) == Some(kept.endId)
  }

  predicate EntryWellFormed(key: nat, e: MapEntry) {
    |e.subject| == 32 && e.height < U32 && e.position < U32 && e.output < U32 && SubjectKey(e.subject) == key
  }

  function StartCount(kept: Option<KeptTuple>): nat {
    if kept.Some? then kept.value.count else 0
  }

  function StartChain(kept: Option<KeptTuple>): nat {
    if kept.Some? then kept.value.chain else 0
  }

  predicate PathTaken(h: Sponge, key: nat, fold: FoldEnd, path: MapPath) {
    PathWellFormed(key, path) && ClimbMap(h, key, MapLeaf(h, path.count, path.chain), path.siblings) == fold.mapRoot
  }

  predicate EntriesTaken(h: Sponge, key: nat, path: MapPath, kept: Option<KeptTuple>, listed: seq<MapEntry>)
    requires StartChain(kept) < P
  {
    && path.count == StartCount(kept) + |listed|
    && (forall i :: 0 <= i < |listed| ==> EntryWellFormed(key, listed[i]))
    && Wellsized(listed)
    && ChainFrom(h, StartChain(kept), listed) == path.chain
  }

  /** `readSubject` through its checks: the path, the kept tuple and the entries, in that order. */
  method ReadKey(h: Sponge, reader: Reader, subject: Bytes, first: int, fold: FoldEnd, path: MapPath, kept: Option<KeptTuple>, listed: seq<MapEntry>)
    returns (r: KeyReading)
    requires |subject| == 32
    ensures var key := SubjectKey(subject);
      && (r == Refused(BadPath) <==> !PathTaken(h, key, fold, path))
      && (r == Refused(BadKept) <==> PathTaken(h, key, fold, path) && kept.Some? && !Continues(reader, key, fold, kept.value))
      && (r == Misused <==> PathTaken(h, key, fold, path) && kept.Some? && Continues(reader, key, fold, kept.value) && first <= kept.value.endHeight)
      && (r.Checked? ==> PathTaken(h, key, fold, path) && (kept.Some? ==> Continues(reader, key, fold, kept.value) && first > kept.value.endHeight))
      && (r.Checked? ==> EntriesTaken(h, key, path, kept, listed))
      && (r.Checked? ==> r == Checked(key, if kept.Some? then kept.value.endHeight else reader.startHeight, listed,
                                      KeptTuple(reader.identity, key, path.count, path.chain, fold.endHeight, fold.endId)))
      && (r == Refused(BadEntries) ==> (kept.Some? ==> Continues(reader, key, fold, kept.value)) && !EntriesTaken(h, key, path, kept, listed))
  {
    hide ClimbMap, MapLeaf, SubjectKey;
    var key := SubjectKey(subject);
    var root := PathRoot(h, key, path);
    if root != Some(fold.mapRoot) {
      return Refused(BadPath);
    }
    var count, value: Field, after := 0, 0, reader.startHeight;
    if kept.Some? {
      var t := kept.value;
      if |t.endId| != 32 || t.count >= U64 || t.chain >= P || t.endHeight >= U32 {
        return Refused(BadKept);
      }
      if t.identity != reader.identity || t.key != key || t.endHeight > fold.endHeight || reader.at(t.endHeight) != Some(t.endId) {
        return Refused(BadKept);
      }
      if first <= t.endHeight {
        return Misused;
      }
      count, value, after := t.count, t.chain, t.endHeight;
    }
    if path.count < count || |listed| != path.count - count {
      return Refused(BadEntries);
    }
    var entries: seq<MapEntry> := [];
    for i := 0 to |listed|
      invariant entries == listed[..i] && count == StartCount(kept) + i
      invariant forall j :: 0 <= j < i ==> EntryWellFormed(key, listed[j])
      invariant Wellsized(listed[..i]) && value == ChainFrom(h, StartChain(kept), listed[..i])
    {
      var e := listed[i];
      if |e.subject| != 32 || e.height >= U32 || e.position >= U32 || e.output >= U32 {
        assert !EntryWellFormed(key, listed[i]);
        return Refused(BadEntries);
      }
      if SubjectKey(e.subject) != key {
        assert !EntryWellFormed(key, listed[i]);
        return Refused(BadEntries);
      }
      ChainAppended(h, StartChain(kept), listed[..i], e);
      assert listed[..i + 1] == listed[..i] + [e];
      value, count, entries := h(EntryInput(value, e)), count + 1, entries + [e];
    }
    assert listed[..|listed|] == listed;
    if count != path.count || value != path.chain {
      return Refused(BadEntries);
    }
    return Checked(key, after, entries, KeptTuple(reader.identity, key, count, value, fold.endHeight, fold.endId));
  }

  // ----- What is taken is the map's own

  /** A kept tuple says what a map held for its key. */
  ghost predicate KeptTrue(h: Sponge, history: seq<MapEntry>, kept: KeptTuple)
    requires Wellsized(history)
  {
    kept.count == |EntriesOf(history, kept.key)| && kept.chain == ChainFrom(h, 0, EntriesOf(history, kept.key))
  }

  lemma {:induction false} EntriesJoin(a: seq<MapEntry>, b: seq<MapEntry>, key: nat)
    requires Wellsized(a) && Wellsized(b)
    ensures Wellsized(a + b) && EntriesOf(a + b, key) == EntriesOf(a, key) + EntriesOf(b, key)
  {
    if b == [] {
      assert a + b == a;
    } else {
      var n := |b| - 1;
      EntriesJoin(a, b[..n], key);
      assert (a + b)[..|a + b| - 1] == a + b[..n];
    }
  }

  lemma {:induction false} EntriesKeyed(history: seq<MapEntry>, key: nat)
    requires Wellsized(history)
    ensures forall e :: e in EntriesOf(history, key) ==> e in history && SubjectKey(e.subject) == key
  {
    if history != [] {
      EntriesKeyed(history[..|history| - 1], key);
    }
  }

  /** What a read hashes beside the map's own lists. */
  ghost function ReadInputs(h: Sponge, key: nat, path: MapPath, kept: Option<KeptTuple>, listed: seq<MapEntry>): iset<seq<nat>>
    requires StartChain(kept) < P
  {
    PathInputs(h, key, path) + if Wellsized(listed) then ChainInputs(h, StartChain(kept), listed) else iset{}
  }

  /** A read that checks, from nothing or from a kept tuple that is true of the map at an earlier
      header, took exactly the key's entries appended since, and its own kept tuple is true. */
  lemma {:induction false} CheckedReadIsTrue(h: Sponge, earlier: seq<MapEntry>, since: seq<MapEntry>, key: nat, fold: FoldEnd, path: MapPath,
    kept: Option<KeptTuple>, listed: seq<MapEntry>, identity: Bytes)
    requires Wellsized(earlier) && Wellsized(since) && Wellsized(earlier + since)
    requires fold.mapRoot == MapRoot(h, earlier + since)
    requires if kept.Some? then kept.value.key == key && KeptWellFormed(kept.value) && KeptTrue(h, earlier, kept.value) else earlier == []
    requires PathTaken(h, key, fold, path) && EntriesTaken(h, key, path, kept, listed)
    requires Separates(h, MapInputs(h, earlier + since) + ReadInputs(h, key, path, kept, listed))
    ensures listed == EntriesOf(since, key)
    ensures KeptTrue(h, earlier + since, KeptTuple(identity, key, path.count, path.chain, fold.endHeight, fold.endId))
  {
    hide ClimbMap, ChainFrom, EntriesOf, IsChainInput, IsNodeInput, IsLeafInput, IsClimbInput, ChainInputs;
    var history := earlier + since;
    AcceptedPathIsTrue(h, history, key, path);
    EntriesJoin(earlier, since, key);
    var own, n := EntriesOf(history, key), |EntriesOf(earlier, key)|;
    assert own[..n] == EntriesOf(earlier, key) && own[n..] == EntriesOf(since, key);
    EmptyChain(h);
    NothingYet(key);
    AcceptedEntriesAreTrue(h, history, key, n, listed);
  }

  lemma NothingYet(key: nat)
    ensures EntriesOf([], key) == []
  {
  }

  /** A supplier's true answer is taken exactly where the key's count and its entries' fields fit
      their widths. */
  lemma {:induction false} TrueAnswerIsTaken(h: Sponge, earlier: seq<MapEntry>, since: seq<MapEntry>, key: nat, fold: FoldEnd, path: MapPath,
    kept: Option<KeptTuple>)
    requires Wellsized(earlier) && Wellsized(since) && Wellsized(earlier + since) && key < U32
    requires fold.mapRoot == MapRoot(h, earlier + since)
    requires if kept.Some? then kept.value.key == key && KeptTrue(h, earlier, kept.value) else earlier == []
    requires IsPath(h, earlier + since, key, path)
    ensures var listed := EntriesOf(since, key);
      StartChain(kept) < P
      && (PathTaken(h, key, fold, path) && EntriesTaken(h, key, path, kept, listed)
          <==> |EntriesOf(earlier + since, key)| < U64 && forall e :: e in listed ==> e.height < U32 && e.position < U32 && e.output < U32)
  {
    hide ClimbMap, ChainFrom, EntriesOf, TreeNode, SubjectKey;
    var history, listed := earlier + since, EntriesOf(since, key);
    PathGivesMapRoot(h, history, key, path.siblings);
    LeafByCount(h, history, key);
    EntriesJoin(earlier, since, key);
    EmptyChain(h);
    NothingYet(key);
    EntriesKeyed(since, key);
    ChainSplit(h, 0, EntriesOf(earlier, key), listed);
    assert forall l :: 0 <= l < MAP_DEPTH ==> path.siblings[l] < P;
    assert forall i :: 0 <= i < |listed| ==> listed[i] in listed;
  }

  lemma LeafByCount(h: Sponge, history: seq<MapEntry>, key: nat)
    requires Wellsized(history)
    ensures LeafOf(h, history, key) == MapLeaf(h, |EntriesOf(history, key)|, ChainFrom(h, 0, EntriesOf(history, key)))
    ensures EntriesOf(history, key) == [] ==> ChainFrom(h, 0, EntriesOf(history, key)) == 0
  {
  }
}
