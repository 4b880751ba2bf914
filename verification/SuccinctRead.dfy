/**
 A subject's objects read through a fold: the transactions its checked entries name, each fetched with an
 inclusion path, attributed. An accepted read gives exactly what attributing every transaction of every
 block of the window gives, whatever the supplier sent.
 */
module SuccinctRead {
  import opened Wrappers
  import opened ErgoScan
  import opened ErgoProfile
  import opened ScanAgreement
  import Venue = ErgoAttribution
  import opened MerkleTree
  import opened SubjectIndex
  import opened SubjectReading
  import opened SubjectRead
  import opened Disagreement

  datatype Place = Place(height: nat, position: nat)

  datatype IndexedObject = IndexedObject(index: int, object: Venue.AttributedObject)

  datatype Included = Included(unsigned: Bytes, steps: seq<InclusionStep>)

  datatype Fetched = Fetched(place: Place, unsigned: Bytes, steps: seq<InclusionStep>)

  /** What a read reads beside the key: the anchor's height, its chain's transactions roots by height, the
      supplier's transactions, and the indices it passes over. */
  datatype Sources = Sources(anchor: nat, root: nat -> Option<Bytes>, transaction: Place -> Option<Included>, skip: int -> bool)

  datatype Reading =
    | RefusedKey(reading: KeyReading)
    | RefusedTransaction
    | RefusedDisagreement
    | Objects(objects: seq<IndexedObject>, transactions: seq<Fetched>, kept: KeptTuple)

  // ----- The native reading

  /** A subject's objects among a transaction's, at their index. */
  function Of(subject: Bytes, index: int, objects: seq<Venue.AttributedObject>): seq<IndexedObject> {
    if objects == [] then []
    else
      var o := objects[|objects| - 1];
      Of(subject, index, objects[..|objects| - 1]) + if o.subject == subject then [IndexedObject(index, o)] else []
  }

  /** The blocks above `start`, and whose objects are asked. */
  datatype Native = Native(profile: Venue.Profile, start: nat, blocks: seq<seq<SectionTransaction>>, subject: Bytes, sources: Sources) {
    predicate Valid() {
      |profile.scripts| == 4 && |subject| == 32
    }

    function Unsigned(): seq<seq<Bytes>> {
      UnsignedIn(blocks)
    }

    predicate Holds(p: Place) {
      start < p.height <= start + |blocks| && p.position < |blocks[p.height - start - 1]|
    }

    function Index(height: nat): int {
      height - sources.anchor - 1
    }

    predicate InWindow(height: nat, first: int, top: int) {
      first <= height <= top && !sources.skip(Index(height))
    }

    /** One transaction's objects of the subject. */
    function ObjectsAt(p: Place): seq<IndexedObject>
      requires Valid()
    {
      if Holds(p) then Of(subject, Index(p.height), Venue.Attribute(profile, blocks[p.height - start - 1][p.position].unsigned, p.position))
      else []
    }
  }

  function UnsignedIn(blocks: seq<seq<SectionTransaction>>): (unsigned: seq<seq<Bytes>>)
    ensures |unsigned| == |blocks|
  {
    seq(|blocks|, i requires 0 <= i < |blocks| => UnsignedOf(blocks[i]))
  }

  /** A block's objects of the subject: every transaction attributed, in order. */
  function BlockObjects(v: Native, n: nat, count: nat): seq<IndexedObject>
    requires v.Valid() && n < |v.blocks| && count <= |v.blocks[n]|
  {
    if count == 0 then []
    else
      BlockObjects(v, n, count - 1)
      + Of(v.subject, v.Index(v.start + n + 1), Venue.Attribute(v.profile, v.blocks[n][count - 1].unsigned, count - 1))
  }

  /** The first `n` blocks' objects of the subject, in the window. */
  function NativeObjects(v: Native, first: int, top: int, n: nat): seq<IndexedObject>
    requires v.Valid() && n <= |v.blocks|
  {
    if n == 0 then []
    else
      NativeObjects(v, first, top, n - 1)
      + if v.InWindow(v.start + n, first, top) then BlockObjects(v, n - 1, |v.blocks[n - 1]|) else []
  }

  // ----- Places

  predicate PlaceBefore(p: Place, q: Place) {
    p.height < q.height || (p.height == q.height && p.position < q.position)
  }

  predicate Ascending(places: seq<Place>) {
    forall i, j :: 0 <= i < j < |places| ==> PlaceBefore(places[i], places[j])
  }

  function BlockPlaces(height: nat, count: nat): (places: seq<Place>)
    ensures |places| == count && forall j :: 0 <= j < count ==> places[j] == Place(height, j)
  {
    seq(count, j requires 0 <= j < count => Place(height, j))
  }

  /** Every place of the first `n` blocks, in the window. */
  function WindowPlaces(v: Native, first: int, top: int, n: nat): seq<Place>
    requires n <= |v.blocks|
  {
    if n == 0 then []
    else
      var before := WindowPlaces(v, first, top, n - 1);
      if v.InWindow(v.start + n, first, top) then before + BlockPlaces(v.start + n, |v.blocks[n - 1]|) else before
  }

  lemma {:induction false} WindowHolds(v: Native, first: int, top: int, n: nat)
    requires n <= |v.blocks|
    ensures Ascending(WindowPlaces(v, first, top, n))
    ensures forall p :: p in WindowPlaces(v, first, top, n) <==> v.Holds(p) && p.height <= v.start + n && v.InWindow(p.height, first, top)
  {
    if n > 0 {
      WindowHolds(v, first, top, n - 1);
      var before, more := WindowPlaces(v, first, top, n - 1), BlockPlaces(v.start + n, |v.blocks[n - 1]|);
      forall p
        ensures p in more <==> v.Holds(p) && p.height == v.start + n
      {
        if v.Holds(p) && p.height == v.start + n {
          assert more[p.position] == p;
        }
      }
      forall i, j | 0 <= i < |before| && 0 <= j < |more|
        ensures PlaceBefore(before[i], more[j])
      {
        assert before[i] in before && more[j] in more;
      }
    }
  }

  function ObjectsOver(v: Native, places: seq<Place>): seq<IndexedObject>
    requires v.Valid()
  {
    if places == [] then [] else ObjectsOver(v, places[..|places| - 1]) + v.ObjectsAt(places[|places| - 1])
  }

  lemma OverNext(v: Native, places: seq<Place>, p: Place)
    requires v.Valid()
    ensures ObjectsOver(v, places + [p]) == ObjectsOver(v, places) + v.ObjectsAt(p)
  {
    hide Of, Venue.Attribute;
    assert (places + [p])[..|places|] == places;
  }

  lemma AtHeld(v: Native, n: nat, position: nat)
    requires v.Valid() && n < |v.blocks| && position < |v.blocks[n]|
    ensures v.ObjectsAt(Place(v.start + n + 1, position))
         == Of(v.subject, v.Index(v.start + n + 1), Venue.Attribute(v.profile, v.blocks[n][position].unsigned, position))
  {
    hide Of, Venue.Attribute;
  }

  lemma {:induction false} OverBlock(v: Native, before: seq<Place>, n: nat, count: nat)
    requires v.Valid() && n < |v.blocks| && count <= |v.blocks[n]|
    ensures ObjectsOver(v, before + BlockPlaces(v.start + n + 1, count)) == ObjectsOver(v, before) + BlockObjects(v, n, count)
  {
    hide Of, Venue.Attribute, ObjectsOver;
    var places := before + BlockPlaces(v.start + n + 1, count);
    if count == 0 {
      assert places == before;
    } else {
      OverBlock(v, before, n, count - 1);
      var fewer, last := before + BlockPlaces(v.start + n + 1, count - 1), Place(v.start + n + 1, count - 1);
      assert places == fewer + [last];
      OverNext(v, fewer, last);
      AtHeld(v, n, count - 1);
      var x, y, z := ObjectsOver(v, before), BlockObjects(v, n, count - 1), v.ObjectsAt(last);
      assert (x + y) + z == x + (y + z);
    }
  }

  lemma WindowNext(v: Native, first: int, top: int, n: nat)
    requires v.Valid() && 0 < n <= |v.blocks|
    ensures WindowPlaces(v, first, top, n) == WindowPlaces(v, first, top, n - 1)
      + if v.InWindow(v.start + n, first, top) then BlockPlaces(v.start + n, |v.blocks[n - 1]|) else []
    ensures NativeObjects(v, first, top, n) == NativeObjects(v, first, top, n - 1)
      + if v.InWindow(v.start + n, first, top) then BlockObjects(v, n - 1, |v.blocks[n - 1]|) else []
  {
    hide BlockObjects, BlockPlaces;
    var places := WindowPlaces(v, first, top, n - 1);
    assert places + [] == places;
  }

  /** Reading every place of the window is the native reading. */
  lemma {:induction false} OverWindow(v: Native, first: int, top: int, n: nat)
    requires v.Valid() && n <= |v.blocks|
    ensures ObjectsOver(v, WindowPlaces(v, first, top, n)) == NativeObjects(v, first, top, n)
  {
    hide BlockObjects, BlockPlaces, ObjectsOver, NativeObjects, WindowPlaces;
    if n == 0 {
      NothingYetOver(v, first, top);
    } else {
      WindowNext(v, first, top, n);
      OverWindow(v, first, top, n - 1);
      OverBlock(v, WindowPlaces(v, first, top, n - 1), n - 1, if v.InWindow(v.start + n, first, top) then |v.blocks[n - 1]| else 0);
      NothingAt(v, n - 1);
    }
  }

  lemma NothingYetOver(v: Native, first: int, top: int)
    requires v.Valid()
    ensures ObjectsOver(v, WindowPlaces(v, first, top, 0)) == NativeObjects(v, first, top, 0)
  {
    hide BlockObjects;
  }

  lemma NothingAt(v: Native, n: nat)
    requires v.Valid() && n < |v.blocks|
    ensures BlockObjects(v, n, 0) == [] && BlockPlaces(v.start + n + 1, 0) == []
  {
  }

  /** Places left out that hold nothing of the subject's leave nothing out. */
  lemma {:induction false} SparseIsWhole(v: Native, a: seq<Place>, b: seq<Place>)
    requires v.Valid() && Ascending(a) && Ascending(b) && (forall p :: p in a ==> p in b)
    requires forall p :: p in b && p !in a ==> v.ObjectsAt(p) == []
    ensures ObjectsOver(v, a) == ObjectsOver(v, b)
    decreases |b|
  {
    if b == [] {
      NoPlaces(a);
    } else {
      var n := |b| - 1;
      LastIsGreatest(b);
      if a != [] && a[|a| - 1] == b[n] {
        LastIsGreatest(a);
        forall p | p in a[..|a| - 1]
          ensures p in b[..n]
        {
          assert p in a && p in b;
        }
        SparseIsWhole(v, a[..|a| - 1], b[..n]);
      } else {
        LastIsIn(a, b);
        assert b[n] in b;
        assert v.ObjectsAt(b[n]) == [];
        SparseIsWhole(v, a, b[..n]);
        assert ObjectsOver(v, b) == ObjectsOver(v, b[..n]) + [];
      }
    }
  }

  lemma NoPlaces(a: seq<Place>)
    ensures a == [] || exists p :: p in a
  {
    if a != [] {
      assert a[0] in a;
    }
  }

  lemma LastIsGreatest(b: seq<Place>)
    requires Ascending(b) && b != []
    ensures forall p :: p in b[..|b| - 1] <==> p in b && p != b[|b| - 1]
    ensures Ascending(b[..|b| - 1])
  {
    assert b == b[..|b| - 1] + [b[|b| - 1]];
  }

  lemma LastIsIn(a: seq<Place>, b: seq<Place>)
    requires Ascending(a) && Ascending(b) && b != [] && (forall p :: p in a ==> p in b)
    requires a == [] || a[|a| - 1] != b[|b| - 1]
    ensures b[|b| - 1] !in a
  {
    if a != [] {
      assert a[|a| - 1] in a;
      var i :| 0 <= i < |b| && b[i] == a[|a| - 1];
    }
  }

  // ----- What an object needs

  lemma {:induction false} ShapedHas(outputs: seq<Output>, i: nat)
    requires i < |outputs| && ShapeOf(outputs[i]).Some?
    ensures Shaped(i, ShapeOf(outputs[i]).value.0) in ShapedIn(outputs)
    decreases |outputs|
  {
    hide ShapeOf;
    if i < |outputs| - 1 {
      ShapedHas(outputs[..|outputs| - 1], i);
    }
  }

  /** An object is of a shaped output's subject. */
  lemma {:induction false} ObjectsShaped(profile: Venue.Profile, outputs: seq<Output>, position: nat, at: nat, o: Venue.AttributedObject)
    requires |profile.scripts| == 4 && at <= |outputs| && o in Venue.ObjectsFrom(profile, outputs, position, at)
    ensures exists s :: s in ShapedIn(outputs) && s.subject == o.subject
    decreases |outputs| - at
  {
    hide ShapeOf, ShapedIn, Venue.RunEnd, Venue.Joined, Venue.KindFrom;
    var (found, next) := Venue.ObjectAt(profile, outputs, position, at);
    if o in found {
      ShapedHas(outputs, at);
    } else {
      ObjectsShaped(profile, outputs, position, next, o);
    }
  }

  lemma {:induction false} OfNone(subject: Bytes, index: int, objects: seq<Venue.AttributedObject>)
    requires forall o :: o in objects ==> o.subject != subject
    ensures Of(subject, index, objects) == []
  {
    if objects != [] {
      assert objects[|objects| - 1] in objects;
      OfNone(subject, index, objects[..|objects| - 1]);
    }
  }

  lemma {:induction false} NamesAtHas(entries: seq<MapEntry>, p: Place, name: Name)
    ensures name in NamesAt(entries, p.height, p.position) <==> MapEntry(name.1, p.height, p.position, name.0) in entries
  {
    if entries != [] {
      var n := |entries| - 1;
      NamesAtHas(entries[..n], p, name);
      assert entries == entries[..n] + [entries[n]];
    }
  }

  lemma {:induction false} NamesFramedHas(shaped: seq<Shaped>, key: nat, s: Shaped)
    requires forall x :: x in shaped ==> |x.subject| == 32
    requires s in shaped && SubjectKey(s.subject) == key
    ensures (s.output, s.subject) in NamesFramed(shaped, key)
  {
    var n := |shaped| - 1;
    assert shaped == shaped[..n] + [shaped[n]];
    if s in shaped[..n] {
      NamesFramedHas(shaped[..n], key, s);
    }
  }

  /** A transaction that gives an object of the subject has an entry of it in the history. */
  lemma {:induction false} ObjectHasEntry(v: Native, p: Place)
    requires v.Valid() && v.Holds(p) && v.ObjectsAt(p) != []
    ensures exists e :: e in EntriesOf(HistoryOf(v.start, v.Unsigned()), SubjectKey(v.subject))
                        && e.subject == v.subject && e.height == p.height && e.position == p.position
  {
    hide Frame, ScanAll, ShapedIn, NamesFramed, NamesAt, EntriesOf, HistoryOf, Venue.ObjectsFrom, SubjectKey;
    var unsigned, key := v.blocks[p.height - v.start - 1][p.position].unsigned, SubjectKey(v.subject);
    var objects := Venue.Attribute(v.profile, unsigned, p.position);
    if forall o :: o in objects ==> o.subject != v.subject {
      OfNone(v.subject, v.Index(p.height), objects);
    }
    var o :| o in objects && o.subject == v.subject;
    var outputs := Frame(unsigned).value;
    ObjectsShaped(v.profile, outputs, p.position, 0, o);
    var s :| s in ShapedIn(outputs) && s.subject == o.subject;
    ScanAgrees(unsigned);
    HistoryNames(v.start, v.Unsigned(), key, p.height, p.position);
    NamesFramedHas(ScanAll(unsigned), key, s);
    NamesAtHas(EntriesOf(HistoryOf(v.start, v.Unsigned()), key), p, (s.output, s.subject));
  }

  // ----- What a read takes

  /** The places it fetches: of the subject's entries, in the window. */
  function Wanted(entries: seq<MapEntry>, subject: Bytes, sources: Sources, first: int, top: int): set<Place> {
    set e | e in entries && first <= e.height <= top && e.subject == subject && !sources.skip(e.height - sources.anchor - 1) ::
      Place(e.height, e.position)
  }

  /** A fetched transaction is included under its header's root and is no evidence against the key. */
  predicate Accepts(d: Hash, sources: Sources, checked: CheckedKey, f: Fetched) {
    && sources.transaction(f.place) == Some(Included(f.unsigned, f.steps))
    && sources.root(f.place.height).Some?
    && |d(f.unsigned)| == 32 && f.place.position < 0x1_0000_0000 && WellFormed(f.place.position, f.steps)
    && Climb(d, d(f.unsigned), f.place.position, f.steps) == sources.root(f.place.height).value
    && !KeyDisagrees(checked, PlacedTransaction(f.place.height, f.place.position, f.unsigned))
  }

  function PlacesOf(transactions: seq<Fetched>): (places: seq<Place>)
    ensures |places| == |transactions|
  {
    seq(|transactions|, i requires 0 <= i < |transactions| => transactions[i].place)
  }

  function Gathered(profile: Venue.Profile, subject: Bytes, anchor: nat, transactions: seq<Fetched>): seq<IndexedObject>
    requires |profile.scripts| == 4
  {
    if transactions == [] then []
    else
      var f := transactions[|transactions| - 1];
      Gathered(profile, subject, anchor, transactions[..|transactions| - 1])
      + Of(subject, f.place.height - anchor - 1, Venue.Attribute(profile, f.unsigned, f.place.position))
  }

  /** Everything wanted was fetched, in order, and accepted. */
  ghost predicate Fetches(d: Hash, sources: Sources, checked: CheckedKey, wanted: set<Place>, transactions: seq<Fetched>) {
    && Ascending(PlacesOf(transactions))
    && (forall p :: p in wanted <==> p in PlacesOf(transactions))
    && (forall f :: f in transactions ==> Accepts(d, sources, checked, f))
  }

  // ----- The theorem

  /** What is hashed to take one fetched transaction beside the one its section holds. */
  ghost function FetchStrings(d: Hash, section: seq<SectionTransaction>, f: Fetched): iset<Bytes> {
    var leaves := Read(d, section);
    TreeStrings(d, RuleLeaves(true, leaves)) + TreeStrings(d, RuleLeaves(false, leaves))
    + PathStrings(d, d(f.unsigned), f.place.position, f.steps) + (iset t: SectionTransaction | t in section :: t.unsigned) + iset{f.unsigned}
  }

  /** A transaction taken at a place is the section's own there. */
  lemma FetchedIsTrue(d: Hash, section: seq<SectionTransaction>, sources: Sources, checked: CheckedKey, f: Fetched)
    requires Wide(d) && Accepts(d, sources, checked, f) && MatchesRoot(d, Read(d, section), sources.root(f.place.height).value)
    requires Binds(d, FetchStrings(d, section, f))
    ensures f.place.position < |section| && f.unsigned == section[f.place.position].unsigned
  {
    hide Root, Climb, TreeStrings, PathStrings, WellFormed, KeyDisagrees;
    var leaves := Read(d, section);
    var idsOnly := Root(d, RuleLeaves(true, leaves)) == sources.root(f.place.height).value;
    AcceptedPathNamesTransaction(d, leaves, idsOnly, d(f.unsigned), f.place.position, f.steps);
    assert section[f.place.position] in section;
  }

  predicate OwnAt(v: Native, f: Fetched) {
    v.Holds(f.place) && f.unsigned == v.blocks[f.place.height - v.start - 1][f.place.position].unsigned
  }

  /** Fetched transactions that are the blocks' own give the blocks' own objects. */
  lemma {:induction false} GatheredIsOver(v: Native, transactions: seq<Fetched>)
    requires v.Valid()
    requires forall f :: f in transactions ==> OwnAt(v, f)
    ensures Gathered(v.profile, v.subject, v.sources.anchor, transactions) == ObjectsOver(v, PlacesOf(transactions))
  {
    hide Of, Venue.Attribute;
    if transactions != [] {
      var n := |transactions| - 1;
      assert transactions[n] in transactions;
      GatheredIsOver(v, transactions[..n]);
      assert PlacesOf(transactions)[..n] == PlacesOf(transactions[..n]);
    }
  }

  /** The blocks are the chain's: each one's section reproduces its header's root. */
  ghost predicate OnChain(d: Hash, v: Native) {
    forall n: nat :: n < |v.blocks| && v.sources.root(v.start + n + 1).Some?
      ==> MatchesRoot(d, Read(d, v.blocks[n]), v.sources.root(v.start + n + 1).value)
  }

  /** The digest does not collide on what taking the fetched transactions hashes. */
  ghost predicate FetchesBind(d: Hash, v: Native, transactions: seq<Fetched>) {
    forall f :: f in transactions && v.start < f.place.height <= v.start + |v.blocks|
      ==> Binds(d, FetchStrings(d, v.blocks[f.place.height - v.start - 1], f))
  }

  /** From the key's true entries, whatever the supplier sent, an accepted read is the native reading. */
  lemma {:induction false} TrueEntriesGiveObjects(d: Hash, v: Native, n: nat, first: int, top: int, checked: CheckedKey, transactions: seq<Fetched>)
    requires v.Valid() && Wide(d) && OnChain(d, v) && n <= |v.blocks| && v.start + n < first && top <= v.start + |v.blocks|
    requires checked.entries == EntriesOf(HistoryOf(v.start + n, v.Unsigned()[n..]), SubjectKey(v.subject))
    requires Fetches(d, v.sources, checked, Wanted(checked.entries, v.subject, v.sources, first, top), transactions)
    requires FetchesBind(d, v, transactions)
    ensures Gathered(v.profile, v.subject, v.sources.anchor, transactions) == NativeObjects(v, first, top, |v.blocks|)
  {
    WindowHolds(v, first, top, |v.blocks|);
    hide Of, Venue.Attribute, SubjectKey, EntriesOf, HistoryOf, Accepts, OnChain, FetchesBind, NativeObjects, WindowPlaces, Gathered,
      ObjectsOver;
    var key, wanted, places := SubjectKey(v.subject), Wanted(checked.entries, v.subject, v.sources, first, top), PlacesOf(transactions);
    var whole := WindowPlaces(v, first, top, |v.blocks|);
    SplitHistory(v, n, key);
    forall p | p in wanted
      ensures p in whole
    {
      WantedIsHeld(v, n, first, top, checked.entries, p);
    }
    FetchedAreTrue(d, v, checked, wanted, transactions);
    GatheredIsOver(v, transactions);
    forall p | p in whole && v.ObjectsAt(p) != []
      ensures p in wanted
    {
      HeldIsWanted(v, n, first, top, checked.entries, p);
    }
    SparseIsWhole(v, places, whole);
    OverWindow(v, first, top, |v.blocks|);
  }

  lemma FetchedAreTrue(d: Hash, v: Native, checked: CheckedKey, wanted: set<Place>, transactions: seq<Fetched>)
    requires Wide(d) && OnChain(d, v) && Fetches(d, v.sources, checked, wanted, transactions) && FetchesBind(d, v, transactions)
    requires forall p :: p in wanted ==> v.Holds(p)
    ensures forall f :: f in transactions ==> OwnAt(v, f)
  {
    hide Accepts, MatchesRoot, FetchStrings, Binds, Read;
    forall f | f in transactions
      ensures OwnAt(v, f)
    {
      var i :| 0 <= i < |transactions| && transactions[i] == f;
      assert PlacesOf(transactions)[i] == f.place && f.place in wanted;
      AcceptedRoot(d, v.sources, checked, f);
      FetchedIsTrue(d, v.blocks[f.place.height - v.start - 1], v.sources, checked, f);
    }
  }

  lemma AcceptedRoot(d: Hash, sources: Sources, checked: CheckedKey, f: Fetched)
    requires Accepts(d, sources, checked, f)
    ensures sources.root(f.place.height).Some?
  {
  }

  lemma SplitHistory(v: Native, n: nat, key: nat)
    requires n <= |v.blocks|
    ensures HistoryOf(v.start, v.Unsigned()) == HistoryOf(v.start, v.Unsigned()[..n]) + HistoryOf(v.start + n, v.Unsigned()[n..])
    ensures EntriesOf(HistoryOf(v.start, v.Unsigned()), key)
         == EntriesOf(HistoryOf(v.start, v.Unsigned()[..n]), key) + EntriesOf(HistoryOf(v.start + n, v.Unsigned()[n..]), key)
  {
    hide HistoryOf, EntriesOf;
    var all := v.Unsigned();
    assert all == all[..n] + all[n..];
    HistoryJoins(v.start, all[..n], all[n..]);
    EntriesJoin(HistoryOf(v.start, all[..n]), HistoryOf(v.start + n, all[n..]), key);
  }

  /** What is wanted is a place of the blocks, in the window. */
  lemma WantedIsHeld(v: Native, n: nat, first: int, top: int, entries: seq<MapEntry>, p: Place)
    requires |v.subject| == 32 && n <= |v.blocks| && p in Wanted(entries, v.subject, v.sources, first, top)
    requires entries == EntriesOf(HistoryOf(v.start + n, v.Unsigned()[n..]), SubjectKey(v.subject))
    ensures v.Holds(p) && v.InWindow(p.height, first, top)
  {
    hide HistoryOf, EntriesOf, SubjectKey;
    var e :| e in entries && first <= e.height <= top && e.subject == v.subject && !v.sources.skip(e.height - v.sources.anchor - 1)
             && p == Place(e.height, e.position);
    EntriesKeyed(HistoryOf(v.start + n, v.Unsigned()[n..]), SubjectKey(v.subject));
    HistoryPlaced(v.start + n, v.Unsigned()[n..], e);
  }

  /** And a place of the window that gives an object is wanted. */
  lemma HeldIsWanted(v: Native, n: nat, first: int, top: int, entries: seq<MapEntry>, p: Place)
    requires v.Valid() && n <= |v.blocks| && v.start + n < first && v.Holds(p) && v.InWindow(p.height, first, top)
    requires entries == EntriesOf(HistoryOf(v.start + n, v.Unsigned()[n..]), SubjectKey(v.subject))
    requires v.ObjectsAt(p) != []
    ensures p in Wanted(entries, v.subject, v.sources, first, top)
  {
    hide HistoryOf, EntriesOf, SubjectKey, Venue.Attribute, Of;
    var key := SubjectKey(v.subject);
    ObjectHasEntry(v, p);
    var e :| e in EntriesOf(HistoryOf(v.start, v.Unsigned()), key) && e.subject == v.subject && e.height == p.height && e.position == p.position;
    LaterEntry(v, n, key, e);
    assert Place(e.height, e.position) == p;
  }

  /** An entry above the first `n` blocks is one of the later ones'. */
  lemma LaterEntry(v: Native, n: nat, key: nat, e: MapEntry)
    requires n <= |v.blocks| && e in EntriesOf(HistoryOf(v.start, v.Unsigned()), key) && e.height > v.start + n
    ensures e in EntriesOf(HistoryOf(v.start + n, v.Unsigned()[n..]), key)
  {
    hide HistoryOf, EntriesOf;
    SplitHistory(v, n, key);
    if e in EntriesOf(HistoryOf(v.start, v.Unsigned()[..n]), key) {
      EntriesKeyed(HistoryOf(v.start, v.Unsigned()[..n]), key);
      HistoryPlaced(v.start, v.Unsigned()[..n], e);
    }
  }

  /** A key's answer that a read takes over a fold whose root is the map of the chain's blocks, from nothing
      or from a kept tuple true of the map after the first `n`; and a sponge without collision on what this
      hashes. */
  ghost predicate MapRead(h: Sponge, v: Native, n: nat, fold: FoldEnd, path: MapPath, kept: Option<KeptTuple>, listed: seq<MapEntry>) {
    && v.Valid() && n <= |v.blocks|
    && fold.endHeight == v.start + |v.blocks| && fold.mapRoot == MapRoot(h, HistoryOf(v.start, v.Unsigned()))
    && (if kept.Some? then KeptHolds(h, v, n, kept.value) else n == 0)
    && PathTaken(h, SubjectKey(v.subject), fold, path) && EntriesTaken(h, SubjectKey(v.subject), path, kept, listed)
    && Separates(h, MapInputs(h, HistoryOf(v.start, v.Unsigned())) + ReadInputs(h, SubjectKey(v.subject), path, kept, listed))
  }

  ghost predicate KeptHolds(h: Sponge, v: Native, n: nat, kept: KeptTuple)
    requires |v.subject| == 32 && n <= |v.blocks|
  {
    kept.key == SubjectKey(v.subject) && KeptWellFormed(kept) && KeptTrue(h, HistoryOf(v.start, v.Unsigned()[..n]), kept)
  }

  /** The transactions that a read takes for its entries from `first` through `top`, over blocks of the chain;
      and a digest without collision on what this hashes. */
  ghost predicate ObjectsRead(d: Hash, v: Native, n: nat, first: int, top: int, checked: CheckedKey, transactions: seq<Fetched>) {
    && v.Valid() && Wide(d) && OnChain(d, v) && n <= |v.blocks| && v.start + n < first && top <= v.start + |v.blocks|
    && Fetches(d, v.sources, checked, Wanted(checked.entries, v.subject, v.sources, first, top), transactions)
    && FetchesBind(d, v, transactions)
  }

  /** The read as a whole: whatever path, entries and transactions a supplier sends, what an accepted read
      gives is the native reading of the window, and what it keeps is true. */
  lemma {:induction false} AcceptedReadIsNative(h: Sponge, d: Hash, v: Native, n: nat, fold: FoldEnd, path: MapPath, kept: Option<KeptTuple>,
    identity: Bytes, first: int, top: int, checked: CheckedKey, transactions: seq<Fetched>)
    requires MapRead(h, v, n, fold, path, kept, checked.entries)
    requires ObjectsRead(d, v, n, first, top, checked, transactions)
    ensures Gathered(v.profile, v.subject, v.sources.anchor, transactions) == NativeObjects(v, first, top, |v.blocks|)
    ensures KeptTrue(h, HistoryOf(v.start, v.Unsigned()), KeptTuple(identity, SubjectKey(v.subject), path.count, path.chain, fold.endHeight, fold.endId))
  {
    hide SubjectKey, HistoryOf, EntriesOf, PathTaken, EntriesTaken, MapRoot, Fetches, FetchesBind, OnChain, MapInputs, ReadInputs, Separates, KeptTrue,
      Gathered, NativeObjects, Wanted;
    var key := SubjectKey(v.subject);
    var earlier, since := HistoryOf(v.start, v.Unsigned()[..n]), HistoryOf(v.start + n, v.Unsigned()[n..]);
    SplitHistory(v, n, key);
    NoHistory(v.start, v.Unsigned());
    CheckedReadIsTrue(h, earlier, since, key, fold, path, kept, checked.entries, identity);
    TrueEntriesGiveObjects(d, v, n, first, top, checked, transactions);
  }

  function Lesser(a: int, b: int): int {
    if a < b then a else b
  }

  lemma NoHistory(start: nat, blocks: seq<seq<Bytes>>)
    ensures HistoryOf(start, blocks[..0]) == []
  {
  }

  // ----- Every true answer is taken

  /** The supplier's answer at a place is the section's transaction, with a path that gives its header's
      root. */
  predicate Serves(d: Hash, v: Native, p: Place)
    requires v.Holds(p)
  {
    && v.sources.root(p.height).Some? && v.sources.transaction(p).Some?
    && (var included := v.sources.transaction(p).value;
        && included.unsigned == v.blocks[p.height - v.start - 1][p.position].unsigned
        && WellFormed(p.position, included.steps)
        && Climb(d, d(included.unsigned), p.position, included.steps) == v.sources.root(p.height).value)
  }

  /** Against a true map's entries no true answer is refused: none is taken for evidence, whatever bytes
      its transaction holds. */
  lemma TrueAnswersAreTaken(d: Hash, v: Native, n: nat, first: int, top: int, checked: CheckedKey)
    requires v.Valid() && Wide(d) && n <= |v.blocks| && v.start + n < first
    requires checked == CheckedKey(SubjectKey(v.subject), v.start + n, EntriesOf(HistoryOf(v.start + n, v.Unsigned()[n..]), SubjectKey(v.subject)))
    requires forall p :: p in Wanted(checked.entries, v.subject, v.sources, first, top) ==> p.position < 0x1_0000_0000 && v.Holds(p) && Serves(d, v, p)
    ensures forall p :: p in Wanted(checked.entries, v.subject, v.sources, first, top) ==> Answers(d, v.sources, checked, p)
  {
    hide HistoryOf, EntriesOf, SubjectKey, Climb, WellFormed, KeyDisagrees, Wanted;
    forall p | p in Wanted(checked.entries, v.subject, v.sources, first, top)
      ensures Answers(d, v.sources, checked, p)
    {
      WantedIsHeld(v, n, first, top, checked.entries, p);
      var all, tx := v.Unsigned(), PlacedTransaction(p.height, p.position, v.sources.transaction(p).value.unsigned);
      assert all[n..][p.height - v.start - n - 1] == all[p.height - v.start - 1];
      TruthfulMapNeverDisagrees(v.start, all[..n], all[n..], SubjectKey(v.subject), tx);
    }
  }

  // ----- The read as it runs

  /** The entries' places, in order of height and position. */
  method SortPlaces(wanted: set<Place>) returns (ordered: seq<Place>)
    ensures Ascending(ordered) && forall p :: p in wanted <==> p in ordered
  {
    var rest := wanted;
    ordered := [];
    while rest != {}
      invariant rest <= wanted && Ascending(ordered)
      invariant forall p :: p in ordered <==> p in wanted && p !in rest
      invariant forall p, q :: p in ordered && q in rest ==> PlaceBefore(p, q)
      decreases |rest|
    {
      var p := FirstPlace(rest);
      ordered, rest := ordered + [p], rest - {p};
    }
  }

  method FirstPlace(places: set<Place>) returns (least: Place)
    requires places != {}
    ensures least in places && forall p :: p in places && p != least ==> PlaceBefore(least, p)
  {
    least :| least in places;
    var rest := places - {least};
    while rest != {}
      invariant rest <= places && least in places && forall p :: p in places && p !in rest && p != least ==> PlaceBefore(least, p)
      decreases |rest|
    {
      var p :| p in rest;
      if PlaceBefore(p, least) {
        least := p;
      }
      rest := rest - {p};
    }
  }

  /** A transaction's objects, the subject's kept. */
  method ObjectsOf(subject: Bytes, index: int, all: seq<Venue.AttributedObject>) returns (objects: seq<IndexedObject>)
    ensures objects == Of(subject, index, all)
  {
    objects := [];
    for i := 0 to |all|
      invariant objects == Of(subject, index, all[..i])
    {
      assert all[..i + 1][..i] == all[..i];
      if all[i].subject == subject {
        objects := objects + [IndexedObject(index, all[i])];
      }
    }
    assert all[..|all|] == all;
  }

  /** Whether a supplier's answer at a place is one a read takes. */
  predicate Answers(d: Hash, sources: Sources, checked: CheckedKey, p: Place) {
    sources.transaction(p).Some? && Accepts(d, sources, checked, Fetched(p, sources.transaction(p).value.unsigned, sources.transaction(p).value.steps))
  }

  /** One fetch: the transaction, its path to the header's root, and no disagreement with the entries. */
  method FetchAt(d: Hash, sources: Sources, checked: CheckedKey, p: Place) returns (r: Result<Fetched, Reading>)
    ensures r.Ok? <==> Answers(d, sources, checked, p)
    ensures r.Ok? ==> r.value.place == p && Accepts(d, sources, checked, r.value)
    ensures r.Err? ==> r.error == RefusedTransaction || r.error == RefusedDisagreement
  {
    hide Climb, WellFormed, KeyDisagrees;
    var root, included := sources.root(p.height), sources.transaction(p);
    if root.None? || included.None? {
      return Err(RefusedTransaction);
    }
    var unsigned, steps := included.value.unsigned, included.value.steps;
    var given := InclusionRoot(d, d(unsigned), p.position, steps);
    if given.None? || given.value != root.value {
      return Err(RefusedTransaction);
    }
    assert checked in [checked];
    var bad := Disagrees([checked], PlacedTransaction(p.height, p.position, unsigned));
    if bad {
      assert KeyDisagrees(checked, PlacedTransaction(p.height, p.position, unsigned));
      return Err(RefusedDisagreement);
    }
    return Ok(Fetched(p, unsigned, steps));
  }

  /** The fetches of `readSubject`, from the checked entries. */
  method Fetch(d: Hash, profile: Venue.Profile, subject: Bytes, sources: Sources, checked: CheckedKey, ordered: seq<Place>)
    returns (refused: Option<Reading>, objects: seq<IndexedObject>, transactions: seq<Fetched>)
    requires |profile.scripts| == 4
    ensures refused.None? <==> forall p :: p in ordered ==> Answers(d, sources, checked, p)
    ensures refused.Some? ==> refused.value == RefusedTransaction || refused.value == RefusedDisagreement
    ensures refused.None? ==> PlacesOf(transactions) == ordered && (forall f :: f in transactions ==> Accepts(d, sources, checked, f))
    ensures refused.None? ==> objects == Gathered(profile, subject, sources.anchor, transactions)
  {
    hide Accepts, Answers, Of, Venue.Attribute;
    objects, transactions := [], [];
    for i := 0 to |ordered|
      invariant |transactions| == i && PlacesOf(transactions) == ordered[..i]
      invariant forall f :: f in transactions ==> Accepts(d, sources, checked, f)
      invariant forall j :: 0 <= j < i ==> Answers(d, sources, checked, ordered[j])
      invariant objects == Gathered(profile, subject, sources.anchor, transactions)
    {
      var p := ordered[i];
      assert p in ordered;
      var fetched := FetchAt(d, sources, checked, p);
      if fetched.Err? {
        return Some(fetched.error), objects, transactions;
      }
      var all := Venue.AttributeInto(profile, fetched.value.unsigned, p.position);
      var found := ObjectsOf(subject, p.height - sources.anchor - 1, all);
      assert (transactions + [fetched.value])[..i] == transactions;
      objects, transactions := objects + found, transactions + [fetched.value];
      assert PlacesOf(transactions) == ordered[..i + 1];
    }
    assert ordered[..|ordered|] == ordered;
    return None, objects, transactions;
  }

  /** `readSubject`. */
  method ReadSubject(h: Sponge, d: Hash, profile: Venue.Profile, reader: Reader, subject: Bytes, from: nat, to: nat, fold: FoldEnd, sources: Sources,
    path: MapPath, kept: Option<KeptTuple>, listed: seq<MapEntry>) returns (r: Reading)
    requires |profile.scripts| == 4 && |subject| == 32
    ensures var key, first, top := SubjectKey(subject), sources.anchor + 1 + from, Lesser(sources.anchor + 1 + to, fold.endHeight);
      var taken := PathTaken(h, key, fold, path) && (kept.Some? ==> SubjectRead.Continues(reader, key, fold, kept.value) && first > kept.value.endHeight)
                   && EntriesTaken(h, key, path, kept, listed);
      var checked := CheckedKey(key, if kept.Some? then kept.value.endHeight else reader.startHeight, listed);
      var wanted := Wanted(listed, subject, sources, first, top);
      && (r.Objects? ==> Fetches(d, sources, checked, wanted, r.transactions))
      && (r.Objects? ==> r.objects == Gathered(profile, subject, sources.anchor, r.transactions))
      && (r.Objects? ==> r.kept == KeptTuple(reader.identity, key, path.count, path.chain, fold.endHeight, fold.endId))
      && (r.Objects? <==> taken && forall p :: p in wanted ==> Answers(d, sources, checked, p))
  {
    hide PathTaken, EntriesTaken, SubjectKey, SubjectRead.Continues, Answers, Gathered;
    var first, last := sources.anchor + 1 + from, sources.anchor + 1 + to;
    var reading := ReadKey(h, reader, subject, first, fold, path, kept, listed);
    if !reading.Checked? {
      match reading {
        case Misused =>
        case Checked(_, _, _, _) =>
        case Refused(refusal) =>
          match refusal {
            case BadPath => assert reading == Refused(BadPath);
            case BadKept => assert reading == Refused(BadKept);
            case BadEntries => assert reading == Refused(BadEntries);
          }
      }
      return RefusedKey(reading);
    }
    var checked := CheckedKey(reading.key, reading.after, reading.entries);
    var top := if last < fold.endHeight then last else fold.endHeight;
    var ordered := SortPlaces(Wanted(listed, subject, sources, first, top));
    var refused, objects, transactions := Fetch(d, profile, subject, sources, checked, ordered);
    if refused.Some? {
      return refused.value;
    }
    return Objects(objects, transactions, reading.kept);
  }
}
