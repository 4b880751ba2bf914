/**
 A read that meets every hypothesis of `AcceptedReadIsNative`: a digest, a sponge, a block of one
 transaction with one shaped output, and a supplier's answer to it. What is asked of the digest and of
 the sponge is asked of finitely many strings, and these two answer it.
 */
module ReadWitness {
  import opened Wrappers
  import opened ErgoScan
  import opened ErgoProfile
  import opened ScanAgreement
  import opened MerkleTree
  import opened SubjectIndex
  import opened SubjectMapStore
  import opened SubjectReading
  import opened SubjectRead
  import opened Disagreement
  import opened SuccinctRead
  import Venue = ErgoAttribution
  import Writer = ErgoWriter

  function Fill(b: Byte): (bytes: Bytes)
    ensures |bytes| == 32
  {
    seq(32, i => b)
  }

  /** A digest that tells apart one string of each length it is asked about. */
  function SampleDigest(x: Bytes): Bytes {
    if |x| == 33 then if x[0] == 0 then Fill(1) else Fill(2)
    else if |x| == 32 then Fill(3)
    else if |x| == 65 then Fill(4)
    else Fill(5)
  }

  /** A sponge that gives a node one more than its left child, and a leaf and a link values of their own. */
  function SampleSponge(x: seq<nat>): Field {
    if |x| == 7 then 2000
    else if |x| == 3 && x[0] == T_MAP_NODE then (x[1] + 1) % P
    else 1000
  }

  function SampleTree(): Bytes {
    Writer.P2pkTree(seq(33, i => 0))
  }

  function SampleOutput(): Writer.Candidate {
    Writer.Candidate(0, SampleTree(), [Writer.Coll(Fill(0)), Writer.Coll([])])
  }

  function SampleTransaction(): Bytes {
    Writer.UnsignedBytes([Fill(7)], [SampleOutput()], 0)
  }

  function SampleBlock(): seq<SectionTransaction> {
    [SectionTransaction(SampleTransaction(), seq(31, i => 6))]
  }

  function SampleSources(): Sources {
    Sources(0, height => Some(Fill(2)), place => Some(Included(SampleTransaction(), [Lone])), index => false)
  }

  function SampleView(): Native {
    Native(Venue.Profile([[], [1], [2], SampleTree()]), 0, [SampleBlock()], Fill(0), SampleSources())
  }

  function SampleEntry(): MapEntry {
    MapEntry(Fill(0), 1, 0, 0)
  }

  function SamplePath(): MapPath {
    MapPath(1, 2000, seq(MAP_DEPTH, l requires 0 <= l < MAP_DEPTH => l))
  }

  function SampleFold(): FoldEnd {
    FoldEnd(Fill(0), 1, 1032)
  }

  function SampleFetched(): Fetched {
    Fetched(Place(1, 0), SampleTransaction(), [Lone])
  }

  // ----- The transaction and the history it makes

  lemma OutputIsReadable()
    ensures Writer.Readable(SampleOutput())
  {
    hide Writer.Coll;
    Writer.P2pkIsTree(seq(33, i => 0));
    var c := SampleOutput();
    assert Writer.IsConstant(c.registers[0]) && Writer.IsConstant(c.registers[1]);
  }

  lemma TransactionFrames()
    ensures Frame(SampleTransaction()) == Some([Output(SampleTree(), [Writer.Coll(Fill(0)), Writer.Coll([])])])
    ensures ScanAll(SampleTransaction()) == [Shaped(0, Fill(0))]
  {
    hide Writer.Coll, Frame, ScanAll, Writer.UnsignedBytes, CollBytes, Writer.Readable, SampleTree;
    OutputIsReadable();
    Writer.UnsignedReads([Fill(7)], [SampleOutput()], 0);
    var outputs := [Output(SampleTree(), [Writer.Coll(Fill(0)), Writer.Coll([])])];
    assert Writer.Views([SampleOutput()]) == outputs;
    ScanAgrees(SampleTransaction());
    Writer.CollBytesReads(Fill(0));
    Writer.CollBytesReads([]);
    assert ShapeOf(outputs[0]) == Some((Fill(0), []));
    assert outputs[..0] == [];
    assert ShapedIn(outputs) == ShapedIn([]) + [Shaped(0, Fill(0))];
  }

  lemma TransactionIsLong()
    ensures |SampleTransaction()| > 65
  {
    hide Writer.Vlq, Writer.InputsBytes;
    var c := SampleOutput();
    var i, b, o := Writer.UnsignedParts([Fill(7)], [c], 0);
    assert Writer.OutputsBytes([c], 0) == Writer.CandidateBytes(c, 0) + Writer.OutputsBytes([], 0);
    assert |Writer.Coll(Fill(0))| >= 33;
    assert Writer.Concat(c.registers) == c.registers[0] + Writer.Concat(c.registers[1..]);
    assert |SampleTree()| == 36;
  }

  lemma HistoryIsEntry()
    ensures HistoryOf(0, SampleView().Unsigned()) == [SampleEntry()]
  {
    hide ScanAll, SampleTransaction;
    TransactionFrames();
    var block := [SampleTransaction()];
    assert UnsignedOf(SampleBlock()) == block;
    var all := SampleView().Unsigned();
    assert all == [block];
    assert all[..0] == [] && block[..0] == [];
    assert HistoryOf(0, all) == HistoryOf(0, all[..0]) + BlockEntries(block, 1) == BlockEntries(block, 1);
    assert BlockEntries(block, 1) == BlockEntries([], 1) + TransactionEntries(ScanAll(block[0]), 1, 0);
    assert TransactionEntries([Shaped(0, Fill(0))], 1, 0) == [SampleEntry()];
  }

  lemma {:induction false} ZerosAreZero(n: nat)
    ensures BigEndian(seq(n, i => 0)) == 0
  {
    if n > 0 {
      ZerosAreZero(n - 1);
      var zeros: Bytes := seq(n, i => 0);
      assert zeros[..n - 1] == seq(n - 1, i => 0);
    }
  }

  lemma KeyIsZero()
    ensures SubjectKey(Fill(0)) == 0
  {
    ZerosAreZero(4);
    assert Fill(0)[28..] == seq(4, i => 0);
  }

  lemma EntriesOfSample(key: nat)
    ensures EntriesOf([SampleEntry()], key) == if key == 0 then [SampleEntry()] else []
    ensures ChainFrom(SampleSponge, 0, [SampleEntry()]) == 2000
    ensures LeafOf(SampleSponge, [SampleEntry()], key) == if key == 0 then 1000 else 0
  {
    hide SubjectKey;
    KeyIsZero();
    var history := [SampleEntry()];
    assert history[..0] == [];
    assert EntriesOf(history, key) == EntriesOf([], key) + if key == 0 then history else [];
    assert ChainFrom(SampleSponge, 0, history) == SampleSponge(EntryInput(ChainFrom(SampleSponge, 0, []), SampleEntry()));
  }

  // ----- The map's nodes

  lemma SampleNode(left: nat, right: nat)
    requires left < 2000
    ensures MapNode(SampleSponge, left, right) == left + 1
  {
  }

  /** Over the entry's key the nodes are numbered from 1000, elsewhere by their level. */
  lemma {:induction false} SampleNodes(level: nat, index: nat)
    requires level <= MAP_DEPTH
    ensures TreeNode(SampleSponge, [SampleEntry()], level, index) == if index == 0 then 1000 + level else level
  {
    hide LeafOf, MapNode, SampleSponge;
    if level == 0 {
      EntriesOfSample(index);
    } else {
      SampleNodes(level - 1, 2 * index);
      SampleNodes(level - 1, 2 * index + 1);
      var left, right := TreeNode(SampleSponge, [SampleEntry()], level - 1, 2 * index), TreeNode(SampleSponge, [SampleEntry()], level - 1, 2 * index + 1);
      SampleNode(left, right);
    }
  }

  /** What hashing a node gives: its left child's number and one. */
  predicate NodeOf(x: seq<nat>, level: nat, own: bool) {
    level < MAP_DEPTH && x == NodeInput(if own then 1000 + level else level, level)
  }

  /** The strings asked of the sponge: the entry's link, its leaf, and nodes. */
  ghost predicate Asked(x: seq<nat>) {
    || x == EntryInput(0, SampleEntry())
    || x == LeafInput(1, 2000)
    || exists level: nat, own: bool :: NodeOf(x, level, own)
  }

  /** What is asked, by the value it is given. */
  lemma AskedValue(x: seq<nat>)
    requires Asked(x)
    ensures var v := SampleSponge(x);
      || (v == 2000 && x == EntryInput(0, SampleEntry()))
      || (v == 1000 && x == LeafInput(1, 2000))
      || (1 <= v <= 32 && x == NodeInput(v - 1, v - 1))
      || (1001 <= v <= 1032 && x == NodeInput(v - 1, v - 1001))
  {
    hide BigEndian;
  }

  lemma AskedSeparate(asked: iset<seq<nat>>)
    requires forall x :: x in asked ==> Asked(x)
    ensures Separates(SampleSponge, asked)
  {
    hide Asked, EntryInput, SampleSponge;
    forall x | x in asked
      ensures SampleSponge(x) != 0
    {
      AskedValue(x);
    }
    forall x, y | x in asked && y in asked && SampleSponge(x) == SampleSponge(y)
      ensures x == y
    {
      AskedValue(x);
      AskedValue(y);
    }
  }

  lemma ChainAsked(x: seq<nat>)
    requires x in ChainInputs(SampleSponge, 0, [SampleEntry()])
    ensures Asked(x)
  {
    assert [SampleEntry()][..0] == [];
  }

  lemma MapAsked(x: seq<nat>)
    requires x in MapInputs(SampleSponge, [SampleEntry()])
    ensures Asked(x)
  {
    hide TreeNode, ChainInputs, EntryInput, ChainFrom, EntriesOf, Asked;
    var history := [SampleEntry()];
    if IsChainInput(SampleSponge, history, x) {
      var key: nat :| x in ChainInputs(SampleSponge, 0, EntriesOf(history, key));
      EntriesOfSample(key);
      NoChain();
      ChainAsked(x);
    } else if IsLeafInput(SampleSponge, history, x) {
      var key: nat :| var own := EntriesOf(history, key); own != [] && x == LeafInput(|own|, ChainFrom(SampleSponge, 0, own));
      EntriesOfSample(key);
      LeafIsAsked();
    } else {
      var level: nat, index: nat :| IsNode(level, index) && x == ChildrenInput(SampleSponge, history, level, index);
      SampleNodes(level, 2 * index);
      SampleNodes(level, 2 * index + 1);
      NodeIsAsked(x, level, index == 0);
    }
  }

  lemma NoChain()
    ensures ChainInputs(SampleSponge, 0, []) == iset{}
  {
  }

  lemma LeafIsAsked()
    ensures Asked(LeafInput(1, 2000))
  {
  }

  lemma NodeIsAsked(x: seq<nat>, level: nat, own: bool)
    requires NodeOf(x, level, own)
    ensures Asked(x)
  {
  }

  lemma {:induction false} ZeroShifts(l: nat)
    ensures Shift(0, l) == 0
  {
    if l > 0 {
      ZeroShifts(l - 1);
    }
  }

  /** Climbing the sample path passes the entry's nodes. */
  lemma {:induction false} SampleClimbs(l: nat)
    requires l <= MAP_DEPTH
    ensures ClimbMap(SampleSponge, 0, 1000, SamplePath().siblings[..l]) == 1000 + l
    ensures l > 0 ==> NodeOf(ClimbInput(SampleSponge, 0, 1000, SamplePath().siblings[..l]), l - 1, true)
  {
    hide SampleSponge, Shift;
    if l > 0 {
      SampleClimbs(l - 1);
      ZeroShifts(l - 1);
      LastClimbed(SampleSponge, 0, 1000, SamplePath().siblings, l);
      SampleNode(1000 + l - 1, l - 1);
    }
  }

  lemma ReadAsked(x: seq<nat>)
    requires x in ReadInputs(SampleSponge, 0, SamplePath(), None, [SampleEntry()])
    ensures Asked(x)
  {
    hide ClimbInput, EntryInput, ChainInputs, Asked;
    if x in ChainInputs(SampleSponge, 0, [SampleEntry()]) {
      ChainAsked(x);
    } else if x == LeafInput(1, 2000) {
      LeafIsAsked();
    } else {
      var l: nat :| 0 < l <= MAP_DEPTH && x == ClimbInput(SampleSponge, 0, 1000, SamplePath().siblings[..l]);
      SampleClimbs(l);
      NodeIsAsked(x, l - 1, true);
    }
  }

  // ----- The section

  lemma SampleSection()
    ensures Wide(SampleDigest)
    ensures Read(SampleDigest, SampleBlock()) == [Committed(Fill(5), seq(31, i => 6))]
  {
    hide SampleTransaction;
    TransactionIsLong();
  }

  /** The strings asked of the digest: a leaf and a node under each rule, and the transaction. */
  predicate DigestAsked(x: Bytes) {
    || x == [0] + Fill(5)
    || x == [1] + Fill(1)
    || x == [0] + seq(31, i => 6)
    || x == [1] + Fill(1) + Fill(3)
    || x == SampleTransaction()
  }

  lemma DigestBinds(asked: iset<Bytes>)
    requires forall x :: x in asked ==> DigestAsked(x)
    ensures Binds(SampleDigest, asked)
  {
    hide SampleTransaction;
    TransactionIsLong();
    assert forall a, b :: Fill(a) == Fill(b) ==> a == b by {
      forall a, b | Fill(a) == Fill(b)
        ensures a == b
      {
        assert Fill(a)[0] == a && Fill(b)[0] == b;
      }
    }
    forall x, y | x in asked && y in asked && SampleDigest(x) == SampleDigest(y)
      ensures x == y
    {
      assert DigestAsked(x) && DigestAsked(y);
    }
  }

  /** A tree over leaves that a digest's caller can list: one leaf, or two. */
  lemma SmallTree(h: Hash, leaves: seq<Bytes>, x: Bytes)
    requires 0 < |leaves| <= 2 && x in TreeStrings(h, leaves)
    ensures x == [0] + leaves[0] || x == [0] + leaves[|leaves| - 1]
      || x == if |leaves| == 1 then [1] + h([0] + leaves[0]) else [1] + h([0] + leaves[0]) + h([0] + leaves[1])
  {
    if !IsLeafString(leaves, x) {
      var k: nat, i: nat :| k < Depth(|leaves|) && 2 * i < |LevelAt(h, leaves, k)| && x == NodeBytes(LevelAt(h, leaves, k), i);
      assert k == 0 && i == 0;
    }
  }

  lemma SmallRoot(h: Hash, leaves: seq<Bytes>)
    requires 0 < |leaves| <= 2
    ensures Root(h, leaves) == h(if |leaves| == 1 then [1] + h([0] + leaves[0]) else [1] + h([0] + leaves[0]) + h([0] + leaves[1]))
  {
    assert Depth(|leaves|) == 1;
    assert LevelAt(h, leaves, 0) == LeafLevel(h, leaves);
    assert LevelAt(h, leaves, 1)[0] == h(NodeBytes(LeafLevel(h, leaves), 0));
    assert LevelAt(h, leaves, 1) == Above(h, LevelAt(h, leaves, 0));
  }

  /** The path a supplier sends climbs to the header's root. */
  lemma SampleClimb()
    ensures WellFormed(0, [Lone]) && Climb(SampleDigest, Fill(5), 0, [Lone]) == Fill(2)
    ensures forall x :: x in PathStrings(SampleDigest, Fill(5), 0, [Lone]) ==> DigestAsked(x)
  {
    hide SampleTransaction;
    var steps := [Lone];
    assert steps[..0] == [] && steps[..1] == steps;
    assert ClimbBytes(SampleDigest, Fill(5), 0, []) == [0] + Fill(5);
    assert ClimbBytes(SampleDigest, Fill(5), 0, steps) == StepBytes(SampleDigest([0] + Fill(5)), Side(0, 0), Lone) == [1] + Fill(1);
    assert Shift(0, 0) == 0 && Shift(0, 1) == 0;
    forall x | x in PathStrings(SampleDigest, Fill(5), 0, steps)
      ensures DigestAsked(x)
    {
      var l: nat :| l <= 1 && x == ClimbBytes(SampleDigest, Fill(5), 0, steps[..l]);
      assert l == 0 || l == 1;
    }
  }

  lemma SampleRule(idsOnly: bool, x: Bytes)
    requires x in TreeStrings(SampleDigest, RuleLeaves(idsOnly, Read(SampleDigest, SampleBlock())))
    ensures DigestAsked(x)
  {
    hide SampleTransaction, TreeStrings;
    SampleSection();
    var leaves := RuleLeaves(idsOnly, Read(SampleDigest, SampleBlock()));
    assert leaves == if idsOnly then [Fill(5)] else [Fill(5), seq(31, i => 6)];
    SmallTree(SampleDigest, leaves, x);
  }

  lemma SampleMatches()
    ensures MatchesRoot(SampleDigest, Read(SampleDigest, SampleBlock()), Fill(2))
    ensures SampleDigest(SampleTransaction()) == Fill(5)
  {
    hide Root, SampleTransaction;
    SampleSection();
    TransactionIsLong();
    var leaves := RuleLeaves(true, Read(SampleDigest, SampleBlock()));
    assert leaves == [Fill(5)];
    SmallRoot(SampleDigest, leaves);
  }

  lemma SampleFetchBinds()
    ensures Binds(SampleDigest, FetchStrings(SampleDigest, SampleBlock(), SampleFetched()))
  {
    hide TreeStrings, PathStrings, SampleTransaction, DigestAsked, Binds, Read, SampleDigest;
    SampleMatches();
    SampleClimb();
    TransactionAsked();
    forall x | x in FetchStrings(SampleDigest, SampleBlock(), SampleFetched())
      ensures DigestAsked(x)
    {
      if x in TreeStrings(SampleDigest, RuleLeaves(true, Read(SampleDigest, SampleBlock()))) {
        SampleRule(true, x);
      } else if x in TreeStrings(SampleDigest, RuleLeaves(false, Read(SampleDigest, SampleBlock()))) {
        SampleRule(false, x);
      }
    }
    DigestBinds(FetchStrings(SampleDigest, SampleBlock(), SampleFetched()));
  }

  lemma TransactionAsked()
    ensures DigestAsked(SampleTransaction())
  {
    hide SampleTransaction;
  }

  /** Two leaves, and the path of the first: the hypotheses of `AcceptedPathNamesLeaf`, `RootBindsLeaves` and
      `RulesDoNotMix` are met too. */
  lemma PathsHappen()
    ensures var leaves, steps := [Fill(5), seq(31, i => 6)], [Sibling(Fill(3))];
      && WellFormed(0, steps) && Climb(SampleDigest, Fill(5), 0, steps) == Root(SampleDigest, leaves) == Fill(4)
      && Binds(SampleDigest, TreeStrings(SampleDigest, leaves) + PathStrings(SampleDigest, Fill(5), 0, steps))
      && Binds(SampleDigest, TreeStrings(SampleDigest, [Fill(5)]) + TreeStrings(SampleDigest, leaves))
  {
    hide SampleTransaction, TreeStrings, Root, DigestAsked, Binds, Read;
    var leaves, steps := [Fill(5), seq(31, i => 6)], [Sibling(Fill(3))];
    SmallRoot(SampleDigest, leaves);
    PairClimb();
    SampleSection();
    assert RuleLeaves(true, Read(SampleDigest, SampleBlock())) == [Fill(5)];
    assert RuleLeaves(false, Read(SampleDigest, SampleBlock())) == leaves;
    forall x | x in TreeStrings(SampleDigest, leaves) || x in TreeStrings(SampleDigest, [Fill(5)])
      ensures DigestAsked(x)
    {
      SampleRule(x in TreeStrings(SampleDigest, [Fill(5)]), x);
    }
    DigestBinds(TreeStrings(SampleDigest, leaves) + PathStrings(SampleDigest, Fill(5), 0, steps));
    DigestBinds(TreeStrings(SampleDigest, [Fill(5)]) + TreeStrings(SampleDigest, leaves));
  }

  lemma PairClimb()
    ensures var steps := [Sibling(Fill(3))];
      && WellFormed(0, steps) && Climb(SampleDigest, Fill(5), 0, steps) == Fill(4)
      && forall x :: x in PathStrings(SampleDigest, Fill(5), 0, steps) ==> DigestAsked(x)
  {
    hide SampleTransaction;
    var steps := [Sibling(Fill(3))];
    assert steps[..0] == [] && steps[..1] == steps;
    assert ClimbBytes(SampleDigest, Fill(5), 0, []) == [0] + Fill(5);
    assert ClimbBytes(SampleDigest, Fill(5), 0, steps) == StepBytes(SampleDigest([0] + Fill(5)), Side(0, 0), steps[0]) == [1] + Fill(1) + Fill(3);
    assert Shift(0, 0) == 0 && Shift(0, 1) == 0;
    forall x | x in PathStrings(SampleDigest, Fill(5), 0, steps)
      ensures DigestAsked(x)
    {
      var l: nat :| l <= 1 && x == ClimbBytes(SampleDigest, Fill(5), 0, steps[..l]);
      assert l == 0 || l == 1;
    }
  }

  // ----- The read

  /** The sample meets every hypothesis of `AcceptedReadIsNative`, with one transaction fetched. */
  lemma AcceptedReadHappens()
    ensures MapRead(SampleSponge, SampleView(), 0, SampleFold(), SamplePath(), None, [SampleEntry()])
    ensures ObjectsRead(SampleDigest, SampleView(), 0, 1, 1, CheckedKey(0, 0, [SampleEntry()]), [SampleFetched()])
  {
    SampleMapRead();
    SampleObjectsRead();
  }

  lemma SampleMapRead()
    ensures MapRead(SampleSponge, SampleView(), 0, SampleFold(), SamplePath(), None, [SampleEntry()])
  {
    hide HistoryOf, MapInputs, ReadInputs, Separates, Asked, SampleTransaction, SubjectKey, TreeNode, PathTaken, EntriesTaken;
    HistoryIsEntry();
    KeyIsZero();
    SampleNodes(MAP_DEPTH, 0);
    SampleTaken();
    var asked := MapInputs(SampleSponge, [SampleEntry()]) + ReadInputs(SampleSponge, 0, SamplePath(), None, [SampleEntry()]);
    forall x | x in asked
      ensures Asked(x)
    {
      if x in MapInputs(SampleSponge, [SampleEntry()]) {
        MapAsked(x);
      } else {
        ReadAsked(x);
      }
    }
    AskedSeparate(asked);
  }

  lemma SampleObjectsRead()
    ensures ObjectsRead(SampleDigest, SampleView(), 0, 1, 1, CheckedKey(0, 0, [SampleEntry()]), [SampleFetched()])
  {
    hide SampleTransaction, Accepts, FetchStrings, Binds, MatchesRoot, Wide, Read;
    SampleSection();
    SampleMatches();
    SampleFetchBinds();
    SampleAccepted();
    assert Wanted([SampleEntry()], Fill(0), SampleSources(), 1, 1) == {Place(1, 0)};
    assert PlacesOf([SampleFetched()]) == [Place(1, 0)];
  }

  lemma SampleLeaf()
    ensures SampleSponge(LeafInput(1, 2000)) == 1000
  {
  }

  lemma SampleTaken()
    ensures PathTaken(SampleSponge, 0, SampleFold(), SamplePath()) && EntriesTaken(SampleSponge, 0, SamplePath(), None, [SampleEntry()])
  {
    hide ClimbMap, SubjectKey, ChainFrom, SampleSponge, TreeNode, EntriesOf, LeafOf;
    KeyIsZero();
    EntriesOfSample(0);
    SampleClimbs(MAP_DEPTH);
    assert SampleSponge(LeafInput(1, 2000)) == 1000 by { SampleLeaf(); }
    assert SamplePath().siblings[..MAP_DEPTH] == SamplePath().siblings;
  }

  lemma SampleAccepted()
    ensures Accepts(SampleDigest, SampleSources(), CheckedKey(0, 0, [SampleEntry()]), SampleFetched())
  {
    hide SampleTransaction, Frame, Climb, WellFormed, SampleDigest, EntriesOf, HistoryOf, SubjectKey, ShapedIn, NamesFramed, NamesAt;
    SampleMatches();
    SampleClimb();
    HistoryIsEntry();
    EntriesOfSample(0);
    var all := SampleView().Unsigned();
    assert all == [] + all && all[0] == [SampleTransaction()];
    TruthfulMapNeverDisagrees(0, [], all, 0, PlacedTransaction(1, 0, SampleTransaction()));
  }
}
