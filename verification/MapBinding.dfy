/**
 What one root says of two histories: where the sponge separates what their trees hash, equal roots
 are of the same entries for every key, at their end, at every earlier block, and over whatever the
 same blocks append to both.
 */
module MapBinding {
  import opened MerkleTree
  import opened SubjectIndex
  import opened SubjectMapStore
  import opened SubjectReading
  import opened SubjectRead
  import opened Disagreement

  /** Every key has the same entries, in the same order. */
  ghost predicate SameEntries(a: seq<MapEntry>, b: seq<MapEntry>)
    requires Wellsized(a) && Wellsized(b)
  {
    forall key: nat :: EntriesOf(a, key) == EntriesOf(b, key)
  }

  // ----- From the root down

  lemma {:induction false} NodesBind(h: Sponge, a: seq<MapEntry>, b: seq<MapEntry>, key: nat, l: nat)
    requires Wellsized(a) && Wellsized(b) && key < U32 && l <= MAP_DEPTH
    requires Separates(h, MapInputs(h, a) + MapInputs(h, b)) && MapRoot(h, a) == MapRoot(h, b)
    ensures TreeNode(h, a, l, Shift(key, l)) == TreeNode(h, b, l, Shift(key, l))
    decreases MAP_DEPTH - l
  {
    hide TreeNode, Shift, IsChainInput, IsLeafInput;
    KeyShiftedAway(key);
    if l < MAP_DEPTH {
      var index := Shift(key, l + 1);
      NodesBind(h, a, b, key, l + 1);
      PlaceOfKey(key, l + 1);
      assert IsNode(l, index);
      NodeOfChildren(h, a, l + 1, index);
      NodeOfChildren(h, b, l + 1, index);
      var x, y := ChildrenInput(h, a, l, index), ChildrenInput(h, b, l, index);
      assert IsNodeInput(h, a, x) && IsNodeInput(h, b, y);
      assert x == y;
      assert x[1] == y[1] && x[2] == y[2];
      ShiftUp(key, l);
    }
  }

  /** Equal leaves are of equal entries. */
  lemma LeavesBind(h: Sponge, a: seq<MapEntry>, b: seq<MapEntry>, key: nat)
    requires Wellsized(a) && Wellsized(b)
    requires Separates(h, MapInputs(h, a) + MapInputs(h, b)) && LeafOf(h, a, key) == LeafOf(h, b, key)
    ensures EntriesOf(a, key) == EntriesOf(b, key)
  {
    hide EntriesOf, ChainFrom, ChainInputs, IsNodeInput;
    var mine, its := EntriesOf(a, key), EntriesOf(b, key);
    var x, y := LeafInput(|mine|, ChainFrom(h, 0, mine)), LeafInput(|its|, ChainFrom(h, 0, its));
    assert mine != [] ==> IsLeafInput(h, a, x);
    assert its != [] ==> IsLeafInput(h, b, y);
    if mine != [] && its != [] {
      assert x == y;
      assert x[1] == y[1] && x[2] == y[2];
      assert ChainInputs(h, 0, mine) <= MapInputs(h, a) by { ChainIsAsked(h, a, key); }
      assert ChainInputs(h, 0, its) <= MapInputs(h, b) by { ChainIsAsked(h, b, key); }
      ChainsBind(h, MapInputs(h, a) + MapInputs(h, b), 0, mine, its);
    }
  }

  lemma ChainIsAsked(h: Sponge, history: seq<MapEntry>, key: nat)
    requires Wellsized(history)
    ensures ChainInputs(h, 0, EntriesOf(history, key)) <= MapInputs(h, history)
  {
    hide EntriesOf, ChainInputs, IsNodeInput, IsLeafInput;
    forall x | x in ChainInputs(h, 0, EntriesOf(history, key))
      ensures IsChainInput(h, history, x)
    {
    }
  }

  lemma {:induction false} NoKeyAbove(history: seq<MapEntry>, key: nat)
    requires Wellsized(history) && key >= U32
    ensures EntriesOf(history, key) == []
  {
    hide SubjectKey;
    if history != [] {
      NoKeyAbove(history[..|history| - 1], key);
    }
  }

  lemma {:induction false} AlikeNodes(h: Sponge, a: seq<MapEntry>, b: seq<MapEntry>, level: nat, index: nat)
    requires Wellsized(a) && Wellsized(b) && SameEntries(a, b)
    ensures TreeNode(h, a, level, index) == TreeNode(h, b, level, index)
  {
    hide EntriesOf;
    if level == 0 {
      LeafIsNode(h, a, index);
      LeafIsNode(h, b, index);
      SameLeaf(h, a, b, index);
    } else {
      AlikeNodes(h, a, b, level - 1, 2 * index);
      AlikeNodes(h, a, b, level - 1, 2 * index + 1);
    }
  }

  lemma SameRoot(h: Sponge, a: seq<MapEntry>, b: seq<MapEntry>)
    requires Wellsized(a) && Wellsized(b) && SameEntries(a, b)
    ensures MapRoot(h, a) == MapRoot(h, b)
  {
    hide TreeNode, SameEntries;
    AlikeNodes(h, a, b, MAP_DEPTH, 0);
  }

  /** Where nothing collides two histories have one root exactly where every key has the same entries. */
  lemma {:induction false} RootBindsEntries(h: Sponge, a: seq<MapEntry>, b: seq<MapEntry>)
    requires Wellsized(a) && Wellsized(b) && Separates(h, MapInputs(h, a) + MapInputs(h, b))
    ensures MapRoot(h, a) == MapRoot(h, b) <==> SameEntries(a, b)
  {
    hide EntriesOf, TreeNode, Separates, MapInputs, LeafOf;
    if SameEntries(a, b) {
      SameRoot(h, a, b);
    }
    if MapRoot(h, a) == MapRoot(h, b) {
      forall key: nat
        ensures EntriesOf(a, key) == EntriesOf(b, key)
      {
        if key < U32 {
          NodesBind(h, a, b, key, 0);
          ShiftBegins(key);
          LeafIsNode(h, a, key);
          LeafIsNode(h, b, key);
          LeavesBind(h, a, b, key);
        } else {
          NoKeyAbove(a, key);
          NoKeyAbove(b, key);
        }
      }
    }
  }

  // ----- Later and earlier

  /** The same entries appended to both leave them the same. */
  lemma SameExtends(a: seq<MapEntry>, b: seq<MapEntry>, more: seq<MapEntry>)
    requires Wellsized(a) && Wellsized(b) && Wellsized(more) && SameEntries(a, b)
    ensures SameEntries(a + more, b + more)
  {
    hide EntriesOf;
    forall key: nat
      ensures EntriesOf(a + more, key) == EntriesOf(b + more, key)
    {
      EntriesJoin(a, more, key);
      EntriesJoin(b, more, key);
    }
  }

  lemma SplitOnce(a: seq<MapEntry>, b: seq<MapEntry>, c: seq<MapEntry>, d: seq<MapEntry>, height: nat)
    requires a + b == c + d
    requires (forall e :: e in a || e in c ==> e.height <= height) && forall e :: e in b || e in d ==> e.height > height
    ensures a == c
  {
    var all, n := a + b, if |a| < |c| then |a| else |c|;
    assert forall i :: 0 <= i < |all| ==> (all[i].height <= height <==> i < |a|);
    assert forall i :: 0 <= i < |all| ==> ((c + d)[i].height <= height <==> i < |c|);
    if n < |all| {
      assert all[n].height <= height <==> n < |a|;
    }
    assert |a| == |c|;
    assert a == all[..|a|] == (c + d)[..|c|] == c;
  }

  /** Histories of blocks that have the same entries had them at every earlier block. */
  lemma SameEarlier(start: nat, s: seq<seq<Bytes>>, t: seq<seq<Bytes>>, k: nat)
    requires k <= |s| && k <= |t| && SameEntries(HistoryOf(start, s), HistoryOf(start, t))
    ensures SameEntries(HistoryOf(start, s[..k]), HistoryOf(start, t[..k]))
  {
    hide EntriesOf, HistoryOf;
    forall key: nat
      ensures EntriesOf(HistoryOf(start, s[..k]), key) == EntriesOf(HistoryOf(start, t[..k]), key)
    {
      SplitAt(start, s, k, key);
      SplitAt(start, t, k, key);
      SplitOnce(EntriesOf(HistoryOf(start, s[..k]), key), EntriesOf(HistoryOf(start + k, s[k..]), key),
                EntriesOf(HistoryOf(start, t[..k]), key), EntriesOf(HistoryOf(start + k, t[k..]), key), start + k);
    }
  }

  lemma SplitAt(start: nat, s: seq<seq<Bytes>>, k: nat, key: nat)
    requires k <= |s|
    ensures EntriesOf(HistoryOf(start, s), key) == EntriesOf(HistoryOf(start, s[..k]), key) + EntriesOf(HistoryOf(start + k, s[k..]), key)
    ensures forall e :: e in EntriesOf(HistoryOf(start, s[..k]), key) ==> e.height <= start + k
    ensures forall e :: e in EntriesOf(HistoryOf(start + k, s[k..]), key) ==> e.height > start + k
  {
    hide EntriesOf, HistoryOf;
    HistoryJoins(start, s[..k], s[k..]);
    assert s[..k] + s[k..] == s;
    EntriesJoin(HistoryOf(start, s[..k]), HistoryOf(start + k, s[k..]), key);
    EntriesKeyed(HistoryOf(start, s[..k]), key);
    EntriesKeyed(HistoryOf(start + k, s[k..]), key);
    forall e | e in HistoryOf(start, s[..k])
      ensures e.height <= start + k
    {
      HistoryPlaced(start, s[..k], e);
    }
    forall e | e in HistoryOf(start + k, s[k..])
      ensures e.height > start + k
    {
      HistoryPlaced(start + k, s[k..], e);
    }
  }
}
