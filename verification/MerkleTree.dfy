/**
 The tree a block's transaction section is committed under, level by level: leaves under the
 prefix 0, nodes under the prefix 1, a node without a right sibling over its left child alone,
 and even one leaf with a parent. Inclusion paths are read and written over it.

 The digest is any function of bytes. What is proved of a root is proved where the digest does
 not collide on the strings that were actually hashed, which `Binds` says.
 */
module MerkleTree {
  import opened Wrappers
  import opened ErgoScan

  type Bytes = seq<Byte>
  type Hash = Bytes -> Bytes

  /** The digest's width. */
  ghost predicate Wide(h: Hash) {
    forall x :: |h(x)| == 32
  }

  /** No two of the strings `asked` share a digest. */
  ghost predicate Binds(h: Hash, asked: iset<Bytes>) {
    forall x, y :: x in asked && y in asked && h(x) == h(y) ==> x == y
  }

  function Pow2(k: nat): (p: nat)
    ensures p > 0
  {
    if k == 0 then 1 else 2 * Pow2(k - 1)
  }

  /** `j >> k`. */
  function Shift(j: nat, k: nat): nat {
    if k == 0 then j else Shift(j, k - 1) / 2
  }

  // ----- The tree

  /** The bytes the node over `level[2 * i]` hashes: its two children, or a lone child. */
  function NodeBytes(level: seq<Bytes>, i: nat): Bytes
    requires 2 * i < |level|
  {
    if 2 * i + 1 < |level| then [1] + level[2 * i] + level[2 * i + 1] else [1] + level[2 * i]
  }

  function Above(h: Hash, level: seq<Bytes>): (up: seq<Bytes>)
    ensures |up| == (|level| + 1) / 2
  {
    seq((|level| + 1) / 2, i requires 0 <= i < (|level| + 1) / 2 => h(NodeBytes(level, i)))
  }

  function LeafLevel(h: Hash, leaves: seq<Bytes>): (level: seq<Bytes>)
    ensures |level| == |leaves|
  {
    seq(|leaves|, i requires 0 <= i < |leaves| => h([0] + leaves[i]))
  }

  /** The tree's level `k`, level 0 the hashed leaves. */
  function LevelAt(h: Hash, leaves: seq<Bytes>, k: nat): (level: seq<Bytes>)
    ensures |leaves| > 0 ==> |level| > 0
  {
    if k == 0 then LeafLevel(h, leaves) else Above(h, LevelAt(h, leaves, k - 1))
  }

  lemma LevelUp(h: Hash, leaves: seq<Bytes>, k: nat)
    ensures LevelAt(h, leaves, k + 1) == Above(h, LevelAt(h, leaves, k))
    ensures |LevelAt(h, leaves, k + 1)| == (|LevelAt(h, leaves, k)| + 1) / 2
    ensures forall i: nat :: 2 * i < |LevelAt(h, leaves, k)| ==> LevelAt(h, leaves, k + 1)[i] == h(NodeBytes(LevelAt(h, leaves, k), i))
  {
    hide NodeBytes;
  }

  /** The levels above the leaves of a tree over `n` of them. */
  function Depth(n: nat): (d: nat)
    requires n > 0
    ensures d > 0
  {
    if n <= 2 then 1 else 1 + Depth((n + 1) / 2)
  }

  /** The root: the one node of the tree's top level. */
  function Root(h: Hash, leaves: seq<Bytes>): Bytes
    requires |leaves| > 0
  {
    LevelAt(h, leaves, Depth(|leaves|))[0]
  }

  /** From level `k` it is `Depth` of that level's width to the top, and no less: the level below
      the top holds more than one node, or is the leaves. */
  lemma {:induction false} TopIsNarrow(h: Hash, leaves: seq<Bytes>, k: nat, d: nat)
    requires |leaves| > 0 && d == Depth(|LevelAt(h, leaves, k)|)
    ensures |LevelAt(h, leaves, k + d)| == 1
    ensures forall e: nat :: k < e < k + d ==> |LevelAt(h, leaves, e)| > 1
    decreases d
  {
    var level := LevelAt(h, leaves, k);
    assert LevelAt(h, leaves, k + 1) == Above(h, level);
    if |level| > 2 {
      TopIsNarrow(h, leaves, k + 1, d - 1);
    }
  }

  /** The root is found at the first level above the leaves holding one node. */
  lemma {:induction false} FirstNarrow(h: Hash, leaves: seq<Bytes>, k: nat)
    requires |leaves| > 0 && k > 0 && |LevelAt(h, leaves, k)| == 1
    requires k == 1 || |LevelAt(h, leaves, k - 1)| > 1
    ensures k == Depth(|leaves|)
  {
    var d := Depth(|leaves|);
    TopIsNarrow(h, leaves, 0, d);
    if d < k {
      StaysNarrow(h, leaves, d, k - 1);
    }
  }

  lemma {:induction false} StaysNarrow(h: Hash, leaves: seq<Bytes>, j: nat, k: nat)
    requires |leaves| > 0 && j <= k && |LevelAt(h, leaves, j)| == 1
    ensures |LevelAt(h, leaves, k)| == 1
    decreases k - j
  {
    if j < k {
      assert LevelAt(h, leaves, j + 1) == Above(h, LevelAt(h, leaves, j));
      StaysNarrow(h, leaves, j + 1, k);
    }
  }

  method NextLevel(h: Hash, level: seq<Bytes>) returns (next: seq<Bytes>)
    ensures next == Above(h, level)
  {
    next := [];
    var i := 0;
    while i < |level|
      invariant i % 2 == 0 && i <= |level| + 1 && |next| == i / 2
      invariant forall p :: 0 <= p < |next| ==> next[p] == h(NodeBytes(level, p))
    {
      next := next + [if i + 1 < |level| then h([1] + level[i] + level[i + 1]) else h([1] + level[i])];
      assert i / 2 * 2 == i;
      i := i + 2;
    }
  }

  /** `merkleRoot`: a level at a time until one node is left. */
  method MerkleRoot(h: Hash, leaves: seq<Bytes>) returns (root: Option<Bytes>)
    ensures root == if leaves == [] then None else Some(Root(h, leaves))
  {
    if leaves == [] {
      return None;
    }
    var level := LeafLevel(h, leaves);
    ghost var k: nat := 0;
    ghost var d := Depth(|leaves|);
    TopIsNarrow(h, leaves, 0, d);
    var started := false;
    while !started || |level| > 1
      invariant level == LevelAt(h, leaves, k) && k <= d && |level| > 0
      invariant started <==> k > 0
      invariant !started || |level| > 1 ==> k < d
      decreases d - k
    {
      var next := NextLevel(h, level);
      level, k, started := next, k + 1, true;
      if |level| > 1 && k == d {
        assert false;
      }
    }
    FirstNarrow(h, leaves, k);
    return Some(level[0]);
  }

  // ----- Inclusion paths

  /** A step of an inclusion path: a sibling, or a lone child. */
  datatype InclusionStep = Sibling(digest: Bytes) | Lone

  function Side(j: nat, k: nat): nat {
    Shift(j, k) % 2
  }

  /** The bytes the last step of a path hashes over `below`. */
  function StepBytes(below: Bytes, bit: nat, step: InclusionStep): Bytes {
    match step
    case Lone => [1] + below
    case Sibling(d) => if bit == 1 then [1] + d + below else [1] + below + d
  }

  /** The bytes hashed at the top of the first steps of a path from the leaf `id`. */
  function ClimbBytes(h: Hash, id: Bytes, j: nat, steps: seq<InclusionStep>): Bytes
    decreases |steps|
  {
    if steps == [] then [0] + id
    else
      var l := |steps| - 1;
      StepBytes(h(ClimbBytes(h, id, j, steps[..l])), Side(j, l), steps[l])
  }

  function Climb(h: Hash, id: Bytes, j: nat, steps: seq<InclusionStep>): Bytes {
    h(ClimbBytes(h, id, j, steps))
  }

  /** A path read at position `j`: as many steps as `j` has bits at least, siblings as wide as a
      digest, a lone child only on the left. */
  predicate WellFormed(j: nat, steps: seq<InclusionStep>) {
    && 0 < |steps| <= 32
    && Shift(j, |steps|) == 0
    && forall l :: 0 <= l < |steps| ==> StepWellFormed(j, l, steps[l])
  }

  predicate StepWellFormed(j: nat, l: nat, step: InclusionStep) {
    match step
    case Lone => Side(j, l) == 0
    case Sibling(d) => |d| == 32
  }

  /** `inclusionRoot`: the root a path gives, or nothing for a path no reader takes. */
  method InclusionRoot(h: Hash, id: Bytes, j: int, steps: seq<InclusionStep>) returns (root: Option<Bytes>)
    ensures root == if |id| == 32 && 0 <= j < 0x1_0000_0000 && WellFormed(j, steps) then Some(Climb(h, id, j, steps)) else None
  {
    if |id| != 32 || !(0 <= j < 0x1_0000_0000) || |steps| == 0 || |steps| > 32 || Shift(j, |steps|) != 0 {
      return None;
    }
    var current := h([0] + id);
    var l := 0;
    while l < |steps|
      invariant l <= |steps|
      invariant current == Climb(h, id, j, steps[..l])
      invariant forall p :: 0 <= p < l ==> StepWellFormed(j, p, steps[p])
    {
      var step := steps[l];
      var right := Shift(j, l) % 2;
      assert Side(j, l) == right;
      assert steps[..l + 1][..l] == steps[..l] && steps[..l + 1][l] == step;
      match step {
        case Lone =>
          if right == 1 {
            assert !StepWellFormed(j, l, step);
            return None;
          }
          current := h([1] + current);
        case Sibling(d) =>
          if |d| != 32 {
            assert !StepWellFormed(j, l, step);
            return None;
          }
          current := if right == 1 then h([1] + d + current) else h([1] + current + d);
      }
      l := l + 1;
    }
    assert steps[..l] == steps;
    return Some(current);
  }

  /** The step at `at` of level `k`: its sibling there, or none. */
  function StepAt(level: seq<Bytes>, at: nat): InclusionStep
    requires at < |level|
  {
    if at % 2 == 1 then Sibling(level[at - 1]) else if at + 1 < |level| then Sibling(level[at + 1]) else Lone
  }

  lemma {:induction false} PlaceInLevel(h: Hash, leaves: seq<Bytes>, j: nat, k: nat)
    requires j < |leaves|
    ensures Shift(j, k) < |LevelAt(h, leaves, k)|
  {
    if k > 0 {
      PlaceInLevel(h, leaves, j, k - 1);
    }
  }

  /** `inclusionPath`: the steps from position `j` to the root. */
  method InclusionPath(h: Hash, leaves: seq<Bytes>, j: int) returns (path: Option<seq<InclusionStep>>)
    ensures path.Some? <==> 0 <= j < |leaves|
    ensures path.Some? ==> PathOf(h, leaves, j, path.value)
  {
    hide StepsOf, LevelAt, Above, Shift, StepAt;
    if |leaves| == 0 || !(0 <= j < |leaves|) {
      return None;
    }
    var level := LeafLevel(h, leaves);
    StepsBegin(h, leaves, j);
    var at: nat := j;
    var steps: seq<InclusionStep> := [];
    ghost var d := Depth(|leaves|);
    TopIsNarrow(h, leaves, 0, d);
    var started := false;
    while !started || |level| > 1
      invariant level == LevelAt(h, leaves, |steps|) && |steps| <= d
      invariant at == Shift(j, |steps|) && at < |level|
      invariant started <==> |steps| > 0
      invariant !started || |level| > 1 ==> |steps| < d
      invariant StepsOf(h, leaves, j, steps)
      decreases d - |steps|
    {
      ghost var k := |steps|;
      var sibling := if at % 2 == 0 then (if at + 1 < |level| then Sibling(level[at + 1]) else Lone) else Sibling(level[at - 1]);
      StepsExtend(h, leaves, j, steps, sibling);
      steps := steps + [sibling];
      var next := NextLevel(h, level);
      LevelUp(h, leaves, k);
      PlaceInLevel(h, leaves, j, k + 1);
      ShiftUp(j, k);
      level, at, started := next, at / 2, true;
    }
    FirstNarrow(h, leaves, |steps|);
    return Some(steps);
  }

  ghost predicate StepsOf(h: Hash, leaves: seq<Bytes>, j: nat, steps: seq<InclusionStep>) {
    forall l :: 0 <= l < |steps| ==> Shift(j, l) < |LevelAt(h, leaves, l)| && steps[l] == StepAt(LevelAt(h, leaves, l), Shift(j, l))
  }

  lemma StepsBegin(h: Hash, leaves: seq<Bytes>, j: nat)
    ensures LevelAt(h, leaves, 0) == LeafLevel(h, leaves) && Shift(j, 0) == j && StepsOf(h, leaves, j, [])
  {
  }

  lemma ShiftUp(j: nat, k: nat)
    ensures Shift(j, k + 1) == Shift(j, k) / 2
  {
  }

  lemma StepsExtend(h: Hash, leaves: seq<Bytes>, j: nat, steps: seq<InclusionStep>, step: InclusionStep)
    requires StepsOf(h, leaves, j, steps) && Shift(j, |steps|) < |LevelAt(h, leaves, |steps|)|
    requires
      var level, at := LevelAt(h, leaves, |steps|), Shift(j, |steps|);
      step == if at % 2 == 0 then (if at + 1 < |level| then Sibling(level[at + 1]) else Lone) else Sibling(level[at - 1])
    ensures StepsOf(h, leaves, j, steps + [step])
  {
    hide LevelAt, Shift;
    forall l | 0 <= l < |steps| + 1
      ensures Shift(j, l) < |LevelAt(h, leaves, l)| && (steps + [step])[l] == StepAt(LevelAt(h, leaves, l), Shift(j, l))
    {
      if l < |steps| {
        assert (steps + [step])[l] == steps[l];
      }
    }
  }

  /** The true path of position `j`: each level's sibling, the leaves' first, to the root. */
  ghost predicate PathOf(h: Hash, leaves: seq<Bytes>, j: nat, steps: seq<InclusionStep>)
    requires j < |leaves|
  {
    |steps| == Depth(|leaves|) && StepsOf(h, leaves, j, steps)
  }

  lemma StepMakesNode(level: seq<Bytes>, at: nat)
    requires at < |level|
    ensures StepBytes(level[at], at % 2, StepAt(level, at)) == NodeBytes(level, at / 2)
  {
    var i := at / 2;
    assert at == 2 * i || at == 2 * i + 1;
  }

  /** Climbing the true path passes through the tree's own nodes. */
  lemma {:induction false} ClimbPassesNodes(h: Hash, leaves: seq<Bytes>, j: nat, steps: seq<InclusionStep>)
    requires j < |leaves| && StepsOf(h, leaves, j, steps)
    ensures Shift(j, |steps|) < |LevelAt(h, leaves, |steps|)|
    ensures Climb(h, leaves[j], j, steps) == LevelAt(h, leaves, |steps|)[Shift(j, |steps|)]
    decreases |steps|
  {
    hide LevelAt, Above, StepAt, StepBytes, NodeBytes;
    PlaceInLevel(h, leaves, j, |steps|);
    if steps == [] {
      StepsBegin(h, leaves, j);
    } else {
      var l := |steps| - 1;
      var level, at := LevelAt(h, leaves, l), Shift(j, l);
      assert forall p :: 0 <= p < l ==> steps[..l][p] == steps[p];
      ClimbPassesNodes(h, leaves, j, steps[..l]);
      assert steps[l] == StepAt(level, at);
      StepMakesNode(level, at);
      LevelUp(h, leaves, l);
      ShiftUp(j, l);
    }
  }

  /** A tree of at most 2^k leaves is at most `k` deep, and exactly then. */
  lemma {:induction false} DepthBound(n: nat, k: nat)
    requires n > 0 && k > 0
    ensures Depth(n) <= k <==> n <= Pow2(k)
  {
    if n > 2 && k > 1 {
      DepthBound((n + 1) / 2, k - 1);
    }
  }

  lemma {:induction false} Pow2Of32()
    ensures Pow2(32) == 0x1_0000_0000
  {
    assert Pow2(4) == 16;
    assert Pow2(8) == 256 by { assert Pow2(5) == 32; assert Pow2(6) == 64; assert Pow2(7) == 128; }
    Pow2Sum(8, 8);
    Pow2Sum(16, 16);
  }

  lemma {:induction false} Pow2Sum(a: nat, b: nat)
    ensures Pow2(a + b) == Pow2(a) * Pow2(b)
  {
    if a > 0 {
      Pow2Sum(a - 1, b);
      assert Pow2(a + b) == 2 * Pow2(a - 1 + b);
      assert 2 * (Pow2(a - 1) * Pow2(b)) == (2 * Pow2(a - 1)) * Pow2(b);
    }
  }

  /** Round trip: for a section of up to 2^32 leaves, the path of any 32-byte leaf is one a reader
      takes, and it gives the section's root. */
  lemma {:induction false} PathGivesRoot(h: Hash, leaves: seq<Bytes>, j: nat, steps: seq<InclusionStep>)
    requires Wide(h) && j < |leaves| <= 0x1_0000_0000 && PathOf(h, leaves, j, steps)
    ensures WellFormed(j, steps) && Climb(h, leaves[j], j, steps) == Root(h, leaves)
  {
    hide LevelAt, Above, ClimbBytes, Shift, Pow2;
    var d := |steps|;
    Pow2Of32();
    DepthBound(|leaves|, 32);
    DepthBound(|leaves|, d);
    StepsBegin(h, leaves, j);
    TopIsNarrow(h, leaves, 0, d);
    ClimbPassesNodes(h, leaves, j, steps);
    forall l | 0 <= l < d
      ensures StepWellFormed(j, l, steps[l])
    {
      PlaceInLevel(h, leaves, j, l);
      var level, at := LevelAt(h, leaves, l), Shift(j, l);
      assert steps[l] == StepAt(level, at) && Side(j, l) == at % 2;
      NodesWide(h, leaves, l);
    }
  }

  lemma NodesWide(h: Hash, leaves: seq<Bytes>, k: nat)
    requires Wide(h)
    ensures forall i :: 0 <= i < |LevelAt(h, leaves, k)| ==> |LevelAt(h, leaves, k)[i]| == 32
  {
    forall i | 0 <= i < |LevelAt(h, leaves, k)|
      ensures |LevelAt(h, leaves, k)[i]| == 32
    {
      if k > 0 {
        var level := LevelAt(h, leaves, k - 1);
        assert LevelAt(h, leaves, k)[i] == h(NodeBytes(level, i));
      }
    }
  }

  // ----- What a root proves

  /** The strings a tree over `leaves` hashes, below its root. */
  ghost function TreeStrings(h: Hash, leaves: seq<Bytes>): iset<Bytes> {
    iset x | IsLeafString(leaves, x) || IsNodeString(h, leaves, x)
  }

  ghost predicate IsLeafString(leaves: seq<Bytes>, x: Bytes) {
    exists i :: 0 <= i < |leaves| && x == [0] + leaves[i]
  }

  ghost predicate IsNodeString(h: Hash, leaves: seq<Bytes>, x: Bytes) {
    |leaves| > 0 && exists k: nat, i: nat :: k < Depth(|leaves|) && 2 * i < |LevelAt(h, leaves, k)| && x == NodeBytes(LevelAt(h, leaves, k), i)
  }

  /** The strings a reader hashes over a path. */
  ghost function PathStrings(h: Hash, id: Bytes, j: nat, steps: seq<InclusionStep>): iset<Bytes> {
    iset l: nat | l <= |steps| :: ClimbBytes(h, id, j, steps[..l])
  }

  lemma LeafAsked(h: Hash, leaves: seq<Bytes>, i: nat)
    requires i < |leaves|
    ensures [0] + leaves[i] in TreeStrings(h, leaves)
    ensures LevelAt(h, leaves, 0)[i] == h([0] + leaves[i])
  {
    assert IsLeafString(leaves, [0] + leaves[i]);
  }

  lemma NodeAsked(h: Hash, leaves: seq<Bytes>, k: nat, i: nat)
    requires |leaves| > 0 && k < Depth(|leaves|) && 2 * i < |LevelAt(h, leaves, k)|
    ensures NodeBytes(LevelAt(h, leaves, k), i) in TreeStrings(h, leaves)
    ensures NodeBytes(LevelAt(h, leaves, k), i)[0] == 1
  {
    hide LevelAt;
    assert IsNodeString(h, leaves, NodeBytes(LevelAt(h, leaves, k), i));
  }

  lemma LastClimb(h: Hash, id: Bytes, j: nat, steps: seq<InclusionStep>)
    ensures ClimbBytes(h, id, j, steps) in PathStrings(h, id, j, steps)
    ensures |ClimbBytes(h, id, j, steps)| > 0
    ensures ClimbBytes(h, id, j, steps)[0] == if steps == [] then 0 else 1
    ensures steps != [] ==> PathStrings(h, id, j, steps[..|steps| - 1]) <= PathStrings(h, id, j, steps)
  {
    assert steps[..|steps|] == steps;
    if steps != [] {
      var l := |steps| - 1;
      forall p: nat | p <= l
        ensures ClimbBytes(h, id, j, steps[..l][..p]) in PathStrings(h, id, j, steps)
      {
        assert steps[..l][..p] == steps[..p];
      }
    }
  }

  /** One level down: where a climb meets a node of the tree it meets that node's child, or, at
      the bottom of either, the leaf itself. */
  lemma {:induction false} DescendsToLeaf(h: Hash, leaves: seq<Bytes>, asked: iset<Bytes>, k: nat, i: nat, id: Bytes, j: nat, steps: seq<InclusionStep>)
    requires Wide(h) && Binds(h, asked) && TreeStrings(h, leaves) <= asked && PathStrings(h, id, j, steps) <= asked
    requires |leaves| > 0 && k <= Depth(|leaves|) && i < |LevelAt(h, leaves, k)| && i == Shift(j, |steps|)
    requires forall l :: 0 <= l < |steps| ==> StepWellFormed(j, l, steps[l])
    requires Climb(h, id, j, steps) == LevelAt(h, leaves, k)[i]
    ensures |steps| == k && j < |leaves| && leaves[j] == id
    decreases |steps|
  {
    hide LevelAt, Above, NodeBytes, StepBytes, TreeStrings, PathStrings;
    var climbed := ClimbBytes(h, id, j, steps);
    LastClimb(h, id, j, steps);
    if k == 0 {
      StepsBegin(h, leaves, j);
      LeafAsked(h, leaves, i);
      var node := [0] + leaves[i];
      assert climbed == node;
      assert steps == [];
      assert climbed[1..] == id && node[1..] == leaves[i];
    } else {
      var level := LevelAt(h, leaves, k - 1);
      LevelUp(h, leaves, k - 1);
      NodeAsked(h, leaves, k - 1, i);
      assert climbed == NodeBytes(level, i);
      assert steps != [];
      var l := |steps| - 1;
      var below, bit := Climb(h, id, j, steps[..l]), Side(j, l);
      ShiftUp(j, l);
      assert Shift(j, l) == 2 * i + bit;
      NodesWide(h, leaves, k - 1);
      assert StepWellFormed(j, l, steps[l]);
      ChildOfEqual(level, i, below, bit, steps[l]);
      assert forall p :: 0 <= p < l ==> steps[..l][p] == steps[p];
      DescendsToLeaf(h, leaves, asked, k - 1, 2 * i + bit, id, j, steps[..l]);
    }
  }

  /** A node's bytes fix its children: a pair is 65 bytes, a lone child 33. */
  lemma ChildOfEqual(level: seq<Bytes>, i: nat, below: Bytes, bit: nat, step: InclusionStep)
    requires 2 * i < |level| && |below| == 32 && bit < 2
    requires forall p :: 0 <= p < |level| ==> |level[p]| == 32
    requires step.Lone? ==> bit == 0
    requires step.Sibling? ==> |step.digest| == 32
    requires StepBytes(below, bit, step) == NodeBytes(level, i)
    ensures 2 * i + bit < |level| && level[2 * i + bit] == below
  {
    var x := NodeBytes(level, i);
    match step {
      case Lone =>
        assert |x| == 33;
        assert x[1..33] == below && x[1..33] == level[2 * i];
      case Sibling(d) =>
        assert |x| == 65;
        assert x[1..33] == level[2 * i] && x[33..65] == level[2 * i + 1];
        if bit == 1 {
          assert x[1..33] == d && x[33..65] == below;
        } else {
          assert x[1..33] == below && x[33..65] == d;
        }
    }
  }

  /** Soundness: where the digest does not collide on the strings hashed, a path read at `j` that
      gives a section's root has `id` as the section's leaf `j`. */
  lemma {:induction false} AcceptedPathNamesLeaf(h: Hash, leaves: seq<Bytes>, id: Bytes, j: nat, steps: seq<InclusionStep>)
    requires Wide(h) && |leaves| > 0 && WellFormed(j, steps)
    requires Binds(h, TreeStrings(h, leaves) + PathStrings(h, id, j, steps))
    requires Climb(h, id, j, steps) == Root(h, leaves)
    ensures j < |leaves| && leaves[j] == id && |steps| == Depth(|leaves|)
  {
    TopIsNarrow(h, leaves, 0, Depth(|leaves|));
    DescendsToLeaf(h, leaves, TreeStrings(h, leaves) + PathStrings(h, id, j, steps), Depth(|leaves|), 0, id, j, steps);
  }

  /** The string a node of level `k` hashes. */
  ghost function StringAt(h: Hash, leaves: seq<Bytes>, k: nat, i: nat): (x: Bytes)
    requires i < |LevelAt(h, leaves, k)|
  {
    if k == 0 then [0] + leaves[i] else NodeBytes(LevelAt(h, leaves, k - 1), i)
  }

  lemma StringAtAsked(h: Hash, leaves: seq<Bytes>, k: nat, i: nat)
    requires |leaves| > 0 && k <= Depth(|leaves|) && i < |LevelAt(h, leaves, k)|
    ensures StringAt(h, leaves, k, i) in TreeStrings(h, leaves)
    ensures h(StringAt(h, leaves, k, i)) == LevelAt(h, leaves, k)[i]
  {
    hide TreeStrings, NodeBytes, LevelAt, Above;
    if k == 0 {
      StepsBegin(h, leaves, 0);
      LeafAsked(h, leaves, i);
    } else {
      LevelUp(h, leaves, k - 1);
      NodeAsked(h, leaves, k - 1, i);
    }
  }

  lemma StringAtPrefix(h: Hash, leaves: seq<Bytes>, k: nat, i: nat)
    requires i < |LevelAt(h, leaves, k)|
    ensures [if k == 0 then 0 else 1] <= StringAt(h, leaves, k, i)
  {
    hide LevelAt;
  }

  /** Equal levels stand over equal leaves, at equal heights. */
  lemma {:induction false} LevelsBind(h: Hash, a: seq<Bytes>, b: seq<Bytes>, asked: iset<Bytes>, k: nat, l: nat)
    requires Wide(h) && |a| > 0 && |b| > 0 && Binds(h, asked)
    requires TreeStrings(h, a) <= asked && TreeStrings(h, b) <= asked
    requires k <= Depth(|a|) && l <= Depth(|b|)
    requires LevelAt(h, a, k) == LevelAt(h, b, l)
    ensures a == b
    decreases k
  {
    hide LevelAt, Above, TreeStrings, NodeBytes, StringAt;
    var up := LevelAt(h, a, k);
    forall i: nat | i < |up|
      ensures StringAt(h, a, k, i) == StringAt(h, b, l, i)
    {
      StringAtAsked(h, a, k, i);
      StringAtAsked(h, b, l, i);
    }
    assert k == 0 <==> l == 0 by {
      StringAtPrefix(h, a, k, 0);
      StringAtPrefix(h, b, l, 0);
      assert StringAt(h, a, k, 0)[0] == StringAt(h, b, l, 0)[0];
    }
    if k == 0 {
      LeavesOfStrings(h, a, b);
    } else {
      ChildrenOfStrings(h, a, b, k, l);
      LevelsBind(h, a, b, asked, k - 1, l - 1);
    }
  }

  lemma LeavesOfStrings(h: Hash, a: seq<Bytes>, b: seq<Bytes>)
    requires |LevelAt(h, a, 0)| == |LevelAt(h, b, 0)|
    requires forall i: nat :: i < |LevelAt(h, a, 0)| ==> StringAt(h, a, 0, i) == StringAt(h, b, 0, i)
    ensures a == b
  {
    forall i: nat | i < |a|
      ensures a[i] == b[i]
    {
      assert StringAt(h, a, 0, i) == StringAt(h, b, 0, i);
      assert StringAt(h, a, 0, i)[1..] == a[i] && StringAt(h, b, 0, i)[1..] == b[i];
    }
  }

  lemma ChildrenOfStrings(h: Hash, a: seq<Bytes>, b: seq<Bytes>, k: nat, l: nat)
    requires k > 0 && l > 0 && Wide(h) && |a| > 0 && |LevelAt(h, a, k)| == |LevelAt(h, b, l)|
    requires forall i: nat :: i < |LevelAt(h, a, k)| ==> StringAt(h, a, k, i) == StringAt(h, b, l, i)
    ensures LevelAt(h, a, k - 1) == LevelAt(h, b, l - 1)
  {
    hide LevelAt, Above, NodeBytes;
    var p, q := LevelAt(h, a, k - 1), LevelAt(h, b, l - 1);
    LevelUp(h, a, k - 1);
    LevelUp(h, b, l - 1);
    NodesWide(h, a, k - 1);
    NodesWide(h, b, l - 1);
    forall i: nat | 2 * i < |p|
      ensures SameAt(p, q, i)
    {
      assert StringAt(h, a, k, i) == StringAt(h, b, l, i);
    }
    SameNodes(p, q);
  }

  ghost predicate SameAt(p: seq<Bytes>, q: seq<Bytes>, i: nat) {
    2 * i < |p| && 2 * i < |q| && NodeBytes(p, i) == NodeBytes(q, i)
  }

  lemma SameNode(p: seq<Bytes>, q: seq<Bytes>, m: nat)
    requires 2 * m < |p| && 2 * m < |q| && NodeBytes(p, m) == NodeBytes(q, m)
    requires forall i :: 0 <= i < |p| ==> |p[i]| == 32
    requires forall i :: 0 <= i < |q| ==> |q[i]| == 32
    ensures p[2 * m] == q[2 * m]
    ensures 2 * m + 1 < |p| <==> 2 * m + 1 < |q|
    ensures 2 * m + 1 < |p| ==> p[2 * m + 1] == q[2 * m + 1]
  {
    var x := NodeBytes(p, m);
    assert x[1..33] == p[2 * m] && x[1..33] == q[2 * m];
    if 2 * m + 1 < |p| && 2 * m + 1 < |q| {
      assert x[33..65] == p[2 * m + 1] && x[33..65] == q[2 * m + 1];
    }
  }

  lemma SameNodes(p: seq<Bytes>, q: seq<Bytes>)
    requires |p| > 0 && (|p| + 1) / 2 == (|q| + 1) / 2
    requires forall i :: 0 <= i < |p| ==> |p[i]| == 32
    requires forall i :: 0 <= i < |q| ==> |q[i]| == 32
    requires forall i: nat :: 2 * i < |p| ==> SameAt(p, q, i)
    ensures p == q
  {
    hide NodeBytes;
    assert SameAt(p, q, (|p| - 1) / 2);
    SameNode(p, q, (|p| - 1) / 2);
    forall i | 0 <= i < |p|
      ensures p[i] == q[i]
    {
      assert SameAt(p, q, i / 2);
      SameNode(p, q, i / 2);
    }
  }

  lemma NarrowLevelsEqual(a: seq<Bytes>, b: seq<Bytes>)
    requires |a| == |b| == 1 && a[0] == b[0]
    ensures a == b
  {
  }

  /** A root commits to the whole list of leaves, its length included. */
  lemma {:induction false} RootBindsLeaves(h: Hash, a: seq<Bytes>, b: seq<Bytes>)
    requires Wide(h) && |a| > 0 && |b| > 0
    requires Binds(h, TreeStrings(h, a) + TreeStrings(h, b))
    ensures Root(h, a) == Root(h, b) <==> a == b
  {
    if Root(h, a) == Root(h, b) {
      TopIsNarrow(h, a, 0, Depth(|a|));
      TopIsNarrow(h, b, 0, Depth(|b|));
      NarrowLevelsEqual(LevelAt(h, a, Depth(|a|)), LevelAt(h, b, Depth(|b|)));
      LevelsBind(h, a, b, TreeStrings(h, a) + TreeStrings(h, b), Depth(|a|), Depth(|b|));
    }
  }

  // ----- A section's two rules

  /** A transaction as its section commits to it. */
  datatype Committed = Committed(id: Bytes, witnessId: Bytes)

  function Ids(section: seq<Committed>): (ids: seq<Bytes>)
    ensures |ids| == |section|
  {
    seq(|section|, i requires 0 <= i < |section| => section[i].id)
  }

  function WitnessIds(section: seq<Committed>): (ids: seq<Bytes>)
    ensures |ids| == |section|
  {
    seq(|section|, i requires 0 <= i < |section| => section[i].witnessId)
  }

  /** The widths by which the two rules cannot collide. */
  predicate Committable(section: seq<Committed>) {
    forall i :: 0 <= i < |section| ==> |section[i].id| == 32 && |section[i].witnessId| == 31
  }

  /** The leaves under a section's version: the ids alone, or the ids and then the witness ids. */
  function RuleLeaves(idsOnly: bool, section: seq<Committed>): seq<Bytes> {
    if idsOnly then Ids(section) else Ids(section) + WitnessIds(section)
  }

  /** Two sections of one root hold the same ids in the same order, under the same rule; under
      the rule that commits to them, the same witness ids. */
  lemma {:induction false} RulesDoNotMix(h: Hash, s: seq<Committed>, t: seq<Committed>, sIdsOnly: bool, tIdsOnly: bool)
    requires Wide(h) && s != [] && t != [] && Committable(s) && Committable(t)
    requires Binds(h, TreeStrings(h, RuleLeaves(sIdsOnly, s)) + TreeStrings(h, RuleLeaves(tIdsOnly, t)))
    requires Root(h, RuleLeaves(sIdsOnly, s)) == Root(h, RuleLeaves(tIdsOnly, t))
    ensures sIdsOnly == tIdsOnly && Ids(s) == Ids(t) && (sIdsOnly || s == t)
  {
    hide TreeStrings, Root;
    var a, b := RuleLeaves(sIdsOnly, s), RuleLeaves(tIdsOnly, t);
    RootBindsLeaves(h, a, b);
    assert a == b;
    LastLeafWidth(s, sIdsOnly);
    LastLeafWidth(t, tIdsOnly);
    assert |s| == |t|;
    forall i | 0 <= i < |s|
      ensures s[i].id == t[i].id && (sIdsOnly || s[i] == t[i])
    {
      assert a[i] == s[i].id && b[i] == t[i].id;
      if !sIdsOnly {
        assert a[|s| + i] == s[i].witnessId && b[|t| + i] == t[i].witnessId;
      }
    }
  }

  lemma LastLeafWidth(s: seq<Committed>, idsOnly: bool)
    requires s != [] && Committable(s)
    ensures var a := RuleLeaves(idsOnly, s); |a| > 0 && |a[|a| - 1]| == if idsOnly then 32 else 31
  {
    var a := RuleLeaves(idsOnly, s);
    if idsOnly {
      assert a[|a| - 1] == s[|s| - 1].id;
    } else {
      assert a[|a| - 1] == s[|s| - 1].witnessId;
    }
  }

  /** A path to the root that either rule gives a section, from any position, proves that position
      of the section: a witness id is never taken for an id. */
  lemma {:induction false} AcceptedPathNamesTransaction(h: Hash, section: seq<Committed>, idsOnly: bool, id: Bytes, j: nat, steps: seq<InclusionStep>)
    requires Wide(h) && section != [] && Committable(section) && |id| == 32 && WellFormed(j, steps)
    requires Binds(h, TreeStrings(h, RuleLeaves(idsOnly, section)) + PathStrings(h, id, j, steps))
    requires Climb(h, id, j, steps) == Root(h, RuleLeaves(idsOnly, section))
    ensures j < |section| && section[j].id == id
  {
    var leaves := RuleLeaves(idsOnly, section);
    AcceptedPathNamesLeaf(h, leaves, id, j, steps);
    IdIsOfSection(section, idsOnly, j);
  }

  lemma IdIsOfSection(section: seq<Committed>, idsOnly: bool, j: nat)
    requires Committable(section) && j < |RuleLeaves(idsOnly, section)| && |RuleLeaves(idsOnly, section)[j]| == 32
    ensures j < |section| && RuleLeaves(idsOnly, section)[j] == section[j].id
  {
    assert RuleLeaves(idsOnly, section)[j] == if j < |section| then section[j].id else section[j - |section|].witnessId;
  }

  /** A transaction as a section holds it. */
  datatype SectionTransaction = SectionTransaction(unsigned: Bytes, witnessId: Bytes)

  function UnsignedOf(section: seq<SectionTransaction>): (all: seq<Bytes>)
    ensures |all| == |section|
  {
    seq(|section|, i requires 0 <= i < |section| => section[i].unsigned)
  }

  function Read(h: Hash, section: seq<SectionTransaction>): (read: seq<Committed>)
    ensures |read| == |section|
  {
    seq(|section|, i requires 0 <= i < |section| => Committed(h(section[i].unsigned), section[i].witnessId))
  }

  /** `sectionMatchesRoot`: whether a section reproduces a root under either rule. */
  predicate MatchesRoot(h: Hash, read: seq<Committed>, root: Bytes) {
    && Committable(read) && read != []
    && (Root(h, RuleLeaves(true, read)) == root || Root(h, RuleLeaves(false, read)) == root)
  }

  /** None where the source throws: a section is never empty. */
  method SectionMatchesRoot(h: Hash, read: seq<Committed>, root: Bytes) returns (ok: Option<bool>)
    ensures ok == if read == [] then None else Some(MatchesRoot(h, read, root))
  {
    hide Root;
    if exists i :: 0 <= i < |read| && !(|read[i].id| == 32 && |read[i].witnessId| == 31) {
      return Some(false);
    }
    var idsOnly := MerkleRoot(h, RuleLeaves(true, read));
    if idsOnly.None? {
      return None;
    }
    if idsOnly.value == root {
      return Some(true);
    }
    var both := MerkleRoot(h, RuleLeaves(false, read));
    return Some(both.value == root);
  }

  /** A transaction's path, by the rule that the root comes from: what it
      returns, a reader takes; and it returns one for every section that matches. */
  method SectionInclusionPath(h: Hash, section: seq<SectionTransaction>, root: Bytes, j: nat) returns (path: Option<seq<InclusionStep>>)
    requires Wide(h) && j < |section|
    ensures path.Some? ==> WellFormed(j, path.value) && Climb(h, h(section[j].unsigned), j, path.value) == root
    ensures 2 * |section| <= 0x1_0000_0000 ==> (path.Some? <==> MatchesRoot(h, Read(h, section), root))
  {
    hide Root, Climb, WellFormed, PathOf;
    var read := Read(h, section);
    var matches := SectionMatchesRoot(h, read, root);
    if matches != Some(true) {
      return None;
    }
    path := PathUnder(h, read, true, root, j);
    if path.None? {
      path := PathUnder(h, read, false, root, j);
    }
  }

  method PathUnder(h: Hash, read: seq<Committed>, idsOnly: bool, root: Bytes, j: nat) returns (path: Option<seq<InclusionStep>>)
    requires Wide(h) && j < |read| && Committable(read)
    ensures path.Some? ==> WellFormed(j, path.value) && Climb(h, read[j].id, j, path.value) == root
    ensures 2 * |read| <= 0x1_0000_0000 && Root(h, RuleLeaves(idsOnly, read)) == root ==> path.Some?
  {
    hide Root, Climb, WellFormed, PathOf;
    var leaves := RuleLeaves(idsOnly, read);
    assert leaves[j] == read[j].id;
    var steps := InclusionPath(h, leaves, j);
    var given := InclusionRoot(h, read[j].id, j, steps.value);
    if |leaves| <= 0x1_0000_0000 {
      PathGivesRoot(h, leaves, j, steps.value);
    }
    return if given == Some(root) then steps else None;
  }
}
