/**
 A section's root by a stack machine that holds few nodes at a time: two nodes of a level make their
 parent as soon as both are there, and when the leaves are out a node without a neighbour makes it
 alone. The operations follow from how many leaves there are; running them gives the root and never
 holds more than floor(log2 n) + 1 entries.
 */
module MerkleStack {
  import opened Wrappers
  import opened MerkleTree

  datatype Op = Push(leaf: Bytes) | Merge | Lift

  /** One operation on the live entries, oldest first, of which at most `cap` fit. */
  function Exec(h: Hash, live: seq<Bytes>, op: Op, cap: nat): (after: Option<seq<Bytes>>) {
    var n := |live|;
    match op
    case Push(leaf) => if n < cap then Some(live + [h([0] + leaf)]) else None
    case Merge => if n >= 2 then Some(live[..n - 2] + [h([1] + live[n - 2] + live[n - 1])]) else None
    case Lift => if n >= 1 then Some(live[..n - 1] + [h([1] + live[n - 1])]) else None
  }

  /** The live entries after operations on an empty stack, if every one of them applies and fits. */
  function RunOps(h: Hash, ops: seq<Op>, cap: nat): (after: Option<seq<Bytes>>) {
    if ops == [] then Some([])
    else
      var before := RunOps(h, ops[..|ops| - 1], cap);
      if before.None? then None else Exec(h, before.value, ops[|ops| - 1], cap)
  }

  /** The leaves pushed, in order. */
  function Pushed(ops: seq<Op>): seq<Bytes> {
    if ops == [] then []
    else
      var op := ops[|ops| - 1];
      Pushed(ops[..|ops| - 1]) + if op.Push? then [op.leaf] else []
  }

  lemma PushedExtends(ops: seq<Op>, op: Op)
    ensures Pushed(ops + [op]) == Pushed(ops) + if op.Push? then [op.leaf] else []
  {
    assert (ops + [op])[..|ops|] == ops;
  }

  lemma RunExtends(h: Hash, ops: seq<Op>, op: Op, cap: nat)
    requires RunOps(h, ops, cap).Some?
    ensures RunOps(h, ops + [op], cap) == Exec(h, RunOps(h, ops, cap).value, op, cap)
  {
    assert (ops + [op])[..|ops|] == ops;
  }

  /** floor(log2 n). */
  function Log2(n: nat): nat
    requires n > 0
  {
    if n == 1 then 0 else 1 + Log2(n / 2)
  }

  lemma {:induction false} Log2Bound(n: nat, k: nat)
    requires n > 0
    ensures Pow2(k) <= n <==> k <= Log2(n)
  {
    if n > 1 && k > 0 {
      Log2Bound(n / 2, k - 1);
    }
  }

  // ----- What the stack holds

  /** `x` doubled `k` times. */
  function Scale(x: nat, k: nat): nat {
    if k == 0 then x else 2 * Scale(x, k - 1)
  }

  lemma {:induction false} ScaleDouble(x: nat, k: nat)
    ensures Scale(2 * x, k) == 2 * Scale(x, k)
  {
    if k > 0 {
      ScaleDouble(x, k - 1);
    }
  }

  /** Each entry is the tree's node at its level and place, and begins where the one below ends. */
  ghost predicate Stacked(h: Hash, leaves: seq<Bytes>, levels: seq<nat>, places: seq<nat>, live: seq<Bytes>) {
    && |levels| == |places| == |live|
    && (|places| > 0 ==> places[0] == 0)
    && (forall p :: 0 <= p < |live| ==> IsNode(h, leaves, levels[p], places[p], live[p]))
    && (forall p :: 0 < p < |levels| ==> Follows(levels[p - 1], places[p - 1], levels[p], places[p]))
  }

  ghost predicate IsNode(h: Hash, leaves: seq<Bytes>, level: nat, place: nat, digest: Bytes) {
    place < |LevelAt(h, leaves, level)| && LevelAt(h, leaves, level)[place] == digest
  }

  ghost predicate Follows(below: nat, belowPlace: nat, level: nat, place: nat) {
    level <= below && place == Scale(belowPlace + 1, below - level)
  }

  /** Levels strictly falling, the last perhaps level with the one below it. */
  ghost predicate Falling(levels: seq<nat>) {
    forall p :: 0 < p < |levels| - 1 ==> levels[p] < levels[p - 1]
  }

  ghost predicate Settled(levels: seq<nat>) {
    |levels| >= 2 ==> levels[|levels| - 1] < levels[|levels| - 2]
  }

  /** The bottom entry stands at the leaves or over a level of two nodes or more. */
  ghost predicate Grounded(h: Hash, leaves: seq<Bytes>, levels: seq<nat>) {
    |levels| > 0 && levels[0] > 0 ==> |LevelAt(h, leaves, levels[0] - 1)| >= 2
  }

  /** The leaves under the stack. */
  ghost function Weight(levels: seq<nat>): nat {
    if levels == [] then 0 else Weight(levels[..|levels| - 1]) + Pow2(levels[|levels| - 1])
  }

  lemma WeightExtends(levels: seq<nat>, l: nat)
    ensures Weight(levels + [l]) == Weight(levels) + Pow2(l)
  {
    assert (levels + [l])[..|levels|] == levels;
  }

  /** Falling levels weigh at least what their number makes of powers of two. */
  lemma {:induction false} FallingIsHeavy(levels: seq<nat>, base: nat)
    requires Falling(levels) && Settled(levels) && (levels != [] ==> levels[|levels| - 1] >= base)
    ensures Weight(levels) + Pow2(base) >= Pow2(|levels| + base)
    decreases |levels|
  {
    if levels != [] {
      var init := levels[..|levels| - 1];
      assert Settled(init) by {
        if |init| >= 2 { assert levels[|init| - 1] < levels[|init| - 2]; }
      }
      FallingIsHeavy(init, base + 1);
      Pow2Monotone(base, levels[|levels| - 1]);
    }
  }

  lemma {:induction false} Pow2Monotone(a: nat, b: nat)
    requires a <= b
    ensures Pow2(a) <= Pow2(b)
    decreases b
  {
    if a < b {
      Pow2Monotone(a, b - 1);
    }
  }

  // ----- The operations

  lemma LastIsEven(h: Hash, leaves: seq<Bytes>, levels: seq<nat>, places: seq<nat>, live: seq<Bytes>)
    requires Stacked(h, leaves, levels, places, live) && levels != [] && Settled(levels)
    ensures places[|places| - 1] % 2 == 0
    ensures |levels| >= 2 ==> places[|places| - 1] / 2 == Scale(places[|places| - 2] + 1, levels[|levels| - 2] - levels[|levels| - 1] - 1)
  {
    hide IsNode;
    var n := |levels|;
    if n >= 2 {
      assert Follows(levels[n - 2], places[n - 2], levels[n - 1], places[n - 1]);
    }
  }

  /** A change of the last entry keeps the rest. */
  lemma LastReplaced(h: Hash, leaves: seq<Bytes>, levels: seq<nat>, places: seq<nat>, live: seq<Bytes>, level: nat, place: nat, digest: Bytes)
    requires Stacked(h, leaves, levels, places, live)
    requires IsNode(h, leaves, level, place, digest)
    requires if levels == [] then place == 0 else Follows(levels[|levels| - 1], places[|levels| - 1], level, place)
    ensures Stacked(h, leaves, levels + [level], places + [place], live + [digest])
  {
    hide IsNode, Follows;
  }

  lemma Shortened(h: Hash, leaves: seq<Bytes>, levels: seq<nat>, places: seq<nat>, live: seq<Bytes>, n: nat)
    requires Stacked(h, leaves, levels, places, live) && n <= |levels|
    ensures Stacked(h, leaves, levels[..n], places[..n], live[..n])
  {
    hide IsNode, Follows;
  }

  /** The entries from `n` on give way to the parent of the one at `n`. */
  lemma Replaced(h: Hash, leaves: seq<Bytes>, levels: seq<nat>, places: seq<nat>, live: seq<Bytes>, n: nat, level: nat, place: nat, digest: Bytes)
    requires Stacked(h, leaves, levels, places, live) && n < |levels|
    requires IsNode(h, leaves, level, place, digest)
    requires level == levels[n] + 1 && place == places[n] / 2
    requires n > 0 ==> levels[n] < levels[n - 1] && places[n] / 2 == Scale(places[n - 1] + 1, levels[n - 1] - levels[n] - 1)
    ensures Stacked(h, leaves, levels[..n] + [level], places[..n] + [place], live[..n] + [digest])
  {
    hide IsNode;
    Shortened(h, leaves, levels, places, live, n);
    if n > 0 {
      assert Follows(levels[n - 1], places[n - 1], level, place);
    }
    LastReplaced(h, leaves, levels[..n], places[..n], live[..n], level, place, digest);
  }

  lemma MergedNode(h: Hash, leaves: seq<Bytes>, l: nat, i: nat, a: Bytes, b: Bytes)
    requires IsNode(h, leaves, l, i, a) && IsNode(h, leaves, l, i + 1, b) && i % 2 == 0
    ensures IsNode(h, leaves, l + 1, i / 2, h([1] + a + b)) && |LevelAt(h, leaves, l)| >= 2
    ensures |LevelAt(h, leaves, l)| == i + 2 ==> |LevelAt(h, leaves, l + 1)| == i / 2 + 1
  {
    hide LevelAt, Above;
    LevelUp(h, leaves, l);
    assert NodeBytes(LevelAt(h, leaves, l), i / 2) == [1] + a + b;
  }

  lemma LiftedNode(h: Hash, leaves: seq<Bytes>, l: nat, i: nat, a: Bytes)
    requires IsNode(h, leaves, l, i, a) && i % 2 == 0 && i + 1 == |LevelAt(h, leaves, l)|
    ensures IsNode(h, leaves, l + 1, i / 2, h([1] + a))
    ensures |LevelAt(h, leaves, l + 1)| == i / 2 + 1
  {
    hide LevelAt, Above;
    LevelUp(h, leaves, l);
    assert NodeBytes(LevelAt(h, leaves, l), i / 2) == [1] + a;
  }

  lemma MergedWeight(levels: seq<nat>)
    requires |levels| >= 2 && levels[|levels| - 1] == levels[|levels| - 2]
    ensures var n := |levels| - 2; Weight(levels[..n] + [levels[n] + 1]) == Weight(levels)
  {
    var n := |levels| - 2;
    WeightExtends(levels[..n], levels[n] + 1);
    WeightExtends(levels[..n], levels[n]);
    WeightExtends(levels[..n + 1], levels[n]);
    assert levels == levels[..n + 1] + [levels[n]] && levels[..n + 1] == levels[..n] + [levels[n]];
  }

  /** A pair of neighbours on one level becomes their parent. */
  lemma MergeKeeps(h: Hash, leaves: seq<Bytes>, levels: seq<nat>, places: seq<nat>, live: seq<Bytes>)
    returns (levels': seq<nat>, places': seq<nat>)
    requires Stacked(h, leaves, levels, places, live) && Falling(levels) && Grounded(h, leaves, levels)
    requires |levels| >= 2 && levels[|levels| - 1] == levels[|levels| - 2]
    ensures var n := |levels| - 2;
      && levels' == levels[..n] + [levels[n] + 1] && |places'| == n + 1
      && Stacked(h, leaves, levels', places', live[..n] + [h([1] + live[n] + live[n + 1])])
      && Falling(levels') && Grounded(h, leaves, levels')
      && 2 * (places'[n] + 1) == places[n + 1] + 1
      && (n > 0 ==> levels'[n] <= levels'[n - 1])
      && Weight(levels') == Weight(levels)
  {
    hide LevelAt, IsNode, Weight;
    var n := |levels| - 2;
    var l, i := levels[n], places[n];
    assert Follows(l, i, levels[n + 1], places[n + 1]);
    assert places[n + 1] == i + 1;
    assert IsNode(h, leaves, l, i, live[n]) && IsNode(h, leaves, l, i + 1, live[n + 1]);
    Shortened(h, leaves, levels, places, live, n + 1);
    assert Settled(levels[..n + 1]);
    LastIsEven(h, leaves, levels[..n + 1], places[..n + 1], live[..n + 1]);
    MergedNode(h, leaves, l, i, live[n], live[n + 1]);
    levels', places' := levels[..n] + [l + 1], places[..n] + [i / 2];
    Replaced(h, leaves, levels, places, live, n, l + 1, i / 2, h([1] + live[n] + live[n + 1]));
    MergedWeight(levels);
  }

  /** A lone last node of a level becomes its parent. */
  lemma LiftKeeps(h: Hash, leaves: seq<Bytes>, levels: seq<nat>, places: seq<nat>, live: seq<Bytes>)
    returns (levels': seq<nat>, places': seq<nat>)
    requires Stacked(h, leaves, levels, places, live) && Falling(levels) && Settled(levels) && Grounded(h, leaves, levels)
    requires |levels| > 1
    requires places[|levels| - 1] + 1 == |LevelAt(h, leaves, levels[|levels| - 1])|
    ensures var n := |levels| - 1;
      && levels' == levels[..n] + [levels[n] + 1] && |places'| == n + 1
      && Stacked(h, leaves, levels', places', live[..n] + [h([1] + live[n])])
      && Falling(levels') && Grounded(h, leaves, levels')
      && places'[n] + 1 == |LevelAt(h, leaves, levels'[n])|
      && levels'[n] <= levels'[n - 1]
  {
    hide LevelAt, IsNode;
    var n := |levels| - 1;
    var l, i := levels[n], places[n];
    assert IsNode(h, leaves, l, i, live[n]);
    assert Follows(levels[n - 1], places[n - 1], l, i);
    LastIsEven(h, leaves, levels, places, live);
    LiftedNode(h, leaves, l, i, live[n]);
    levels', places' := levels[..n] + [l + 1], places[..n] + [i / 2];
    Replaced(h, leaves, levels, places, live, n, l + 1, i / 2, h([1] + live[n]));
  }

  /** Entries that end at the last leaf end at the last node of their level. */
  lemma {:induction false} EndsLevel(h: Hash, leaves: seq<Bytes>, m: nat, l: nat)
    requires Scale(m, l) == |leaves|
    ensures |LevelAt(h, leaves, l)| == m
    decreases l
  {
    if l > 0 {
      ScaleDouble(m, l - 1);
      EndsLevel(h, leaves, 2 * m, l - 1);
      LevelUp(h, leaves, l - 1);
    }
  }

  lemma StackBegins(h: Hash, leaves: seq<Bytes>, cap: nat)
    ensures RunOps(h, [], cap) == Some([])
    ensures Held(h, leaves, Growing(0), [], [], [])
  {
  }

  lemma NothingPushed()
    ensures Pushed([]) == []
  {
  }

  lemma Pushes(h: Hash, ops: seq<Op>, live: seq<Bytes>, leaf: Bytes, cap: nat)
    requires RunOps(h, ops, cap) == Some(live) && |live| < cap
    ensures RunOps(h, ops + [Push(leaf)], cap) == Some(live + [h([0] + leaf)])
  {
    RunExtends(h, ops, Push(leaf), cap);
  }

  lemma Merges(h: Hash, ops: seq<Op>, live: seq<Bytes>, cap: nat)
    requires RunOps(h, ops, cap) == Some(live) && |live| >= 2
    ensures var n := |live| - 2; RunOps(h, ops + [Merge], cap) == Some(live[..n] + [h([1] + live[n] + live[n + 1])])
  {
    RunExtends(h, ops, Merge, cap);
  }

  lemma Lifts(h: Hash, ops: seq<Op>, live: seq<Bytes>, cap: nat)
    requires RunOps(h, ops, cap) == Some(live) && |live| >= 1
    ensures var n := |live| - 1; RunOps(h, ops + [Lift], cap) == Some(live[..n] + [h([1] + live[n])])
  {
    RunExtends(h, ops, Lift, cap);
  }

  lemma PushFits(levels: seq<nat>, k: nat, n: nat)
    requires Falling(levels) && Settled(levels) && Weight(levels) == k < n
    ensures |levels| <= Log2(n)
  {
    FallingIsHeavy(levels, 0);
    Log2Bound(n, |levels|);
  }

  lemma PushStacked(h: Hash, leaves: seq<Bytes>, levels: seq<nat>, places: seq<nat>, live: seq<Bytes>, k: nat)
    requires Stacked(h, leaves, levels, places, live) && k < |leaves|
    requires if levels == [] then k == 0 else Scale(places[|levels| - 1] + 1, levels[|levels| - 1]) == k
    ensures Stacked(h, leaves, levels + [0], places + [k], live + [h([0] + leaves[k])])
  {
    assert IsNode(h, leaves, 0, k, h([0] + leaves[k]));
    hide IsNode;
    if levels != [] {
      var n := |levels| - 1;
      assert Follows(levels[n], places[n], 0, k);
    }
    LastReplaced(h, leaves, levels, places, live, 0, k, h([0] + leaves[k]));
  }

  /** How far the work is: `k` leaves pushed, or all of them and the last entry ending its level. */
  datatype Phase = Growing(k: nat) | Closing

  ghost predicate Held(h: Hash, leaves: seq<Bytes>, phase: Phase, levels: seq<nat>, places: seq<nat>, live: seq<Bytes>) {
    && Stacked(h, leaves, levels, places, live)
    && Falling(levels)
    && (|levels| >= 2 ==> levels[|levels| - 1] <= levels[|levels| - 2])
    && ((phase.Closing? && levels == [1]) || Grounded(h, leaves, levels))
    && EndsAt(h, leaves, phase, levels, places)
  }

  /** Where the last entry ends. */
  ghost predicate EndsAt(h: Hash, leaves: seq<Bytes>, phase: Phase, levels: seq<nat>, places: seq<nat>)
    requires |levels| == |places|
  {
    match phase
    case Growing(k) =>
      && Weight(levels) == k
      && (levels != [] ==> Scale(places[|levels| - 1] + 1, levels[|levels| - 1]) == k)
    case Closing =>
      levels != [] && places[|levels| - 1] + 1 == |LevelAt(h, leaves, levels[|levels| - 1])|
  }

  lemma HeldLengths(h: Hash, leaves: seq<Bytes>, phase: Phase, levels: seq<nat>, places: seq<nat>, live: seq<Bytes>)
    requires Held(h, leaves, phase, levels, places, live)
    ensures |levels| == |places| == |live|
    ensures phase.Closing? ==> levels != []
    ensures |levels| >= 2 ==> levels[|levels| - 1] <= levels[|levels| - 2]
  {
  }

  /** A pushed leaf begins where the stack ends, and fits. */
  lemma PushKeeps(h: Hash, leaves: seq<Bytes>, levels: seq<nat>, places: seq<nat>, live: seq<Bytes>, k: nat)
    requires Held(h, leaves, Growing(k), levels, places, live) && Settled(levels) && k < |leaves|
    ensures Held(h, leaves, Growing(k + 1), levels + [0], places + [k], live + [h([0] + leaves[k])])
    ensures |live| <= Log2(|leaves|)
  {
    hide Stacked, Log2, Scale, LevelAt, Weight, Falling, Grounded;
    FallingOn(levels);
    GroundedOn(h, leaves, levels);
    NothingWeighs();
    HeldLengths(h, leaves, Growing(k), levels, places, live);
    PushStacked(h, leaves, levels, places, live, k);
    WeightExtends(levels, 0);
    PushFits(levels, k, |leaves|);
    assert Scale(k + 1, 0) == k + 1 by { ScaleZero(k + 1); }
  }

  lemma FallingOn(levels: seq<nat>)
    requires Falling(levels) && Settled(levels)
    ensures Falling(levels + [0])
  {
  }

  lemma GroundedOn(h: Hash, leaves: seq<Bytes>, levels: seq<nat>)
    requires Grounded(h, leaves, levels)
    ensures Grounded(h, leaves, levels + [0])
  {
  }

  lemma NothingWeighs()
    ensures Weight([]) == 0
  {
  }

  lemma ScaleZero(x: nat)
    ensures Scale(x, 0) == x
  {
  }

  lemma MergeHeld(h: Hash, leaves: seq<Bytes>, phase: Phase, levels: seq<nat>, places: seq<nat>, live: seq<Bytes>)
    returns (places': seq<nat>)
    requires Held(h, leaves, phase, levels, places, live)
    requires |levels| >= 2 && levels[|levels| - 1] == levels[|levels| - 2]
    ensures var n := |levels| - 2;
      |live| == n + 2 && Held(h, leaves, phase, levels[..n] + [levels[n] + 1], places', live[..n] + [h([1] + live[n] + live[n + 1])])
  {
    hide Stacked, LevelAt, Grounded, Weight;
    HeldLengths(h, leaves, phase, levels, places, live);
    var n := |levels| - 2;
    var levels';
    levels', places' := MergeKeeps(h, leaves, levels, places, live);
    assert places'[n] + 1 == (places[n + 1] + 1) / 2;
    ScaleDouble(places'[n] + 1, levels[n]);
    LevelUp(h, leaves, levels[n]);
  }

  lemma LiftHeld(h: Hash, leaves: seq<Bytes>, levels: seq<nat>, places: seq<nat>, live: seq<Bytes>)
    returns (places': seq<nat>)
    requires Held(h, leaves, Closing, levels, places, live) && Settled(levels)
    requires |levels| > 1 || levels == [0]
    ensures var n := |levels| - 1;
      |live| == n + 1 && Held(h, leaves, Closing, levels[..n] + [levels[n] + 1], places', live[..n] + [h([1] + live[n])])
  {
    hide LevelAt, Grounded, IsNode;
    HeldLengths(h, leaves, Closing, levels, places, live);
    var n := |levels| - 1;
    if n > 0 {
      var levels';
      levels', places' := LiftKeeps(h, leaves, levels, places, live);
    } else {
      SoleLift(h, leaves, levels, places, live);
      places' := [0];
      assert levels[..n] + [levels[n] + 1] == [1] && live[..n] + [h([1] + live[n])] == [h([1] + live[0])];
    }
  }

  /** One leaf alone still has a parent. */
  lemma SoleLift(h: Hash, leaves: seq<Bytes>, levels: seq<nat>, places: seq<nat>, live: seq<Bytes>)
    requires Stacked(h, leaves, levels, places, live) && levels == [0]
    requires places[0] + 1 == |LevelAt(h, leaves, 0)|
    ensures Stacked(h, leaves, [1], [0], [h([1] + live[0])]) && |LevelAt(h, leaves, 1)| == 1
  {
    hide LevelAt;
    assert IsNode(h, leaves, 0, 0, live[0]);
    LiftedNode(h, leaves, 0, 0, live[0]);
  }

  /** All leaves pushed, the last entry ends its level. */
  lemma AllPushed(h: Hash, leaves: seq<Bytes>, levels: seq<nat>, places: seq<nat>, live: seq<Bytes>)
    requires leaves != [] && Held(h, leaves, Growing(|leaves|), levels, places, live)
    ensures Held(h, leaves, Closing, levels, places, live)
  {
    hide Stacked, LevelAt, Grounded;
    HeldLengths(h, leaves, Growing(|leaves|), levels, places, live);
    EndsLevel(h, leaves, places[|levels| - 1] + 1, levels[|levels| - 1]);
  }

  /** The entry left alone is the root: its level is the first of one node above the leaves. */
  lemma LastIsRoot(h: Hash, leaves: seq<Bytes>, levels: seq<nat>, places: seq<nat>, live: seq<Bytes>)
    requires leaves != [] && Held(h, leaves, Closing, levels, places, live) && |levels| == 1 && levels[0] > 0
    ensures live == [Root(h, leaves)]
  {
    hide LevelAt;
    assert IsNode(h, leaves, levels[0], 0, live[0]);
    FirstNarrow(h, leaves, levels[0]);
  }

  // ----- The program

  /** Levels that fall, the last perhaps level with the one below it. */
  ghost predicate Ready(levels: seq<nat>) {
    Falling(levels) && (|levels| >= 2 ==> levels[|levels| - 1] <= levels[|levels| - 2])
  }

  /** The merges due at once, and the levels they leave. */
  ghost function MergesDue(levels: seq<nat>): (r: (seq<Op>, seq<nat>))
    requires Ready(levels)
    ensures Ready(r.1) && Settled(r.1) && (|r.1| < |levels| || r.1 == levels) && (levels != [] ==> r.1 != [])
    decreases |levels|
  {
    var n := |levels| - 2;
    if n >= 0 && levels[n + 1] == levels[n] then
      var rest := MergesDue(levels[..n] + [levels[n] + 1]);
      ([Merge] + rest.0, rest.1)
    else ([], levels)
  }

  /** The first `k` leaves, each pushed and merged as far as it goes. */
  ghost function Grown(leaves: seq<Bytes>, k: nat): (r: (seq<Op>, seq<nat>))
    requires k <= |leaves|
    ensures Ready(r.1) && Settled(r.1) && (k > 0 ==> r.1 != [])
  {
    if k == 0 then ([], [])
    else
      var before := Grown(leaves, k - 1);
      var due := MergesDue(before.1 + [0]);
      (before.0 + [Push(leaves[k - 1])] + due.0, due.1)
  }

  ghost predicate ToLift(levels: seq<nat>) {
    |levels| > 1 || levels == [0]
  }

  ghost function Gap(levels: seq<nat>): int {
    if |levels| > 1 then levels[|levels| - 2] as int - levels[|levels| - 1] as int else if levels == [0] then 1 else 0
  }

  /** The lifts of the last node, merged as far as each goes, until one node is left. */
  ghost function LiftsDue(levels: seq<nat>): seq<Op>
    requires Ready(levels) && Settled(levels)
    decreases |levels|, Gap(levels)
  {
    if !ToLift(levels) then []
    else
      var n := |levels| - 1;
      var due := MergesDue(levels[..n] + [levels[n] + 1]);
      [Lift] + due.0 + LiftsDue(due.1)
  }

  /** The operations over `leaves`. */
  ghost function TreeProgram(leaves: seq<Bytes>): seq<Op> {
    var grown := Grown(leaves, |leaves|);
    grown.0 + LiftsDue(grown.1)
  }

  /** `merge`: equal levels at the top become one, until the last is below the one before. */
  method MergeEqual(ghost h: Hash, ghost leaves: seq<Bytes>, ghost cap: nat, ghost phase: Phase, ops: seq<Op>, levels: seq<nat>,
    ghost places: seq<nat>, ghost live: seq<Bytes>)
    returns (ops': seq<Op>, levels': seq<nat>, ghost places': seq<nat>, ghost live': seq<Bytes>)
    requires RunOps(h, ops, cap) == Some(live) && Held(h, leaves, phase, levels, places, live)
    requires Ready(levels)
    ensures RunOps(h, ops', cap) == Some(live') && Held(h, leaves, phase, levels', places', live')
    ensures ops' == ops + MergesDue(levels).0 && levels' == MergesDue(levels).1
    ensures Settled(levels') && (|levels'| < |levels| || levels' == levels)
    ensures Pushed(ops') == Pushed(ops)
  {
    hide RunOps, Exec, Held, Pushed, Falling;
    ops', levels', places', live' := ops, levels, places, live;
    while |levels'| >= 2 && levels'[|levels'| - 1] == levels'[|levels'| - 2]
      invariant RunOps(h, ops', cap) == Some(live') && Held(h, leaves, phase, levels', places', live')
      invariant |levels'| < |levels| || levels' == levels
      invariant Pushed(ops') == Pushed(ops)
      invariant Ready(levels') && MergesDue(levels').1 == MergesDue(levels).1
      invariant ops' + MergesDue(levels').0 == ops + MergesDue(levels).0
      decreases |levels'|
    {
      PushedExtends(ops', Merge);
      MergeDue(ops', levels');
      ghost var n := |levels'| - 2;
      ghost var merged := MergeHeld(h, leaves, phase, levels', places', live');
      Merges(h, ops', live', cap);
      ops' := ops' + [Merge];
      levels' := levels'[..|levels'| - 2] + [levels'[|levels'| - 2] + 1];
      places', live' := merged, live'[..n] + [h([1] + live'[n] + live'[n + 1])];
    }
    HeldLengths(h, leaves, phase, levels', places', live');
  }

  lemma MergeDue(ops: seq<Op>, levels: seq<nat>)
    requires Ready(levels) && |levels| >= 2 && levels[|levels| - 1] == levels[|levels| - 2]
    ensures var after := levels[..|levels| - 2] + [levels[|levels| - 2] + 1];
      && Ready(after) && MergesDue(after).1 == MergesDue(levels).1
      && ops + [Merge] + MergesDue(after).0 == ops + MergesDue(levels).0
  {
    var after := levels[..|levels| - 2] + [levels[|levels| - 2] + 1];
    assert ops + [Merge] + MergesDue(after).0 == ops + ([Merge] + MergesDue(after).0);
  }

  lemma GrownOn(leaves: seq<Bytes>, k: nat)
    requires k < |leaves|
    ensures var grown := Grown(leaves, k);
      && Ready(grown.1 + [0])
      && Grown(leaves, k + 1) == (grown.0 + [Push(leaves[k])] + MergesDue(grown.1 + [0]).0, MergesDue(grown.1 + [0]).1)
  {
  }

  lemma NothingToLift(ops: seq<Op>, levels: seq<nat>)
    requires Ready(levels) && Settled(levels) && !ToLift(levels)
    ensures ops + LiftsDue(levels) == ops
  {
  }

  lemma LiftReady(levels: seq<nat>)
    requires Ready(levels) && Settled(levels) && levels != []
    ensures Ready(levels[..|levels| - 1] + [levels[|levels| - 1] + 1])
  {
  }

  lemma LiftDue(ops: seq<Op>, levels: seq<nat>)
    requires Ready(levels) && Settled(levels) && ToLift(levels)
    ensures var after := levels[..|levels| - 1] + [levels[|levels| - 1] + 1];
      && Ready(after)
      && ops + [Lift] + MergesDue(after).0 + LiftsDue(MergesDue(after).1) == ops + LiftsDue(levels)
  {
    hide Ready, Settled, MergesDue;
    assert levels != [];
    LiftReady(levels);
    var due := MergesDue(levels[..|levels| - 1] + [levels[|levels| - 1] + 1]);
    assert LiftsDue(levels) == [Lift] + due.0 + LiftsDue(due.1);
    ConcatJoins(ops, [Lift], due.0, LiftsDue(due.1));
  }

  lemma ConcatJoins(a: seq<Op>, b: seq<Op>, c: seq<Op>, d: seq<Op>)
    ensures a + b + c + d == a + (b + c + d)
  {
  }

  /** `treeOps`: the operations over `leaves`, and what they leave on the stack. */
  method TreeOps(ghost h: Hash, leaves: seq<Bytes>) returns (ops: seq<Op>)
    requires leaves != []
    ensures RunOps(h, ops, Log2(|leaves|) + 1) == Some([Root(h, leaves)]) && Pushed(ops) == leaves
    ensures ops == TreeProgram(leaves)
  {
    hide RunOps, Exec, Held, Log2, Root, Pushed, MergesDue, LiftsDue, Falling;
    ops := [];
    var levels: seq<nat> := [];
    ghost var places: seq<nat> := [];
    ghost var live: seq<Bytes> := [];
    ghost var cap := Log2(|leaves|) + 1;
    StackBegins(h, leaves, cap);
    assert Pushed(ops) == [] by { NothingPushed(); }
    var k := 0;
    while k < |leaves|
      invariant k <= |leaves| && RunOps(h, ops, cap) == Some(live)
      invariant Held(h, leaves, Growing(k), levels, places, live) && Settled(levels)
      invariant Pushed(ops) == leaves[..k]
      invariant (ops, levels) == Grown(leaves, k)
    {
      PushedExtends(ops, Push(leaves[k]));
      GrownOn(leaves, k);
      PushKeeps(h, leaves, levels, places, live, k);
      Pushes(h, ops, live, leaves[k], cap);
      ops, levels := ops + [Push(leaves[k])], levels + [0];
      places, live := places + [k], live + [h([0] + leaves[k])];
      k := k + 1;
      ops, levels, places, live := MergeEqual(h, leaves, cap, Growing(k), ops, levels, places, live);
    }
    assert leaves[..k] == leaves;
    AllPushed(h, leaves, levels, places, live);
    HeldLengths(h, leaves, Closing, levels, places, live);
    while |levels| > 1 || levels[0] == 0
      invariant RunOps(h, ops, cap) == Some(live) && levels != []
      invariant Held(h, leaves, Closing, levels, places, live) && Settled(levels)
      invariant Pushed(ops) == leaves
      invariant Ready(levels) && ops + LiftsDue(levels) == TreeProgram(leaves)
      decreases |levels|, if |levels| > 1 then levels[|levels| - 2] - levels[|levels| - 1] else if levels[0] == 0 then 1 else 0
    {
      ghost var n := |levels| - 1;
      ghost var lifted := LiftHeld(h, leaves, levels, places, live);
      PushedExtends(ops, Lift);
      LiftDue(ops, levels);
      Lifts(h, ops, live, cap);
      ops := ops + [Lift];
      levels := levels[..|levels| - 1] + [levels[|levels| - 1] + 1];
      places, live := lifted, live[..n] + [h([1] + live[n])];
      ops, levels, places, live := MergeEqual(h, leaves, cap, Closing, ops, levels, places, live);
      HeldLengths(h, leaves, Closing, levels, places, live);
    }
    LastIsRoot(h, leaves, levels, places, live);
    NothingToLift(ops, levels);
  }

  /** The prover's stack of 18 live entries holds every section of fewer than 2^18 leaves. */
  lemma StackSuffices(n: nat)
    requires 0 < n < Pow2(18)
    ensures Log2(n) + 1 <= 18
  {
    Log2Bound(n, 18);
  }
}
