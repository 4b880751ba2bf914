/**
 A box's least value: the per-byte minimum times the box's whole serialized length, which the value
 itself lengthens. The publisher finds it from zero up; it is the least value covering its own box.
 */
module ErgoMinimum {
  import opened ErgoProfile
  import opened ErgoWriter

  /** The network's per-byte minimum where a publisher is given none. */
  const DEFAULT_MIN_VALUE_PER_BYTE: nat := 360

  /** What a box of `base` bytes beside its value needs when it holds `value`. */
  function Needed(base: nat, perByte: nat, value: nat): nat {
    perByte * (base + |Vlq(value)|)
  }

  /** A value that covers its own box. */
  predicate Covers(base: nat, perByte: nat, value: nat) {
    Needed(base, perByte, value) <= value
  }

  lemma NeededMonotone(base: nat, perByte: nat, value: nat, base': nat, perByte': nat, value': nat)
    requires base <= base' && perByte <= perByte' && value <= value'
    ensures Needed(base, perByte, value) <= Needed(base', perByte', value')
  {
    hide Vlq;
    VlqMonotone(value, value');
    ProductMonotone(perByte, base + |Vlq(value)|, perByte', base' + |Vlq(value')|);
  }

  lemma ProductMonotone(a: nat, x: nat, b: nat, y: nat)
    requires a <= b && x <= y
    ensures a * x <= b * y
  {
    assert a * x <= b * x <= b * y;
  }

  /** Enough for any box: a value so large that its own length no longer matters. */
  function Ample(base: nat, perByte: nat): nat {
    perByte * (base + (perByte + base + 1))
  }

  lemma {:induction false} PowersOutrun(k: nat)
    requires k > 0
    ensures 2 * k * k < Pow128(k)
  {
    if k == 1 {
      assert Pow128(1) == 128 * Pow128(0);
    } else {
      PowersOutrun(k - 1);
      var j := k - 1;
      assert 2 * k * k == 2 * j * j + 4 * j + 2;
      assert j * j >= j by { assert j * (j - 1) >= 0; }
    }
  }

  lemma AmpleCovers(base: nat, perByte: nat)
    ensures Covers(base, perByte, Ample(base, perByte))
  {
    hide Vlq, Pow128;
    var k := perByte + base + 1;
    PowersOutrun(k);
    assert Ample(base, perByte) == perByte * (base + k);
    assert perByte * (base + k) <= k * (2 * k) == 2 * k * k;
    VlqFits(Ample(base, perByte), k);
    var n := |Vlq(Ample(base, perByte))|;
    assert perByte * (base + n) <= perByte * (base + k);
  }

  function LeastFrom(base: nat, perByte: nat, value: nat): (least: nat)
    requires value <= Ample(base, perByte)
    ensures value <= least <= Ample(base, perByte) && Covers(base, perByte, least)
    ensures forall v :: value <= v < least ==> !Covers(base, perByte, v)
    decreases Ample(base, perByte) - value
  {
    AmpleCovers(base, perByte);
    if Covers(base, perByte, value) then value else LeastFrom(base, perByte, value + 1)
  }

  /** The least value covering its own box. */
  function LeastValue(base: nat, perByte: nat): (least: nat)
    ensures Covers(base, perByte, least)
    ensures forall v: nat :: Covers(base, perByte, v) ==> least <= v
  {
    LeastFrom(base, perByte, 0)
  }

  lemma LeastMonotone(base: nat, perByte: nat, base': nat, perByte': nat)
    requires base <= base' && perByte <= perByte'
    ensures LeastValue(base, perByte) <= LeastValue(base', perByte')
  {
    hide LeastFrom, LeastValue;
    var v := LeastValue(base', perByte');
    NeededMonotone(base, perByte, v, base', perByte', v);
    assert Covers(base', perByte', v) && Covers(base, perByte, v);
  }

  // ----- Values above the least

  /** The values just past the boundary at which the value's own encoding outgrows the least value's,
      too small for a box of that one byte more. */
  predicate InGap(base: nat, perByte: nat, value: nat) {
    var k := |Vlq(LeastValue(base, perByte))|;
    Pow128(k) <= value < perByte * (base + k + 1)
  }

  /** Past the next boundary a value has outgrown what its encoding costs. */
  lemma {:induction false} Outgrown(base: nat, perByte: nat, k: nat, l: nat)
    requires k > 0 && l >= k + 2 && perByte * (base + k) < Pow128(k)
    ensures perByte * (base + l) <= Pow128(l - 1) && Pow128(l - 1) >= Pow128(k)
    decreases l
  {
    ProductMonotone(perByte, 1, perByte, base + k);
    if l == k + 2 {
      assert perByte * (base + l) == perByte * (base + k) + 2 * perByte;
    } else {
      Outgrown(base, perByte, k, l - 1);
      assert perByte * (base + l) == perByte * (base + (l - 1)) + perByte;
    }
  }

  /** A value no less than the least covers its own box unless it is in the gap. */
  lemma CoversOutsideGap(base: nat, perByte: nat, value: nat)
    requires value >= LeastValue(base, perByte)
    ensures Covers(base, perByte, value) <==> !InGap(base, perByte, value)
  {
    hide LeastValue, Vlq, Pow128;
    var least := LeastValue(base, perByte);
    var k, l := |Vlq(least)|, |Vlq(value)|;
    VlqMonotone(least, value);
    VlqFits(least, k);
    VlqFits(value, k);
    if l >= k + 1 {
      VlqFits(value, k + 1);
    }
    if l >= k + 2 {
      VlqFits(value, l - 1);
      Outgrown(base, perByte, k, l);
      ProductMonotone(perByte, base + k + 1, perByte, base + l);
    }
  }

  /** At the default rate no box of between 71 and 5,800 bytes beside its value has a gap. */
  lemma NoGap(base: nat, value: nat)
    requires 71 <= base <= 5_800
    ensures !InGap(base, DEFAULT_MIN_VALUE_PER_BYTE, value)
  {
    hide LeastValue, Vlq, Pow128;
    var least := LeastValue(base, DEFAULT_MIN_VALUE_PER_BYTE);
    assert Pow128(2) == 16_384 && Pow128(3) == 2_097_152 by { SmallPowers(); }
    VlqFits(2_097_151, 3);
    assert Covers(base, DEFAULT_MIN_VALUE_PER_BYTE, 2_097_151);
    assert Needed(base, DEFAULT_MIN_VALUE_PER_BYTE, least) <= least;
    VlqFits(least, 2);
    VlqFits(least, 3);
  }

  lemma SmallPowers()
    ensures Pow128(2) == 16_384 && Pow128(3) == 2_097_152 && Pow128(4) == 268_435_456
  {
    assert Pow128(1) == 128 * Pow128(0);
    assert Pow128(2) == 128 * Pow128(1) && Pow128(3) == 128 * Pow128(2) && Pow128(4) == 128 * Pow128(3);
  }

  // ----- Boxes

  /** A box's bytes beside its value: the candidate's others, the transaction id and the index. */
  function BaseLength(c: Candidate, height: nat, index: nat): nat {
    |c.tree| + |Vlq(height)| + 2 + |Concat(c.registers)| + 32 + |Vlq(index)|
  }

  /** `boxLength`: the full box's length at an output index. */
  function BoxLength(c: Candidate, height: nat, index: nat): nat {
    |CandidateBytes(c, height)| + 32 + |Vlq(index)|
  }

  lemma BoxOfBase(c: Candidate, height: nat, index: nat)
    ensures BoxLength(c, height, index) == BaseLength(c, height, index) + |Vlq(c.value)|
  {
    hide Vlq, Concat;
  }

  /** A candidate of some value, at its own least. */
  function AtLeast(c: Candidate, height: nat, index: nat, perByte: nat): Candidate {
    c.(value := LeastValue(BaseLength(c, height, index), perByte))
  }

  /** `minimumValue`: from zero, what the box at the last value needs, until it covers it. */
  method MinimumValue(c: Candidate, height: nat, index: nat, perByte: nat) returns (value: nat)
    ensures value == LeastValue(BaseLength(c, height, index), perByte)
    ensures perByte * BoxLength(c.(value := value), height, index) <= value
    ensures forall v: nat :: perByte * BoxLength(c.(value := v), height, index) <= v ==> value <= v
  {
    hide LeastValue, Vlq, BoxLength, BaseLength;
    ghost var base := BaseLength(c, height, index);
    ghost var least := LeastValue(base, perByte);
    forall v: nat
      ensures perByte * BoxLength(c.(value := v), height, index) == Needed(base, perByte, v)
      ensures perByte * BoxLength(c.(value := v), height, index) <= v ==> least <= v
    {
      SameBase(c, v, height, index);
      BoxOfBase(c.(value := v), height, index);
      assert Covers(base, perByte, v) <==> Needed(base, perByte, v) <= v;
    }
    value := 0;
    while true
      invariant value <= least
      decreases least - value
    {
      var needed := perByte * BoxLength(c.(value := value), height, index);
      if needed <= value {
        assert Covers(base, perByte, value);
        return;
      }
      NeededMonotone(base, perByte, value, base, perByte, least);
      value := needed;
    }
  }

  lemma SameBase(c: Candidate, v: nat, height: nat, index: nat)
    ensures BaseLength(c.(value := v), height, index) == BaseLength(c, height, index)
  {
  }
}
