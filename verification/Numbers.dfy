/** Loops over sets of numbers shared by the models. */
module Numbers {
  /** The least of some numbers: reading a sorted list takes this one first. */
  method Least(numbers: set<nat>) returns (least: nat)
    requires numbers != {}
    ensures least in numbers && forall q :: q in numbers ==> least <= q
  {
    least :| least in numbers;
    var rest := numbers - {least};
    while rest != {}
      invariant rest <= numbers && least in numbers && forall q :: q in numbers && q !in rest ==> least <= q
      decreases |rest|
    {
      var q :| q in rest;
      if q < least {
        least := q;
      }
      rest := rest - {q};
    }
  }
}
