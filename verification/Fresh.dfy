// Numbers that are not in use.

module Fresh {

  lemma Unused(used: set<nat>) returns (n: nat)
    ensures n != 0 && n !in used
  {
    n := 1;
    var rest := used;
    while rest != {}
      invariant n != 0 && forall x :: x in used && x !in rest ==> x < n
      decreases |rest|
    {
      var x: nat :| x in rest;
      n := if x < n then n else x + 1;
      rest := rest - {x};
    }
  }
}
