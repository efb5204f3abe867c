module Common {
  datatype Option<+T> = None | Some(value: T)

  /** A number above those that are used. */
  lemma {:induction false} Beyond(used: set<nat>) returns (bound: nat)
    ensures forall k :: k in used ==> k < bound
    decreases |used|
  {
    bound := 0;
    if used != {} {
      var x :| x in used;
      bound := Beyond(used - {x});
      assert forall k :: k in used ==> k in used - {x} || k == x;
      bound := if x < bound then bound else x + 1;
    }
  }
}
