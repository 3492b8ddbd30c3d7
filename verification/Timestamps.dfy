/** Clock readings. */
module Timestamps {

  lemma HasElement(s: set<int>)
    ensures s == {} || exists x :: x in s
  {
    if forall x :: x !in s {
      assert s == {};
    }
  }

  /** A time not before `now` that is not among the used ones. */
  method Unused(used: set<int>, now: int) returns (stamp: int)
    ensures now <= stamp && stamp !in used
  {
    stamp := now;
    var todo := used;
    while todo != {}
      invariant now <= stamp && todo <= used
      invariant forall x :: x in used && x !in todo ==> x < stamp
      decreases todo
    {
      HasElement(todo);
      var x :| x in todo;
      if stamp <= x {
        stamp := x + 1;
      }
      todo := todo - {x};
    }
  }
}
