/** A fact that some moves of a run turn on and others off. */
module Latch {

  /** Move `i` turns it on, and none after it and before `end` turns it off. */
  ghost predicate LastOn(on: seq<bool>, off: seq<bool>, i: nat, end: nat)
    requires end <= |on| == |off|
  {
    i < end && on[i] && forall j :: i < j < end ==> !off[j]
  }

  ghost predicate NeverOff(off: seq<bool>, end: nat)
    requires end <= |off|
  {
    forall j :: 0 <= j < end ==> !off[j]
  }

  /** When every move leaves it on exactly if it turns it on, or it was on and the
      move does not turn it off, then at any point it is on exactly if some move
      turned it on and none since turned it off, or it was on at the start and none
      did. */
  lemma {:induction false} OnIffLastOn(held: seq<bool>, on: seq<bool>, off: seq<bool>, end: nat)
    requires end <= |on| == |off| && |held| == |on| + 1
    requires forall i :: 0 <= i < |on| ==> (held[i + 1] <==> on[i] || (held[i] && !off[i]))
    ensures held[end] <==> (exists i: nat :: LastOn(on, off, i, end)) || (held[0] && NeverOff(off, end))
  {
    if end > 0 {
      var last := end - 1;
      OnIffLastOn(held, on, off, last);
      assert held[last + 1] <==> on[last] || (held[last] && !off[last]);
      OneMore(on, off, last, end);
    }
  }

  lemma OneMore(on: seq<bool>, off: seq<bool>, last: nat, end: nat)
    requires last < |on| == |off| && end == last + 1
    ensures (exists i: nat :: LastOn(on, off, i, end)) <==>
              on[last] || (!off[last] && exists i: nat :: LastOn(on, off, i, last))
  {
    if on[last] {
      assert LastOn(on, off, last, end);
    }
    forall i: nat | i < last ensures LastOn(on, off, i, end) <==> LastOn(on, off, i, last) && !off[last] {}
  }
}
