/** Swift's `max(_:_:)` and `Array.max()` on 1RM values. */
module Maxima {

  /** `max(x, y)`: the larger of the two, `y` on a tie. */
  function Larger(x: real, y: real): (m: real)
    ensures (m == x || m == y) && x <= m && y <= m
  {
    if y >= x then y else x
  }

  /** `s.max()!` on a non-empty array: an element that no element exceeds. */
  function Max(s: seq<real>): (m: real)
    requires s != []
    ensures m in s
    ensures forall i :: 0 <= i < |s| ==> s[i] <= m
    decreases |s|
  {
    if |s| == 1 then s[0]
    else
      var n := |s| - 1;
      Larger(Max(s[..n]), s[n])
  }

  /** The maximum depends only on which values occur, not on their order or repetition. */
  lemma MaxOfSameValues(a: seq<real>, b: seq<real>)
    requires a != [] && b != []
    requires forall v :: v in a <==> v in b
    ensures Max(a) == Max(b)
  {
    var ma, mb := Max(a), Max(b);
    assert ma in b;
    assert mb in a;
  }
}
