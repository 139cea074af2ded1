/** Facts about the space of account numbers that `_generate_account_number`
    (src/bank/bank.py) searches. */
module Numbering {

  /** The numbering loop wraps back to 1 once its candidate reaches 2^32 - 1. */
  const Wrap: int := 0x1_0000_0000 - 1

  /** The integers in `[lo, hi)`. */
  function Range(lo: int, hi: int): (r: set<int>)
    ensures forall i :: i in r <==> lo <= i < hi
    ensures lo <= hi ==> |r| == hi - lo
    decreases hi - lo
  {
    if lo >= hi then {} else {lo} + Range(lo + 1, hi)
  }

  /** A subset is no larger than its superset. */
  lemma SubsetSize(a: set<int>, b: set<int>)
    ensures a <= b ==> |a| <= |b|
  {
    if a <= b {
      assert b == a + (b - a);
      assert a * (b - a) == {};
    }
  }

  /** Fewer than `hi - 1` keys leave some number in `[1, hi)` free; with `hi`
      the wrap-around point, the numbering loop always finds one. */
  lemma FreeNumberExists(keys: set<int>, hi: int)
    requires |keys| < hi - 1
    ensures exists f :: 1 <= f < hi && f !in keys
  {
    var range := Range(1, hi);
    SubsetSize(range, keys);
    assert !(range <= keys);
    var f :| f in range && f !in keys;
  }
}
