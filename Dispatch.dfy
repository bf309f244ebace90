/** The indices a sequential scan hands to the worker pool: `range(start_n, end_n)`. */
module Dispatch {

  /** `range(a, b)`: every integer from `a` up to but not including `b`, in increasing
      order; empty when `a >= b`. */
  function Span(a: int, b: int): (r: seq<int>)
    ensures |r| == if a < b then b - a else 0
    ensures forall k :: 0 <= k < |r| ==> r[k] == a + k
    decreases b - a
  {
    if a >= b then [] else [a] + Span(a + 1, b)
  }

  /** Every index of `[a, b)` is handed out exactly once and nothing else is, `b` included. */
  lemma {:induction false} SpanExactlyOnce(a: int, b: int, x: int)
    ensures multiset(Span(a, b))[x] == if a <= x < b then 1 else 0
    decreases b - a
  {
    if a < b {
      SpanExactlyOnce(a + 1, b, x);
      assert Span(a, b) == [a] + Span(a + 1, b);
    }
  }

  lemma SpanSnoc(a: int, b: int)
    requires a <= b
    ensures Span(a, b + 1) == Span(a, b) + [b]
  {
    assert |Span(a, b + 1)| == |Span(a, b) + [b]|;
    forall k | 0 <= k < |Span(a, b + 1)| ensures Span(a, b + 1)[k] == (Span(a, b) + [b])[k] {
    }
  }
}
