/** A bounded rolling window of samples: append at the back, and when the
    window has grown past its capacity, drop the element at the front.

    `Push` is the append-then-trim step that both simulation loops perform on
    their `std::vector`; `LastN` is the independent description of what such a
    window should hold (the newest `n` elements of everything ever pushed),
    and `PushKeepsLastN` connects the two. The two functions carry no
    contracts of their own; their properties are the lemmas below, so that
    proofs about longer runs only see the facts they ask for. */
module RollingBuffer {

  function Min(a: int, b: int): int {
    if a <= b then a else b
  }

  /** The last `n` elements of `xs` (all of `xs` when it is shorter). */
  function LastN<T>(xs: seq<T>, n: nat): seq<T> {
    if |xs| <= n then xs else xs[|xs| - n..]
  }

  /** `push_back(x)` followed by a single `if (size() > cap) erase(begin())`. */
  function Push<T>(buf: seq<T>, x: T, cap: nat): seq<T> {
    var grown := buf + [x];
    if |grown| > cap then grown[1..] else grown
  }

  /** `LastN` keeps `Min(|xs|, n)` elements, and they are the tail of `xs`
      in their original order. */
  lemma {:induction false} LastNIsSuffix<T>(xs: seq<T>, n: nat)
    ensures |LastN(xs, n)| == Min(|xs|, n)
    ensures forall i :: 0 <= i < |LastN(xs, n)| ==>
      LastN(xs, n)[i] == xs[|xs| - |LastN(xs, n)| + i]
  {
  }

  /** A window that respects its capacity is exactly the last `cap` elements
      of itself. */
  lemma {:induction false} LastNOfShort<T>(xs: seq<T>, cap: nat)
    requires |xs| <= cap
    ensures LastN(xs, cap) == xs
  {
  }

  /** Below capacity nothing is dropped; at or above capacity exactly the
      oldest element is dropped (a single `if`, not a loop); a window within
      capacity stays within capacity; and the newest element is the one just
      pushed whenever there is room for one. */
  lemma {:induction false} PushSpec<T>(buf: seq<T>, x: T, cap: nat)
    ensures |buf| < cap ==> Push(buf, x, cap) == buf + [x]
    ensures 0 < |buf| && cap <= |buf| ==> Push(buf, x, cap) == buf[1..] + [x]
    ensures |buf| <= cap ==> |Push(buf, x, cap)| <= cap
    ensures |buf| > cap ==> |Push(buf, x, cap)| == |buf|
    ensures 0 < cap ==> 0 < |Push(buf, x, cap)| && Push(buf, x, cap)[|Push(buf, x, cap)| - 1] == x
  {
  }

  /** Pushing onto the last `cap` elements of a history gives the last `cap`
      elements of the history extended by the pushed value: the window is
      FIFO and loses nothing but the oldest entries. */
  lemma {:induction false} PushKeepsLastN<T>(xs: seq<T>, x: T, cap: nat)
    ensures Push(LastN(xs, cap), x, cap) == LastN(xs + [x], cap)
  {
    var w := LastN(xs, cap);
    var ys := xs + [x];
    var lhs := Push(w, x, cap);
    var rhs := LastN(ys, cap);
    LastNIsSuffix(xs, cap);
    LastNIsSuffix(ys, cap);
    PushSpec(w, x, cap);
    assert |lhs| == |rhs|;
    forall i | 0 <= i < |lhs|
      ensures lhs[i] == rhs[i]
    {
      if |w| < cap {
        assert lhs == w + [x];
      } else {
        assert lhs == w[1..] + [x];
      }
    }
  }
}
