/** Small shared vocabulary: optional values, node names, quorums and powers of two. */
module Prelude {
  datatype Option<+T> = None | Some(value: T)

  /**
   * A node name is 40 bytes compared with memcmp; here it is the number those bytes
   * spell, so that memcmp order is the order on numbers.
   */
  type NodeId = int

  /** How many of the masters serving slots have to agree. */
  function Quorum(size: nat): nat {
    size / 2 + 1
  }

  function Pow2(k: nat): (p: int)
    ensures p >= 1
  {
    if k == 0 then 1 else 2 * Pow2(k - 1)
  }

  function Max(a: nat, b: nat): nat {
    if a < b then b else a
  }

  /** Some element of a non-empty set. */
  lemma Pick<T>(s: set<T>) returns (x: T)
    requires s != {}
    ensures x in s
  {
    x :| x in s;
  }

  /** A set covered by the image of another is no larger. */
  lemma {:induction false} ImageIsNoLarger<A, B>(xs: set<A>, ys: set<B>, f: A -> B)
    requires forall y | y in ys :: exists x :: x in xs && f(x) == y
    ensures |ys| <= |xs|
    decreases ys
  {
    if ys != {} {
      var y := Pick(ys);
      var x :| x in xs && f(x) == y;
      forall y' | y' in ys - {y} ensures exists x' :: x' in xs - {x} && f(x') == y' {
        var x' :| x' in xs && f(x') == y';
        assert x' in xs - {x};
      }
      ImageIsNoLarger(xs - {x}, ys - {y}, f);
      assert xs == (xs - {x}) + {x} && ys == (ys - {y}) + {y};
    }
  }
}
