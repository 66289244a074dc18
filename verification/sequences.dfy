/** Order-preserving filtering of sequences: the shape shared by the restore
    menu (which keeps listing entries starting with 't') and the backup copy
    (which keeps the names the ignore patterns do not match). */
module Sequences {

  /** The elements of `xs` for which `keep` holds, in their original order. */
  function Filter<T(!new)>(xs: seq<T>, keep: T -> bool): (r: seq<T>)
    ensures |r| <= |xs|
    ensures forall i :: 0 <= i < |r| ==> keep(r[i])
  {
    if |xs| == 0 then []
    else if keep(xs[0]) then [xs[0]] + Filter(xs[1..], keep)
    else Filter(xs[1..], keep)
  }

  /** Filtering keeps exactly the elements that pass the test. */
  lemma {:induction false} FilterMembers<T(!new)>(xs: seq<T>, keep: T -> bool)
    ensures forall x :: x in Filter(xs, keep) <==> x in xs && keep(x)
  {
    if |xs| > 0 {
      FilterMembers(xs[1..], keep);
      assert xs == [xs[0]] + xs[1..];
    }
  }

  /** Filtering distributes over concatenation: what is kept from the front
      of a listing comes before what is kept from its back. */
  lemma {:induction false} FilterAppend<T(!new)>(a: seq<T>, b: seq<T>, keep: T -> bool)
    ensures Filter(a + b, keep) == Filter(a, keep) + Filter(b, keep)
  {
    if |a| == 0 {
      assert a + b == b;
    } else {
      assert (a + b)[0] == a[0];
      assert (a + b)[1..] == a[1..] + b;
      FilterAppend(a[1..], b, keep);
    }
  }

  /** A kept element sits in the filtered sequence at the position given by
      the number of kept elements before it in the original sequence. */
  lemma FilterPosition<T(!new)>(xs: seq<T>, j: nat, keep: T -> bool)
    requires j < |xs| && keep(xs[j])
    ensures |Filter(xs[..j], keep)| < |Filter(xs, keep)|
    ensures Filter(xs, keep)[|Filter(xs[..j], keep)|] == xs[j]
  {
    assert xs == xs[..j] + ([xs[j]] + xs[j + 1..]);
    FilterAppend(xs[..j], [xs[j]] + xs[j + 1..], keep);
    assert ([xs[j]] + xs[j + 1..])[1..] == xs[j + 1..];
  }

  /** Two sequences with the same tail are equal iff their heads are. */
  lemma SameTailCancel<T>(a: seq<T>, b: seq<T>, tail: seq<T>)
    ensures a + tail == b + tail <==> a == b
  {
    if a + tail == b + tail {
      assert |a| == |b|;
      assert a == (a + tail)[..|a|];
      assert b == (b + tail)[..|b|];
    }
  }
}
