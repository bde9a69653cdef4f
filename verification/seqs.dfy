/**
 * `xs.filter(x => x !== null)` over a sequence of optional values, and the
 * positions it keeps.
 */
module Seqs {
  import opened Wrappers

  /** The present values of `xs`, in order (`.filter(row => row !== null)`). */
  function DropNulls<T>(xs: seq<Option<T>>): (r: seq<T>)
    ensures |r| <= |xs|
  {
    if xs == [] then []
    else
      var last := xs[|xs| - 1];
      DropNulls(xs[..|xs| - 1]) + (if last.Some? then [last.value] else [])
  }

  /** The positions of `xs` that hold a value, in increasing order. */
  function PresentIndices<T>(xs: seq<Option<T>>): seq<nat>
  {
    if xs == [] then []
    else PresentIndices(xs[..|xs| - 1]) + (if xs[|xs| - 1].Some? then [|xs| - 1] else [])
  }

  predicate StrictlyIncreasing(ix: seq<nat>)
  {
    forall j, k :: 0 <= j < k < |ix| ==> ix[j] < ix[k]
  }

  /**
   * The filter keeps exactly the present values, each once, in input order:
   * the k-th kept value is the value at the k-th present position.
   */
  lemma {:induction false} DropNullsExact<T>(xs: seq<Option<T>>)
    ensures var ix := PresentIndices(xs);
      && |ix| == |DropNulls(xs)|
      && StrictlyIncreasing(ix)
      && (forall k :: 0 <= k < |ix| ==> ix[k] < |xs| && xs[ix[k]] == Some(DropNulls(xs)[k]))
      && (forall i :: 0 <= i < |xs| ==> (xs[i].Some? <==> i in ix))
  {
    if xs != [] {
      var n := |xs| - 1;
      var init := xs[..n];
      DropNullsExact(init);
      var ix0, r0 := PresentIndices(init), DropNulls(init);
      var ix, r := PresentIndices(xs), DropNulls(xs);
      assert ix == ix0 + (if xs[n].Some? then [n] else []);
      assert r == r0 + (if xs[n].Some? then [xs[n].value] else []);
      forall k | 0 <= k < |ix|
        ensures ix[k] < |xs| && xs[ix[k]] == Some(r[k])
      {
        if k < |ix0| {
          assert ix[k] == ix0[k] && r[k] == r0[k];
          assert xs[ix0[k]] == init[ix0[k]];
        }
      }
      forall i | 0 <= i < |xs|
        ensures xs[i].Some? <==> i in ix
      {
        if i < n {
          assert xs[i] == init[i];
          assert i in ix <==> i in ix0;
        }
      }
    }
  }

  /** Filtering distributes over concatenation. */
  lemma {:induction false} DropNullsAppend<T>(xs: seq<Option<T>>, ys: seq<Option<T>>)
    ensures DropNulls(xs + ys) == DropNulls(xs) + DropNulls(ys)
    decreases |ys|
  {
    if ys == [] {
      assert xs + ys == xs;
    } else {
      var n := |ys| - 1;
      assert (xs + ys)[..|xs + ys| - 1] == xs + ys[..n];
      DropNullsAppend(xs, ys[..n]);
    }
  }
}
