/** The elements of a list that a property picks out, given by their indices. */
module Selections {
  /** `at` lists the indices of the elements with the property, in order. */
  ghost predicate SelectedAt<T(!new)>(p: T -> bool, xs: seq<T>, at: seq<nat>) {
    && (forall k :: 0 <= k < |at| ==> at[k] < |xs| && p(xs[at[k]]))
    && (forall j, k :: 0 <= j < k < |at| ==> at[j] < at[k])
    && (forall i :: 0 <= i < |xs| && p(xs[i]) ==> exists k :: 0 <= k < |at| && at[k] == i)
  }

  function Indices<T>(p: T -> bool, xs: seq<T>): seq<nat> {
    if xs == [] then []
    else
      var front, n := Indices(p, xs[..|xs| - 1]), |xs| - 1;
      if p(xs[n]) then front + [n] else front
  }

  lemma SelectionGrows<T(!new)>(p: T -> bool, xs: seq<T>, front: seq<nat>)
    requires xs != [] && SelectedAt(p, xs[..|xs| - 1], front)
    ensures var n := |xs| - 1; SelectedAt(p, xs, if p(xs[n]) then front + [n] else front)
  {
    var n := |xs| - 1;
    var at := if p(xs[n]) then front + [n] else front;
    forall i | 0 <= i < |xs| && p(xs[i]) ensures exists k :: 0 <= k < |at| && at[k] == i {
      if i < n {
        assert xs[..n][i] == xs[i];
        var k :| 0 <= k < |front| && front[k] == i;
        assert at[k] == i;
      } else {
        assert at[|front|] == i;
      }
    }
  }

  lemma {:induction false} IndicesSelect<T(!new)>(p: T -> bool, xs: seq<T>)
    ensures SelectedAt(p, xs, Indices(p, xs))
  {
    if xs != [] {
      IndicesSelect(p, xs[..|xs| - 1]);
      SelectionGrows(p, xs, Indices(p, xs[..|xs| - 1]));
    }
  }
}
