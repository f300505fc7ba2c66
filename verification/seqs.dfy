/** Order-preserving selection over sequences, with the index witness that
    shows a selection is a subsequence of its input. */
module Seqs {

  /** The elements of `s` satisfying `keep`, in their original order. */
  function Filter<T>(s: seq<T>, keep: T -> bool): (r: seq<T>)
    ensures |r| <= |s|
    ensures forall k :: 0 <= k < |r| ==> r[k] in s && keep(r[k])
    ensures forall i :: 0 <= i < |s| && keep(s[i]) ==> s[i] in r
    decreases |s|
  {
    if |s| == 0 then []
    else
      var init := s[..|s| - 1];
      assert s == init + [s[|s| - 1]];
      Filter(init, keep) + (if keep(s[|s| - 1]) then [s[|s| - 1]] else [])
  }

  /** The positions in `s` of the elements that `Filter` keeps, ascending:
      `Filter(s, keep)` is the subsequence of `s` at these positions. */
  function Positions<T>(s: seq<T>, keep: T -> bool): (p: seq<nat>)
    ensures |p| == |Filter(s, keep)|
    ensures forall k :: 0 <= k < |p| ==> p[k] < |s| && Filter(s, keep)[k] == s[p[k]]
    ensures forall k, l :: 0 <= k < l < |p| ==> p[k] < p[l]
    decreases |s|
  {
    if |s| == 0 then []
    else
      var init := s[..|s| - 1];
      var q := Positions(init, keep);
      q + (if keep(s[|s| - 1]) then [|s| - 1] else [])
  }

  /** A position is listed exactly when its element is kept, so the
      subsequence `Filter` selects leaves out no kept element. */
  lemma {:induction false} PositionsComplete<T>(s: seq<T>, keep: T -> bool, i: nat)
    requires i < |s|
    ensures keep(s[i]) <==> i in Positions(s, keep)
    decreases |s|
  {
    var init := s[..|s| - 1];
    var q := Positions(init, keep);
    assert Positions(s, keep) == q + (if keep(s[|s| - 1]) then [|s| - 1] else []);
    if i < |s| - 1 {
      PositionsComplete(init, keep, i);
      assert init[i] == s[i];
      assert (|s| - 1) != i;
    } else {
      assert forall k :: 0 <= k < |q| ==> q[k] < |init|;
      assert i !in q;
    }
  }

  /** Appending one element extends the positions by that element's index
      exactly when it is kept. */
  lemma PositionsSnoc<T>(s: seq<T>, x: T, keep: T -> bool)
    ensures Positions(s + [x], keep) == Positions(s, keep) + (if keep(x) then [|s|] else [])
  {
    assert (s + [x])[..|s|] == s;
  }

  /** Appending one element extends the selection by that element exactly
      when it is kept. */
  lemma FilterSnoc<T>(s: seq<T>, x: T, keep: T -> bool)
    ensures Filter(s + [x], keep) == Filter(s, keep) + (if keep(x) then [x] else [])
  {
    assert (s + [x])[..|s|] == s;
  }
}
