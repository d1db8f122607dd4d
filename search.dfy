/** Linear searches over sequences, as the source's `for`/`foreach` loops with an
    early `break` or `return` perform them. */
module Search {
  import opened Wrappers

  /** The index of the first element of `s` satisfying `p`, or None when there is none. */
  function FirstWhere<T>(s: seq<T>, p: T -> bool): (r: Option<nat>)
    ensures r.Some? ==> r.value < |s| && p(s[r.value])
    ensures r.Some? ==> forall j :: 0 <= j < r.value ==> !p(s[j])
    ensures r.None? ==> forall j :: 0 <= j < |s| ==> !p(s[j])
  {
    if |s| == 0 then None
    else if p(s[0]) then Some(0)
    else match FirstWhere(s[1..], p)
      case None => None
      case Some(k) => Some(k + 1)
  }

  /** The indices of all elements of `s` satisfying `p`, in order; `IndicesWhereSpec`
      states the result. */
  function IndicesWhere<T>(s: seq<T>, p: T -> bool): seq<nat>
    decreases |s|
  {
    if |s| == 0 then []
    else IndicesWhere(s[..|s| - 1], p) + (if p(s[|s| - 1]) then [|s| - 1] else [])
  }

  /** `IndicesWhere` lists every index of an element satisfying `p`, no other index, in
      strictly increasing order. */
  lemma {:induction false} IndicesWhereSpec<T>(s: seq<T>, p: T -> bool)
    ensures forall k :: 0 <= k < |IndicesWhere(s, p)| ==>
              IndicesWhere(s, p)[k] < |s| && p(s[IndicesWhere(s, p)[k]])
    ensures forall j :: 0 <= j < |s| && p(s[j]) ==> j in IndicesWhere(s, p)
    ensures forall k, l :: 0 <= k < l < |IndicesWhere(s, p)| ==> IndicesWhere(s, p)[k] < IndicesWhere(s, p)[l]
    decreases |s|
  {
    if |s| > 0 {
      var n := |s| - 1;
      var prefix := s[..n];
      IndicesWhereSpec(prefix, p);
      var r0 := IndicesWhere(prefix, p);
      var r := IndicesWhere(s, p);
      assert forall j :: 0 <= j < n ==> prefix[j] == s[j];
      assert forall k :: 0 <= k < |r0| ==> r[k] == r0[k];
      forall j | 0 <= j < |s| && p(s[j])
        ensures j in r
      {
        if j < n {
          assert p(prefix[j]);
          var k :| 0 <= k < |r0| && r0[k] == j;
          assert r[k] == j;
        } else {
          assert r[|r| - 1] == j;
        }
      }
    }
  }
}
