/** First-match search over a sequence, as `Array.prototype.find` and `indexOf` do it. */
module Search {
  import opened Types

  /** Position of the first element satisfying `p`, if any. */
  function FirstIndex<T>(s: seq<T>, p: T -> bool): (r: Option<nat>)
    ensures r.Some? ==> r.value < |s| && p(s[r.value])
    ensures r.Some? ==> forall j :: 0 <= j < r.value ==> !p(s[j])
    ensures r.None? <==> forall j :: 0 <= j < |s| ==> !p(s[j])
  {
    if |s| == 0 then None
    else if p(s[0]) then Some(0)
    else
      match FirstIndex(s[1..], p)
      case Some(k) => Some(k + 1)
      case None => None
  }

  /** The first match in `a + b` is the head of `b` when nothing in `a` matches. */
  lemma FirstIndexAfterPrefix<T>(a: seq<T>, b: seq<T>, p: T -> bool)
    requires forall j :: 0 <= j < |a| ==> !p(a[j])
    requires |b| > 0 && p(b[0])
    ensures FirstIndex(a + b, p) == Some(|a|)
  {
    var s := a + b;
    assert s[|a|] == b[0];
    forall j | 0 <= j < |a|
      ensures !p(s[j])
    {
      assert s[j] == a[j];
    }
  }
}
