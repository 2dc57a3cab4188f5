/** `next(item for item in items if p(item))`: the first element that
    satisfies `p`, or `StopIteration` when none does. The result is the
    index of that element. */
module Search {
  import opened Validation

  function FirstMatch<T>(items: seq<T>, p: T -> bool): (r: Option<nat>)
    ensures r.Some? ==> r.value < |items| && p(items[r.value])
    ensures r.Some? ==> forall j :: 0 <= j < r.value ==> !p(items[j])
    ensures r.None? <==> forall j :: 0 <= j < |items| ==> !p(items[j])
  {
    if items == [] then None
    else if p(items[0]) then Some(0)
    else
      assert forall j :: 1 <= j < |items| ==> items[j] == items[1..][j - 1];
      match FirstMatch(items[1..], p)
      case None => None
      case Some(i) => Some(i + 1)
  }

  /** Items placed after a match never change the outcome. */
  lemma {:induction false} FirstMatchPrefix<T>(items: seq<T>, more: seq<T>, p: T -> bool)
    requires FirstMatch(items, p).Some?
    ensures FirstMatch(items + more, p) == FirstMatch(items, p)
  {
    if !p(items[0]) {
      assert (items + more)[1..] == items[1..] + more;
      FirstMatchPrefix(items[1..], more, p);
    }
  }
}
