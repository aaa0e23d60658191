/** Failure-carrying results and the first-match search shared by every module of the model. */
module Wrappers {

  datatype Option<+T> = None | Some(value: T)

  /** A value or an error: Go's `(T, error)` return pair. */
  datatype Result<+T, +E> = Ok(value: T) | Err(error: E)

  /** Go's bare `error` return: nil (Pass) or an error. */
  datatype Outcome<+E> = Pass | Fail(error: E)

  /** The index of the first element that satisfies p. */
  function FirstWhere<T>(s: seq<T>, p: T -> bool): (k: Option<nat>)
    ensures k.Some? ==> k.value < |s| && p(s[k.value]) && forall j :: 0 <= j < k.value ==> !p(s[j])
    ensures k.None? ==> forall j :: 0 <= j < |s| ==> !p(s[j])
    decreases |s|
  {
    if |s| == 0 then None
    else if p(s[0]) then Some(0)
    else match FirstWhere(s[1..], p)
      case None => None
      case Some(k) => Some(k + 1)
  }

  /** Appending an element leaves an earlier first match alone, and otherwise the new element may be the match. */
  lemma {:induction false} FirstWhereAppend<T>(s: seq<T>, x: T, p: T -> bool)
    ensures FirstWhere(s, p).Some? ==> FirstWhere(s + [x], p) == FirstWhere(s, p)
    ensures FirstWhere(s, p).None? && p(x) ==> FirstWhere(s + [x], p) == Some(|s|)
    ensures FirstWhere(s, p).None? && !p(x) ==> FirstWhere(s + [x], p) == None
  {
    var all := s + [x];
    assert forall j :: 0 <= j < |s| ==> all[j] == s[j];
    assert all[|s|] == x;
    var k := FirstWhere(all, p);
    if FirstWhere(s, p).Some? {
      var i := FirstWhere(s, p).value;
      assert p(all[i]);
      assert k.Some? && k.value == i;
    }
  }

  /** f applied to every element, in order. */
  function Map<A, B>(s: seq<A>, f: A -> B): (r: seq<B>)
    ensures |r| == |s|
    ensures forall i :: 0 <= i < |s| ==> r[i] == f(s[i])
    decreases |s|
  {
    if |s| == 0 then [] else Map(s[..|s| - 1], f) + [f(s[|s| - 1])]
  }
}
