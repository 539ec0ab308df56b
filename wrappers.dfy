module Wrappers {
  datatype Option<+T> = None | Some(value: T)

  datatype Result<+T> = Success(value: T) | Failure(error: string)

  /** The first failure among the results, or all their values in order: a
      comprehension that stops at the first element that raises. */
  function Collect<T>(rs: seq<Result<T>>): (r: Result<seq<T>>)
    ensures r.Success? <==> forall i :: 0 <= i < |rs| ==> rs[i].Success?
    ensures r.Success? ==> |r.value| == |rs| && forall i :: 0 <= i < |rs| ==> rs[i] == Success(r.value[i])
    ensures r.Failure? ==> exists i :: (0 <= i < |rs| && rs[i] == Failure(r.error)
      && forall j :: 0 <= j < i ==> rs[j].Success?)
  {
    if rs == [] then Success([])
    else match rs[0]
      case Failure(e) => Failure(e)
      case Success(v) =>
        match Collect(rs[1..])
        case Failure(e) =>
          assert forall j :: 1 <= j <= |rs[1..]| ==> rs[1..][j - 1] == rs[j];
          Failure(e)
        case Success(vs) =>
          assert forall j :: 1 <= j <= |rs[1..]| ==> rs[1..][j - 1] == rs[j];
          Success([v] + vs)
  }

  /** When every element succeeds, the values are exactly theirs. */
  lemma CollectValues<T>(rs: seq<Result<T>>, vs: seq<T>)
    requires |vs| == |rs| && forall i :: 0 <= i < |rs| ==> rs[i] == Success(vs[i])
    ensures Collect(rs) == Success(vs)
  {
    var r := Collect(rs);
    assert r.Success?;
    assert r.value == vs;
  }

  /** The first failing element decides the failure. */
  lemma CollectFirstFailure<T>(rs: seq<Result<T>>, i: nat)
    requires i < |rs| && rs[i].Failure? && forall j :: 0 <= j < i ==> rs[j].Success?
    ensures Collect(rs) == Failure(rs[i].error)
  {
    var r := Collect(rs);
    assert r.Failure?;
    var k :| 0 <= k < |rs| && rs[k] == Failure(r.error) && forall j :: 0 <= j < k ==> rs[j].Success?;
    assert k == i;
  }
}
