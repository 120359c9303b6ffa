/** Failure-compatible containers used by every other module. */
module Wrappers {

  datatype Option<+T> = None | Some(value: T) {
    /** The value held, or else the one given. */
    function OrElse(other: Option<T>): Option<T> {
      if Some? then this else other
    }
  }

  datatype Result<+T, +E> = Ok(value: T) | Err(error: E)

  /** All values, or the first error. */
  function Gather<T, E>(rs: seq<Result<T, E>>): Result<seq<T>, E> {
    if rs == [] then Ok([])
    else if rs[0].Err? then Err(rs[0].error)
    else
      var rest := Gather(rs[1..]);
      if rest.Err? then rest else Ok([rs[0].value] + rest.value)
  }

  lemma {:induction false} GatherOk<T, E>(rs: seq<Result<T, E>>)
    ensures Gather(rs).Ok? <==> forall k | 0 <= k < |rs| :: rs[k].Ok?
    ensures Gather(rs).Ok? ==> |Gather(rs).value| == |rs|
    ensures Gather(rs).Ok? ==> forall k | 0 <= k < |rs| :: rs[k] == Ok(Gather(rs).value[k])
  {
    if rs == [] {
    } else {
      var rest := rs[1..];
      GatherOk(rest);
      if forall k | 0 <= k < |rs| :: rs[k].Ok? {
        assert forall k | 0 <= k < |rest| :: rest[k] == rs[k + 1];
      }
      if Gather(rs).Ok? {
        forall k | 0 <= k < |rs|
          ensures rs[k] == Ok(Gather(rs).value[k])
        {
          if k > 0 {
            assert rest[k - 1] == Ok(Gather(rest).value[k - 1]);
          }
        }
      }
    }
  }

  lemma {:induction false} GatherErr<T, E>(rs: seq<Result<T, E>>) returns (k: nat)
    requires Gather(rs).Err?
    ensures k < |rs| && rs[k].Err? && rs[k].error == Gather(rs).error
  {
    if rs[0].Err? {
      k := 0;
    } else {
      k := GatherErr(rs[1..]);
      k := k + 1;
    }
  }
}
