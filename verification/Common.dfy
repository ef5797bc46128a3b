module Common {
  datatype Option<+T> = None | Some(value: T)

  datatype Result<+T, +E> = Ok(value: T) | Err(error: E)

  lemma {:induction false} OneMorePosition(front: set<nat>, n: nat, hit: bool, all: set<nat>)
    requires n !in front && forall i :: i in all <==> i in front || (hit && i == n)
    ensures |all| == |front| + if hit then 1 else 0
  {
    assert all == front + if hit then {n} else {};
  }
}
