// The shared gas counter of core/gaspool.go. Each operation loads the counter and then
// tries to swap in the new value; a lost race sends it back to the load.
module GasPool {
  import opened Base

  datatype SubStep = SubDone(left: nat) | SubRetry | LimitReached

  datatype AddStep = AddDone(left: nat) | AddRetry | Overflow

  // SubGas after the load of `seen`, at a moment when the counter holds `v`: a successful
  // swap is an atomic subtraction from the current value, however old the load is.
  function SubGas(v: nat, seen: nat, amount: nat): (r: SubStep)
    ensures r.SubDone? ==> amount <= v && r.left + amount == v
    ensures r.LimitReached? <==> seen < amount
    ensures v == seen ==> !r.SubRetry?
  {
    if seen < amount then LimitReached
    else if v == seen then SubDone(seen - amount)
    else SubRetry
  }

  // AddGas after the load of `seen`, at a moment when the counter holds `v`: a successful
  // swap is an atomic addition to the current value.
  function AddGas(v: nat, seen: nat, amount: nat): (r: AddStep)
    ensures r.AddDone? ==> r.left == v + amount < TWO_64
    ensures r.Overflow? <==> seen + amount >= TWO_64
    ensures v == seen ==> !r.AddRetry?
  {
    if seen > TWO_64 - 1 - amount then Overflow
    else if v == seen then AddDone(seen + amount)
    else AddRetry
  }
}
