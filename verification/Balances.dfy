// Account balances and the total amount of ether in them.
module Balances {
  import opened Base

  type World = map<Address, U256>

  function Bal(w: World, a: Address): (r: U256) {
    if a in w then w[a] else 0
  }

  ghost function Total(w: World): nat {
    if w == map[] then 0
    else
      var a :| a in w;
      w[a] + Total(w - {a})
  }

  lemma {:induction false} TotalPick(w: World, a: Address)
    requires a in w
    ensures Total(w) == w[a] + Total(w - {a})
    decreases |w|
  {
    var b :| b in w && Total(w) == w[b] + Total(w - {b});
    if a != b {
      assert w - {b} - {a} == w - {a} - {b};
      TotalPick(w - {b}, a);
      TotalPick(w - {a}, b);
    }
  }

  // Changing one balance changes the total by the difference.
  lemma TotalUpdate(w: World, a: Address, v: U256)
    ensures Total(w[a := v]) == Total(w) - Bal(w, a) + v
  {
    var w' := w[a := v];
    TotalPick(w', a);
    assert w' - {a} == w - {a};
    if a in w {
      TotalPick(w, a);
    } else {
      assert w - {a} == w;
    }
  }

  lemma BalWithinTotal(w: World, a: Address)
    ensures Bal(w, a) <= Total(w)
  {
    if a in w {
      TotalPick(w, a);
    }
  }

  // AddBalance and SubBalance on 256-bit words.
  function Add(w: World, a: Address, x: nat): (r: World) {
    w[a := (Bal(w, a) + x) % TWO_256]
  }

  function Sub(w: World, a: Address, x: nat): (r: World) {
    w[a := (Bal(w, a) - x) % TWO_256]
  }

  // Neither wraps while the total stays below 2^256 and the balance covers the amount.
  lemma AddExact(w: World, a: Address, x: nat)
    requires Total(w) + x < TWO_256
    ensures Bal(Add(w, a, x), a) == Bal(w, a) + x && Total(Add(w, a, x)) == Total(w) + x
    ensures forall b :: b != a ==> Bal(Add(w, a, x), b) == Bal(w, b)
  {
    BalWithinTotal(w, a);
    TotalUpdate(w, a, (Bal(w, a) + x) % TWO_256);
  }

  lemma SubExact(w: World, a: Address, x: nat)
    requires x <= Bal(w, a)
    ensures Bal(Sub(w, a, x), a) == Bal(w, a) - x && Total(Sub(w, a, x)) == Total(w) - x
    ensures forall b :: b != a ==> Bal(Sub(w, a, x), b) == Bal(w, b)
  {
    TotalUpdate(w, a, (Bal(w, a) - x) % TWO_256);
  }
}
