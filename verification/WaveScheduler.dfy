// The wave scheduler of core/parallel_processor.go: it packs transaction indices
// into waves of pairwise disjoint declared address sets.
module WaveScheduler {
  import opened Base

  datatype AccessTuple = AccessTuple(addr: Address, keys: seq<nat>)

  // What the scheduler sees of a transaction. `sender` is None when the signature
  // does not recover; the two access lists are the protocol one and the generated one.
  datatype TxHeader = TxHeader(sender: Option<Address>, to: Option<Address>,
                               accessList: seq<AccessTuple>, generatedList: seq<AccessTuple>)

  datatype SetsResult = Sets(sets: seq<set<Address>>) | BadSender(index: nat)

  datatype GroupsResult = Groups(groups: seq<seq<nat>>) | NoSender(index: nat)

  ghost function Listed(list: seq<AccessTuple>): set<Address> {
    set k | 0 <= k < |list| :: list[k].addr
  }

  // The declared address set of a transaction: sender, recipient and every address
  // of either access list.
  ghost function Declared(tx: TxHeader): set<Address> {
    (if tx.sender.Some? then {tx.sender.value} else {}) +
    (if tx.to.Some? then {tx.to.value} else {}) +
    Listed(tx.accessList) + Listed(tx.generatedList)
  }

  ghost function DeclaredSets(txs: seq<TxHeader>): seq<set<Address>> {
    seq(|txs|, i requires 0 <= i < |txs| => Declared(txs[i]))
  }

  // The transaction names the address: as its sender, its recipient or in an access list.
  ghost predicate Names(tx: TxHeader, a: Address) {
    || tx.sender == Some(a)
    || tx.to == Some(a)
    || (exists k :: 0 <= k < |tx.accessList| && tx.accessList[k].addr == a)
    || (exists k :: 0 <= k < |tx.generatedList| && tx.generatedList[k].addr == a)
  }

  lemma DeclaredAreNamed(tx: TxHeader, a: Address)
    ensures a in Declared(tx) <==> Names(tx, a)
  {
    assert a in Listed(tx.accessList) <==> exists k :: 0 <= k < |tx.accessList| && tx.accessList[k].addr == a;
    assert a in Listed(tx.generatedList) <==> exists k :: 0 <= k < |tx.generatedList| && tx.generatedList[k].addr == a;
  }

  ghost predicate DistinctAddresses(list: seq<AccessTuple>) {
    forall i, j :: 0 <= i < j < |list| ==> list[i].addr != list[j].addr
  }

  // The storage keys a list gives for one address, over all its tuples.
  ghost function KeysOf(list: seq<AccessTuple>, a: Address): set<nat> {
    if list == [] then {}
    else
      var last := list[|list| - 1];
      KeysOf(list[..|list| - 1], a) + (if last.addr == a then Elems(last.keys) else {})
  }

  // The keys of a slot map, in whatever order the iteration yields them.
  method KeyList(slots: set<nat>) returns (keys: seq<nat>)
    ensures Elems(keys) == slots && Distinct(keys)
  {
    keys := [];
    var rest := slots;
    while rest != {}
      invariant rest !! Elems(keys) && rest + Elems(keys) == slots && Distinct(keys)
    {
      var k :| k in rest;
      assert Elems(keys + [k]) == Elems(keys) + {k};
      assert k !in Elems(keys);
      keys, rest := keys + [k], rest - {k};
    }
  }

  // The slot map of `list`: one entry per address, holding all its keys; `addresses` are
  // its keys in the order of first appearance.
  ghost predicate Merges(list: seq<AccessTuple>, merged: map<Address, set<nat>>, addresses: seq<Address>) {
    && Distinct(addresses) && Elems(addresses) == merged.Keys == Listed(list)
    && forall a :: KeysOf(list, a) == if a in merged then merged[a] else {}
  }

  // One call of addTuple.
  lemma AddTuple(list: seq<AccessTuple>, merged: map<Address, set<nat>>, addresses: seq<Address>, t: AccessTuple)
    requires Merges(list, merged, addresses)
    ensures var slots := if t.addr in merged then merged[t.addr] else {};
            Merges(list + [t], merged[t.addr := slots + Elems(t.keys)],
                   if t.addr in merged then addresses else addresses + [t.addr])
  {
    assert (list + [t])[..|list|] == list;
    ListedConcat(list, [t]);
    assert Listed([t]) == {t.addr} by {
      assert [t][0].addr == t.addr;
    }
    assert Elems(addresses + [t.addr]) == Elems(addresses) + {t.addr};
    assert t.addr in merged || t.addr !in Elems(addresses);
  }

  // Union of the protocol and the generated list: the same addresses and for each of them
  // the same keys; when both lists are present, without repeated addresses or keys.
  method WaveAccessList(tx: TxHeader) returns (list: seq<AccessTuple>)
    ensures Listed(list) == Listed(tx.accessList) + Listed(tx.generatedList)
    ensures forall a :: KeysOf(list, a) == KeysOf(tx.accessList, a) + KeysOf(tx.generatedList, a)
    ensures tx.accessList != [] && tx.generatedList != [] ==>
              DistinctAddresses(list) && forall t :: t in list ==> Distinct(t.keys)
  {
    if tx.generatedList == [] {
      return tx.accessList;
    }
    if tx.accessList == [] {
      return tx.generatedList;
    }
    var both := tx.accessList + tx.generatedList;
    ListedConcat(tx.accessList, tx.generatedList);
    forall a ensures KeysOf(both, a) == KeysOf(tx.accessList, a) + KeysOf(tx.generatedList, a) {
      KeysConcat(tx.accessList, tx.generatedList, a);
    }
    var merged: map<Address, set<nat>>, addresses: seq<Address> := map[], [];
    for k := 0 to |both|
      invariant Merges(both[..k], merged, addresses)
    {
      var t := both[k];
      AddTuple(both[..k], merged, addresses, t);
      assert both[..k + 1] == both[..k] + [t];
      var slots := if t.addr in merged then merged[t.addr] else {};
      if t.addr !in merged {
        addresses := addresses + [t.addr];
      }
      merged := merged[t.addr := slots + Elems(t.keys)];
    }
    assert both[..|both|] == both;
    list := ListOf(both, merged, addresses);
  }

  // The list gives each address all its keys once.
  ghost predicate Written(list: seq<AccessTuple>, merged: map<Address, set<nat>>, addresses: seq<Address>) {
    && |list| == |addresses|
    && forall i :: 0 <= i < |list| ==>
         && list[i].addr == addresses[i] && addresses[i] in merged
         && Elems(list[i].keys) == merged[addresses[i]] && Distinct(list[i].keys)
  }

  lemma {:induction false} WrittenKeys(list: seq<AccessTuple>, merged: map<Address, set<nat>>, addresses: seq<Address>, a: Address)
    requires Written(list, merged, addresses) && Distinct(addresses)
    ensures KeysOf(list, a) == if a in addresses then merged[a] else {}
    decreases |list|
  {
    if list != [] {
      var n := |list| - 1;
      WrittenKeys(list[..n], merged, addresses[..n], a);
      assert addresses == addresses[..n] + [addresses[n]];
    }
  }

  // The merged map written out in the order of first appearance.
  method ListOf(ghost source: seq<AccessTuple>, merged: map<Address, set<nat>>, addresses: seq<Address>)
    returns (list: seq<AccessTuple>)
    requires Merges(source, merged, addresses)
    ensures Listed(list) == Listed(source) && DistinctAddresses(list)
    ensures forall a :: KeysOf(list, a) == KeysOf(source, a)
    ensures forall t :: t in list ==> Distinct(t.keys)
  {
    list := [];
    for k := 0 to |addresses|
      invariant Written(list, merged, addresses[..k])
    {
      assert addresses[k] in Elems(addresses);
      var keys := KeyList(merged[addresses[k]]);
      list := list + [AccessTuple(addresses[k], keys)];
    }
    assert addresses[..|addresses|] == addresses;
    ListedIs(list, addresses);
    forall a ensures KeysOf(list, a) == KeysOf(source, a) {
      WrittenKeys(list, merged, addresses, a);
      assert a in addresses <==> a in Elems(addresses);
    }
  }

  lemma ListedIs(list: seq<AccessTuple>, addresses: seq<Address>)
    requires |list| == |addresses| && forall i :: 0 <= i < |list| ==> list[i].addr == addresses[i]
    ensures Listed(list) == Elems(addresses)
  {
    forall a | a in Elems(addresses) ensures a in Listed(list) {
      var i :| 0 <= i < |addresses| && addresses[i] == a;
      assert list[i].addr == a;
    }
  }

  lemma {:induction false} KeysConcat(x: seq<AccessTuple>, y: seq<AccessTuple>, a: Address)
    ensures KeysOf(x + y, a) == KeysOf(x, a) + KeysOf(y, a)
    decreases |y|
  {
    if y == [] {
      assert x + y == x;
    } else {
      assert (x + y)[..|x + y| - 1] == x + y[..|y| - 1];
      KeysConcat(x, y[..|y| - 1], a);
    }
  }

  lemma ListedConcat(a: seq<AccessTuple>, b: seq<AccessTuple>)
    ensures Listed(a + b) == Listed(a) + Listed(b)
  {
    forall x | x in Listed(a) + Listed(b) ensures x in Listed(a + b) {
      if x in Listed(a) {
        var k :| 0 <= k < |a| && a[k].addr == x;
        assert (a + b)[k].addr == x;
      } else {
        var k :| 0 <= k < |b| && b[k].addr == x;
        assert (a + b)[|a| + k].addr == x;
      }
    }
  }

  ghost predicate FirstWithoutSender(txs: seq<TxHeader>, index: nat) {
    index < |txs| && txs[index].sender.None? && forall i :: 0 <= i < index ==> txs[i].sender.Some?
  }

  // collectDeclaredAddressSets: fails on the first transaction without a sender.
  method CollectDeclaredAddressSets(txs: seq<TxHeader>) returns (r: SetsResult)
    ensures r.Sets? <==> forall i :: 0 <= i < |txs| ==> txs[i].sender.Some?
    ensures r.Sets? ==> r.sets == DeclaredSets(txs)
    ensures r.Sets? ==> forall i, a :: 0 <= i < |txs| ==> (a in r.sets[i] <==> Names(txs[i], a))
    ensures r.BadSender? ==> FirstWithoutSender(txs, r.index)
  {
    var sets: seq<set<Address>> := [];
    for i := 0 to |txs|
      invariant |sets| == i
      invariant forall k :: 0 <= k < i ==> txs[k].sender.Some? && sets[k] == Declared(txs[k])
    {
      var tx := txs[i];
      if tx.sender.None? {
        return BadSender(i);
      }
      var s := {tx.sender.value};
      if tx.to.Some? {
        s := s + {tx.to.value};
      }
      var list := WaveAccessList(tx);
      ghost var base := s;
      for k := 0 to |list|
        invariant s == base + Listed(list[..k])
      {
        assert list[..k + 1] == list[..k] + [list[k]];
        ListedConcat(list[..k], [list[k]]);
        s := s + {list[k].addr};
      }
      assert list[..|list|] == list;
      sets := sets + [s];
    }
    r := Sets(sets);
    forall i, a | 0 <= i < |txs| ensures a in sets[i] <==> Names(txs[i], a) {
      DeclaredAreNamed(txs[i], a);
    }
  }

  // declaredAddressSetsOverlap: a search over the first map.
  method DeclaredAddressSetsOverlap(a: set<Address>, b: set<Address>) returns (overlap: bool)
    ensures overlap <==> a * b != {}
  {
    var rest := a;
    while rest != {}
      invariant rest <= a && (a - rest) * b == {}
      decreases rest
    {
      var addr :| addr in rest;
      if addr in b {
        assert addr in a * b;
        return true;
      }
      rest := rest - {addr};
    }
    assert a - rest == a;
    overlap := false;
  }

  // Two transactions conflict when their declared sets intersect.
  ghost predicate Conflict(decl: seq<set<Address>>, i: nat, j: nat)
    requires i < |decl| && j < |decl|
  {
    decl[i] * decl[j] != {}
  }

  // The number of waves that must run before transaction i: one more than the
  // deepest conflicting predecessor, zero without one.
  ghost function Depth(decl: seq<set<Address>>, i: nat): nat
    requires i < |decl|
    decreases i, 1, 0
  {
    DepthBelow(decl, i, i)
  }

  ghost function DepthBelow(decl: seq<set<Address>>, i: nat, m: nat): nat
    requires m <= i < |decl|
    decreases i, 0, m
  {
    if m == 0 then 0
    else if Conflict(decl, m - 1, i)
    then Max(DepthBelow(decl, i, m - 1), Depth(decl, m - 1) + 1)
    else DepthBelow(decl, i, m - 1)
  }

  lemma {:induction false} DepthBelowFacts(decl: seq<set<Address>>, i: nat, m: nat)
    requires m <= i < |decl|
    ensures forall k :: 0 <= k < m && Conflict(decl, k, i) ==> Depth(decl, k) < DepthBelow(decl, i, m)
    ensures DepthBelow(decl, i, m) > 0 ==>
              exists k :: 0 <= k < m && Conflict(decl, k, i) && Depth(decl, k) == DepthBelow(decl, i, m) - 1
    decreases m
  {
    if m > 0 {
      DepthBelowFacts(decl, i, m - 1);
    }
  }

  // Depth is the least numbering that increases along conflicts.
  lemma DepthFacts(decl: seq<set<Address>>, i: nat)
    requires i < |decl|
    ensures forall k :: 0 <= k < i && Conflict(decl, k, i) ==> Depth(decl, k) < Depth(decl, i)
    ensures Depth(decl, i) > 0 ==>
              exists k :: 0 <= k < i && Conflict(decl, k, i) && Depth(decl, k) == Depth(decl, i) - 1
  {
    DepthBelowFacts(decl, i, i);
  }

  lemma {:induction false} DepthAtMostIndex(decl: seq<set<Address>>, i: nat)
    requires i < |decl|
    ensures Depth(decl, i) <= i
    decreases i
  {
    DepthFacts(decl, i);
    if Depth(decl, i) > 0 {
      var k :| 0 <= k < i && Conflict(decl, k, i) && Depth(decl, k) == Depth(decl, i) - 1;
      DepthAtMostIndex(decl, k);
    }
  }

  // The transactions below m of depth w, in ascending order.
  ghost function Level(decl: seq<set<Address>>, w: nat, m: nat): (r: seq<nat>)
    requires m <= |decl|
    ensures forall i :: i in r ==> i < m
  {
    if m == 0 then []
    else if Depth(decl, m - 1) == w then Level(decl, w, m - 1) + [m - 1]
    else Level(decl, w, m - 1)
  }

  lemma {:induction false} LevelFacts(decl: seq<set<Address>>, w: nat, m: nat)
    requires m <= |decl|
    ensures forall i :: i in Level(decl, w, m) <==> 0 <= i < m && Depth(decl, i) == w
    ensures Ascending(Level(decl, w, m))
  {
    if m > 0 {
      LevelFacts(decl, w, m - 1);
      var shorter := Level(decl, w, m - 1);
      assert forall i :: 0 <= i < |shorter| ==> shorter[i] in shorter;
    }
  }

  ghost predicate Ascending(s: seq<nat>) {
    forall i, j :: 0 <= i < j < |s| ==> s[i] < s[j]
  }

  // The greedy packing loop. Wave w of the result is exactly the set of transactions
  // of depth w, so the number of waves is the largest depth plus one.
  method BuildWaves(decl: seq<set<Address>>) returns (groups: seq<seq<nat>>)
    ensures forall w :: 0 <= w < |groups| ==> groups[w] == Level(decl, w, |decl|) && groups[w] != []
    ensures forall i :: 0 <= i < |decl| ==> Depth(decl, i) < |groups|
  {
    var n := |decl|;
    var unassigned := new bool[n](_ => true);
    groups := [];
    while true
      invariant forall i :: 0 <= i < n ==> (unassigned[i] <==> |groups| <= Depth(decl, i))
      invariant forall w :: 0 <= w < |groups| ==> groups[w] == Level(decl, w, n) && groups[w] != []
      invariant |groups| <= n
      decreases n - |groups|
    {
      var seed := FirstUnassigned(unassigned);
      if seed == -1 {
        forall i | 0 <= i < n ensures Depth(decl, i) < |groups| {
          assert !unassigned[i];
        }
        break;
      }
      DepthFacts(decl, seed);
      DepthAtMostIndex(decl, seed);
      var group := PackWave(decl, unassigned, seed, |groups|);
      groups := groups + [group];
    }
  }

  method FirstUnassigned(unassigned: array<bool>) returns (seed: int)
    ensures seed == -1 <==> forall i :: 0 <= i < unassigned.Length ==> !unassigned[i]
    ensures seed != -1 ==> 0 <= seed < unassigned.Length && unassigned[seed] &&
                           forall i :: 0 <= i < seed ==> !unassigned[i]
  {
    for i := 0 to unassigned.Length
      invariant forall k :: 0 <= k < i ==> !unassigned[k]
    {
      if unassigned[i] {
        return i;
      }
    }
    seed := -1;
  }

  // Causality check: does an earlier, still unassigned transaction conflict with j?
  method Blocked(decl: seq<set<Address>>, unassigned: array<bool>, j: nat) returns (blocked: bool)
    requires unassigned.Length == |decl| && j < |decl|
    ensures blocked <==> exists k :: 0 <= k < j && unassigned[k] && Conflict(decl, k, j)
  {
    for k := 0 to j
      invariant forall l :: 0 <= l < k ==> !(unassigned[l] && Conflict(decl, l, j))
    {
      if unassigned[k] {
        var overlap := DeclaredAddressSetsOverlap(decl[j], decl[k]);
        if overlap {
          assert Conflict(decl, k, j);
          return true;
        }
      }
    }
    blocked := false;
  }

  ghost function AddressesOf(decl: seq<set<Address>>, group: seq<nat>): set<Address>
    requires forall i :: i in group ==> i < |decl|
  {
    set i, a | i in group && a in decl[i] :: a
  }

  // One wave: the seed, then every later transaction that clashes neither with the
  // wave so far nor with an unassigned predecessor.
  method PackWave(decl: seq<set<Address>>, unassigned: array<bool>, seed: nat, ghost w: nat)
    returns (group: seq<nat>)
    requires unassigned.Length == |decl| && seed < |decl| && unassigned[seed]
    requires forall i :: 0 <= i < |decl| ==> (unassigned[i] <==> w <= Depth(decl, i))
    requires forall i :: 0 <= i < seed ==> !unassigned[i]
    modifies unassigned
    ensures group == Level(decl, w, |decl|) && group != []
    ensures forall i :: 0 <= i < |decl| ==> (unassigned[i] <==> w + 1 <= Depth(decl, i))
  {
    var n := |decl|;
    SeedDepth(decl, w, seed);
    group := [seed];
    var groupAddresses := decl[seed];
    unassigned[seed] := false;
    for j := seed + 1 to n
      invariant group == Level(decl, w, j) && group != []
      invariant forall i :: i in group ==> i < n
      invariant groupAddresses == AddressesOf(decl, group)
      invariant forall i :: 0 <= i < j ==> (unassigned[i] <==> w < Depth(decl, i))
      invariant forall i :: j <= i < n ==> (unassigned[i] <==> w <= Depth(decl, i))
    {
      LevelFacts(decl, w, j);
      DepthFacts(decl, j);
      if unassigned[j] {
        var overlap := DeclaredAddressSetsOverlap(decl[j], groupAddresses);
        var blocked := Blocked(decl, unassigned, j);
        OverlapIsConflict(decl, group, j);
        JoinIffDepth(decl, w, j);
        if !overlap && !blocked {
          group := group + [j];
          unassigned[j] := false;
          groupAddresses := groupAddresses + decl[j];
        }
      }
    }
  }

  lemma SeedDepth(decl: seq<set<Address>>, w: nat, seed: nat)
    requires seed < |decl| && w <= Depth(decl, seed)
    requires forall i :: 0 <= i < seed ==> Depth(decl, i) < w
    ensures Depth(decl, seed) == w && Level(decl, w, seed) == [] && Level(decl, w, seed + 1) == [seed]
  {
    DepthFacts(decl, seed);
    LevelFacts(decl, w, seed);
    assert Level(decl, w, seed) == [] by {
      if Level(decl, w, seed) != [] {
        assert Level(decl, w, seed)[0] in Level(decl, w, seed);
      }
    }
  }

  lemma OverlapIsConflict(decl: seq<set<Address>>, group: seq<nat>, j: nat)
    requires j < |decl| && forall i :: i in group ==> i < |decl|
    ensures decl[j] * AddressesOf(decl, group) != {} <==> exists i :: i in group && Conflict(decl, i, j)
  {
    if decl[j] * AddressesOf(decl, group) != {} {
      var a :| a in decl[j] * AddressesOf(decl, group);
      var i :| i in group && a in decl[i];
      var common: set<Address> := decl[i] * decl[j];
    assert a in common;
    assert Conflict(decl, i, j);
    }
    if i :| i in group && Conflict(decl, i, j) {
      var a :| a in decl[i] * decl[j];
      assert a in decl[j] * AddressesOf(decl, group);
    }
  }

  // A pending j joins wave w exactly when its depth is w: a deeper conflicting
  // predecessor is still unassigned, one of depth w sits in the wave.
  lemma JoinIffDepth(decl: seq<set<Address>>, w: nat, j: nat)
    requires j < |decl| && w <= Depth(decl, j)
    ensures Depth(decl, j) == w <==>
              && !(exists i :: i in Level(decl, w, j) && Conflict(decl, i, j))
              && !(exists k :: 0 <= k < j && w < Depth(decl, k) && Conflict(decl, k, j))
  {
    LevelFacts(decl, w, j);
    DepthFacts(decl, j);
    if Depth(decl, j) > w {
      var k :| 0 <= k < j && Conflict(decl, k, j) && Depth(decl, k) == Depth(decl, j) - 1;
      assert Depth(decl, k) == w ==> k in Level(decl, w, j);
    }
  }

  // BuildTransactionStorageParallelGroups. With grouping switched off every
  // transaction is a wave of its own.
  method BuildGroups(txs: seq<TxHeader>, grouping: bool) returns (r: GroupsResult)
    ensures r.NoSender? <==> grouping && exists i :: 0 <= i < |txs| && txs[i].sender.None?
    ensures r.NoSender? ==> FirstWithoutSender(txs, r.index)
    ensures r.Groups? ==> OrderRespecting(DeclaredSets(txs), r.groups)
    ensures r.Groups? ==> forall w :: 0 <= w < |r.groups| ==> r.groups[w] != []
    ensures r.Groups? && grouping ==>
              forall w :: 0 <= w < |r.groups| ==> r.groups[w] == Level(DeclaredSets(txs), w, |txs|)
    ensures r.Groups? && !grouping ==> r.groups == Singletons(|txs|)
  {
    var n := |txs|;
    if n == 0 {
      return Groups([]);
    }
    if !grouping {
      var groups := new seq<nat>[n];
      for i := 0 to n
        invariant forall k :: 0 <= k < i ==> groups[k] == [k]
      {
        groups[i] := [i];
      }
      assert groups[..] == Singletons(n);
      SingletonsOrderRespecting(DeclaredSets(txs));
      return Groups(groups[..]);
    }
    var sets := CollectDeclaredAddressSets(txs);
    match sets {
      case BadSender(i) => r := NoSender(i);
      case Sets(decl) =>
        var groups := BuildWaves(decl);
        LevelsOrderRespecting(decl, groups);
        r := Groups(groups);
    }
  }

  ghost function Singletons(n: nat): seq<seq<nat>> {
    seq(n, i requires 0 <= i < n => [i])
  }

  // A schedule any executor may follow: every index exactly once, waves ascending,
  // and conflicting transactions in strictly increasing waves.
  ghost predicate OrderRespecting(decl: seq<set<Address>>, groups: seq<seq<nat>>) {
    && (forall w :: 0 <= w < |groups| ==> Ascending(groups[w]) && forall i :: i in groups[w] ==> i < |decl|)
    && (forall i :: 0 <= i < |decl| ==> Scheduled(groups, i))
    && (forall v, w, i :: 0 <= v < |groups| && 0 <= w < |groups| && i in groups[v] && i in groups[w] ==> v == w)
    && (forall v, w, i, j | 0 <= v < |groups| && 0 <= w < |groups| && i in groups[v] && j in groups[w] ::
          i < j < |decl| && Conflict(decl, i, j) ==> v < w)
  }

  ghost predicate Scheduled(groups: seq<seq<nat>>, i: nat) {
    exists w :: 0 <= w < |groups| && i in groups[w]
  }

  // Two transactions that name a common address run in block order, in different waves.
  lemma CommonAddressOrdersWaves(txs: seq<TxHeader>, groups: seq<seq<nat>>, v: nat, w: nat, i: nat, j: nat, a: Address)
    requires OrderRespecting(DeclaredSets(txs), groups) && v < |groups| && w < |groups|
    requires i in groups[v] && j in groups[w] && i < j < |txs| && Names(txs[i], a) && Names(txs[j], a)
    ensures v < w
  {
    DeclaredAreNamed(txs[i], a);
    DeclaredAreNamed(txs[j], a);
    var decl := DeclaredSets(txs);
    var common: set<Address> := decl[i] * decl[j];
    assert a in common;
    assert Conflict(decl, i, j);
  }

  // No address is named by two transactions of one wave.
  lemma WaveNamesAreDisjoint(txs: seq<TxHeader>, groups: seq<seq<nat>>, w: nat, i: nat, j: nat, a: Address)
    requires OrderRespecting(DeclaredSets(txs), groups) && w < |groups| && i in groups[w] && j in groups[w] && i != j
    ensures i < |txs| && j < |txs| && !(Names(txs[i], a) && Names(txs[j], a))
  {
    assert |DeclaredSets(txs)| == |txs|;
    if Names(txs[i], a) && Names(txs[j], a) {
      CommonAddressOrdersWaves(txs, groups, w, w, if i < j then i else j, if i < j then j else i, a);
      assert false;
    }
  }

  lemma SingletonsOrderRespecting(decl: seq<set<Address>>)
    ensures OrderRespecting(decl, Singletons(|decl|))
  {
    var groups := Singletons(|decl|);
    forall i | 0 <= i < |decl| ensures Scheduled(groups, i) {
      assert i in groups[i];
    }
  }

  lemma LevelsOrderRespecting(decl: seq<set<Address>>, groups: seq<seq<nat>>)
    requires forall w :: 0 <= w < |groups| ==> groups[w] == Level(decl, w, |decl|)
    requires forall i :: 0 <= i < |decl| ==> Depth(decl, i) < |groups|
    ensures OrderRespecting(decl, groups)
  {
    forall w | 0 <= w < |groups|
      ensures Ascending(groups[w])
      ensures forall i :: i in groups[w] <==> 0 <= i < |decl| && Depth(decl, i) == w
    {
      LevelFacts(decl, w, |decl|);
    }
    forall i | 0 <= i < |decl| ensures Scheduled(groups, i) {
      assert i in groups[Depth(decl, i)];
    }
    forall v, w, i, j | 0 <= v < |groups| && 0 <= w < |groups| && i in groups[v] && j in groups[w] &&
                        i < j < |decl| && Conflict(decl, i, j)
      ensures v < w
    {
      DepthFacts(decl, j);
    }
  }

  // ----- Reference definitions the greedy packing is measured against.

  // A chain of conflicts: ascending indices, each conflicting with the next.
  ghost predicate ConflictChain(decl: seq<set<Address>>, chain: seq<nat>) {
    && (forall p :: 0 <= p < |chain| ==> chain[p] < |decl|)
    && (forall p :: 0 <= p < |chain| - 1 ==> chain[p] < chain[p + 1] && Conflict(decl, chain[p], chain[p + 1]))
  }

  lemma {:induction false} ChainBoundsDepth(decl: seq<set<Address>>, chain: seq<nat>)
    requires ConflictChain(decl, chain) && chain != []
    ensures |chain| <= Depth(decl, chain[|chain| - 1]) + 1
    decreases |chain|
  {
    if |chain| > 1 {
      var shorter := chain[..|chain| - 1];
      ChainBoundsDepth(decl, shorter);
      assert shorter[|shorter| - 1] == chain[|chain| - 2];
      DepthFacts(decl, chain[|chain| - 1]);
      assert Conflict(decl, chain[|chain| - 2], chain[|chain| - 2 + 1]);
    }
  }

  lemma {:induction false} DeepestChain(decl: seq<set<Address>>, i: nat) returns (chain: seq<nat>)
    requires i < |decl|
    ensures ConflictChain(decl, chain) && chain != [] && chain[|chain| - 1] == i
    ensures |chain| == Depth(decl, i) + 1
    decreases i
  {
    DepthFacts(decl, i);
    if Depth(decl, i) == 0 {
      chain := [i];
    } else {
      var k :| 0 <= k < i && Conflict(decl, k, i) && Depth(decl, k) == Depth(decl, i) - 1;
      var front := DeepestChain(decl, k);
      chain := front + [i];
    }
  }

  // The wave of a transaction is the length of the longest chain of conflicting
  // predecessors that ends at it.
  lemma WaveIsLongestChain(decl: seq<set<Address>>, i: nat, d: nat)
    requires i < |decl|
    ensures i in Level(decl, d, |decl|) <==>
              && (exists c :: ConflictChain(decl, c) && |c| == d + 1 && c[d] == i)
              && !(exists c :: ConflictChain(decl, c) && |c| > d + 1 && c[|c| - 1] == i)
  {
    LevelFacts(decl, d, |decl|);
    var deepest := DeepestChain(decl, i);
    forall c | ConflictChain(decl, c) && c != [] && c[|c| - 1] == i
      ensures |c| <= Depth(decl, i) + 1
    {
      ChainBoundsDepth(decl, c);
    }
    if Depth(decl, i) == d {
      assert ConflictChain(decl, deepest) && |deepest| == d + 1 && deepest[d] == i;
    } else {
      assert Depth(decl, i) > d ==> ConflictChain(decl, deepest) && |deepest| > d + 1;
    }
  }

  lemma {:induction false} DepthIsLowerBound(decl: seq<set<Address>>, wave: seq<nat>, i: nat)
    requires |wave| == |decl| && i < |decl|
    requires forall p, q :: 0 <= p < q < |decl| && Conflict(decl, p, q) ==> wave[p] < wave[q]
    ensures Depth(decl, i) <= wave[i]
    decreases i
  {
    DepthFacts(decl, i);
    if Depth(decl, i) > 0 {
      var k :| 0 <= k < i && Conflict(decl, k, i) && Depth(decl, k) == Depth(decl, i) - 1;
      DepthIsLowerBound(decl, wave, k);
    }
  }

  // No order-respecting, conflict-free schedule uses fewer waves than the greedy one.
  lemma GreedyIsOptimal(decl: seq<set<Address>>, greedy: seq<seq<nat>>, other: seq<seq<nat>>)
    requires forall w :: 0 <= w < |greedy| ==> greedy[w] == Level(decl, w, |decl|) && greedy[w] != []
    requires OrderRespecting(decl, other)
    ensures |greedy| <= |other|
  {
    if |greedy| > 0 {
      var top := |greedy| - 1;
      LevelFacts(decl, top, |decl|);
      var i := greedy[top][0];
      assert i in greedy[top];
      var wave := seq(|decl|, k requires 0 <= k < |decl| => WaveOf(decl, other, k));
      DepthIsLowerBound(decl, wave, i);
    }
  }

  ghost function WaveOf(decl: seq<set<Address>>, groups: seq<seq<nat>>, i: nat): (w: nat)
    requires OrderRespecting(decl, groups) && i < |decl|
    ensures w < |groups| && i in groups[w]
  {
    assert Scheduled(groups, i);
    var w :| 0 <= w < |groups| && i in groups[w];
    w
  }
}
